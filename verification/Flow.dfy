/** One tracked flow: what each packet does to it, and which packets get a plan. */
module Flow {
  import opened Types
  import opened AutoTTL
  import opened Hosts
  import opened Cidr
  import opened Matching

  /** What the client's segments said last. */
  datatype Numbers = Numbers(isn: int, haveISN: bool, lastSeq: int, lastAck: int, lastWindow: int, retrans: int)

  /** What is known of the path and of the clocks: the TCP timestamps and the distance. */
  datatype Peer = Peer(tsVal: int, tsEcho: int, hops: int)

  /** A flow entry. `profileIdx` is -1 for "no profile"; it is only meaningful while
      `matched`, for the strategy of generation `gen`. */
  datatype FlowState = FlowState(
    num: Numbers, peer: Peer, pkts: int, dataPkts: int, l7: L7, host: Host, profileIdx: int, matched: bool,
    fastPath: bool, gen: nat, monitorAuto: Option<string>)

  const FRESH_FLOW := FlowState(Numbers(0, false, 0, 0, 0, 0), Peer(0, 0, 0), 0, 0, {}, [], -1, false, false, 0, None)

  /** A client packet. `syn` is SYN without ACK; `infoHost` and `infoL7` are what the
      classifier makes of the payload. */
  datatype Packet = Packet(
    seqNo: int, ack: int, window: int, syn: bool, payload: Bytes, timestamps: Option<(int, int)>,
    infoHost: Host, infoL7: L7, port: int, l3: int, dst: Option<Addr>)

  /** Everything a handler call reads besides the flow: the packet, its snapshot of
      strategy and generation, and the learned lists. */
  datatype Call = Call(p: Packet, s: Strategy, gen: nat, auto: AutoLists)

  /** The profile to plan with, if any, and the retransmissions reported. */
  datatype Outcome = Outcome(plan: Option<nat>, fed: seq<(string, Host)>)

  const TCP := 6
  const UDP := 17

  /** Discards a decision made against another generation. */
  function Revise(f: FlowState, gen: nat): FlowState {
    if f.gen == gen then f else f.(gen := gen, matched := false, profileIdx := -1, fastPath := false)
  }

  /** A SYN starts a new connection on the entry. */
  function Reset(f: FlowState, p: Packet): FlowState {
    if !p.syn then f
    else f.(num := f.num.(isn := p.seqNo, haveISN := true, lastSeq := 0, retrans := 0), pkts := 0, dataPkts := 0,
            l7 := {}, host := [], fastPath := false, matched := false, profileIdx := -1, monitorAuto := None)
  }

  predicate IsRetrans(f: FlowState, p: Packet) { |p.payload| > 0 && p.seqNo == f.num.lastSeq && f.num.lastSeq != 0 }

  function Account(f: FlowState, p: Packet): FlowState {
    f.(pkts := f.pkts + 1,
       dataPkts := f.dataPkts + if |p.payload| > 0 then 1 else 0,
       num := f.num.(lastAck := p.ack, lastWindow := p.window,
                     lastSeq := if |p.payload| > 0 then p.seqNo else f.num.lastSeq,
                     retrans := f.num.retrans + if IsRetrans(f, p) then 1 else 0),
       peer := match p.timestamps case None => f.peer case Some(ts) => f.peer.(tsVal := ts.0, tsEcho := ts.1))
  }

  /** Host name and class are sticky within a connection. */
  function Learn(f: FlowState, p: Packet): FlowState {
    var g := if p.infoHost != [] then f.(host := p.infoHost) else f;
    if p.infoL7 != {Unrecognised} then g.(l7 := p.infoL7) else g
  }

  function Query(f: FlowState, proto: int, p: Packet): Input { Input(proto, p.port, p.l3, f.l7, f.host, p.dst) }

  /** Profile selection: the cached verdict, or a new walk whose verdict is cached
      only when it is final. */
  function Select(f: FlowState, s: Strategy, q: Input, auto: AutoLists): (r: (FlowState, Option<nat>))
    ensures r.1.Some? ==> r.1.value < |s|
  {
    if f.matched then
      (f, if f.profileIdx < 0 || f.profileIdx >= |s| then None else Some(f.profileIdx))
    else match Decide(s, q, auto)
      case Cached(i) => (f.(matched := true, profileIdx := i), Some(i))
      case Provisional(i) => (f, Some(i))
      case Watch(path) => (f.(monitorAuto := Some(path)), None)
      case NoneForGood => (f.(matched := true, profileIdx := -1, monitorAuto := None), None)
      case NoneYet => (f.(monitorAuto := None), None)
  }

  function CounterValue(kind: CounterKind, f: FlowState, p: Packet): int {
    match kind
    case PacketCount => f.pkts
    case DataCount => f.dataPkts
    case RelSeq => if f.num.haveISN then (p.seqNo - f.num.isn) % 0x1_0000_0000 else 0
    case Unbounded => 0
  }

  predicate BeforeStart(prof: Profile, f: FlowState, p: Packet) {
    prof.start.kind != Unbounded && CounterValue(prof.start.kind, f, p) < prof.start.n
  }

  predicate PastCutoff(prof: Profile, f: FlowState, p: Packet) {
    prof.cutoff.kind != Unbounded && CounterValue(prof.cutoff.kind, f, p) > prof.cutoff.n
  }

  /** The start/cutoff window; passing the cutoff arms the fast path. */
  function Window(prof: Profile, f: FlowState, p: Packet): (FlowState, bool) {
    if BeforeStart(prof, f, p) then (f, false)
    else if PastCutoff(prof, f, p) then (f.(fastPath := true), false)
    else (f, true)
  }

  function Feed(path: Option<string>, host: Host): seq<(string, Host)> {
    if path.Some? && host != [] then [(path.value, host)] else []
  }

  /** The entry once a packet is accounted for, before any decision. */
  function Arrived(f: FlowState, c: Call): FlowState { Account(Reset(Revise(f, c.gen), c.p), c.p) }

  predicate Retransmitted(f: FlowState, c: Call) { IsRetrans(Reset(Revise(f, c.gen), c.p), c.p) }

  /** Selection and window for an accounted packet. */
  function Serve(f: FlowState, c: Call, retrans: bool): (FlowState, Outcome) {
    var fed := if retrans then Feed(f.monitorAuto, f.host) else [];
    if f.fastPath || (|c.p.payload| == 0 && !c.p.syn) then (f, Outcome(None, fed))
    else
      var g := Learn(f, c.p);
      var (h, prof) := Select(g, c.s, Query(g, TCP, c.p), c.auto);
      Conclude(h, prof, c, retrans, fed)
  }

  /** After selection: a final "none" arms the fast path, a profile asks its window. */
  function Conclude(f: FlowState, prof: Option<nat>, c: Call, retrans: bool, fed: seq<(string, Host)>): (FlowState, Outcome)
    requires prof.Some? ==> prof.value < |c.s|
  {
    if prof.None? then (if f.matched then f.(fastPath := true) else f, Outcome(None, fed))
    else
      var more := if retrans then Feed(c.s[prof.value].filter.autoHostlist, f.host) else [];
      var (g, inside) := Window(c.s[prof.value], f, c.p);
      (g, Outcome(if inside then prof else None, fed + more))
  }

  /** A client-to-server TCP packet. */
  function TcpStep(f: FlowState, c: Call): (FlowState, Outcome) {
    Serve(Arrived(f, c), c, Retransmitted(f, c))
  }

  /** A client-to-server UDP datagram. */
  function UdpStep(f: FlowState, c: Call): (FlowState, Outcome) {
    var g := Counted(f, c);
    if |c.p.payload| == 0 then (g, Outcome(None, [])) else ServeDatagram(g, c)
  }

  function Counted(f: FlowState, c: Call): FlowState {
    var g := Revise(f, c.gen);
    g.(pkts := g.pkts + 1, dataPkts := g.dataPkts + if |c.p.payload| == 0 then 0 else 1)
  }

  function ServeDatagram(f: FlowState, c: Call): (FlowState, Outcome) {
    if f.fastPath then (f, Outcome(None, []))
    else
      var g := Learn(f, c.p);
      var (h, prof) := Select(g, c.s, Query(g, UDP, c.p), c.auto);
      Conclude(h, prof, c, false, [])
  }

  /** The first payload of a relayed connection: no later packet can change the verdict. */
  function StreamStep(f: FlowState, c: Call): (FlowState, Outcome) {
    ServeStream(CountedStream(f, c), c)
  }

  /** Counted as data whatever its length. */
  function CountedStream(f: FlowState, c: Call): FlowState {
    var g := Revise(f, c.gen);
    Learn(g.(pkts := g.pkts + 1, dataPkts := g.dataPkts + 1), c.p)
  }

  function ServeStream(f: FlowState, c: Call): (FlowState, Outcome) {
    var (g, prof) := Select(f, c.s, Query(f, TCP, c.p), c.auto);
    (if prof.None? && !g.matched then g.(matched := true, profileIdx := -1) else g, Outcome(prof, []))
  }

  /** A server-to-client packet: only the first one tells the distance. */
  function Inbound(f: FlowState, ttl: int): FlowState
    requires 0 <= ttl < 256
  {
    if f.peer.hops == 0 then f.(peer := f.peer.(hops := HopsFromTTL(ttl))) else f
  }

  // ---------- the entry as the object handlers update ----------

  class FlowEntry {
    var f: FlowState

    constructor ()
      ensures f == FRESH_FLOW
    {
      f := FRESH_FLOW;
    }

    method ReviseGeneration(gen: nat)
      modifies this
      ensures f == Revise(old(f), gen)
    {
      if f.gen == gen {
        return;
      }
      f := f.(gen := gen);
      f := f.(matched := false);
      f := f.(profileIdx := -1);
      f := f.(fastPath := false);
    }

    /** The profile-chain walk; remembers a verdict only when it cannot change. */
    method Pick(s: Strategy, q: Input, auto: AutoLists) returns (prof: Option<nat>)
      requires !f.matched
      modifies this
      ensures (f, prof) == Select(old(f), s, q, auto)
    {
      var hostUnknown := q.host == [];
      for i := 0 to |s|
        invariant f == old(f) && FirstMatch(s, 0, q, auto) == FirstMatch(s, i, q, auto)
      {
        if !MatchProfile(s[i], q, auto) {
          continue;
        }
        if hostUnknown && HostGatedBefore(s, i, q) {
          return Some(i);
        }
        f := f.(matched := true, profileIdx := i);
        return Some(i);
      }
      f := f.(monitorAuto := AutoCandidate(s, 0, q));
      if f.monitorAuto.Some? {
        return None;
      }
      if !hostUnknown || !HostGatedBefore(s, |s|, q) {
        f := f.(matched := true, profileIdx := -1);
      }
      return None;
    }

    method SelectProfile(s: Strategy, q: Input, auto: AutoLists) returns (prof: Option<nat>)
      modifies this
      ensures (f, prof) == Select(old(f), s, q, auto)
    {
      if f.matched {
        if f.profileIdx < 0 || f.profileIdx >= |s| {
          return None;
        }
        return Some(f.profileIdx);
      }
      prof := Pick(s, q, auto);
    }

    method InWindow(prof: Profile, p: Packet) returns (inside: bool)
      modifies this
      ensures (f, inside) == Window(prof, old(f), p)
    {
      if prof.start.kind != Unbounded {
        if CounterValue(prof.start.kind, f, p) < prof.start.n {
          return false;
        }
      }
      if prof.cutoff.kind != Unbounded {
        if CounterValue(prof.cutoff.kind, f, p) > prof.cutoff.n {
          f := f.(fastPath := true);
          return false;
        }
      }
      return true;
    }

    /** Per-packet bookkeeping; says whether the packet is a retransmission. */
    method AccountPacket(c: Call) returns (retrans: bool)
      modifies this
      ensures f == Arrived(old(f), c) && retrans == Retransmitted(old(f), c)
    {
      var p := c.p;
      ReviseGeneration(c.gen);
      if p.syn {
        f := f.(num := f.num.(isn := p.seqNo, haveISN := true, lastSeq := 0, retrans := 0), pkts := 0, dataPkts := 0);
        f := f.(l7 := {}, host := [], fastPath := false, matched := false, profileIdx := -1, monitorAuto := None);
      }
      f := f.(pkts := f.pkts + 1);
      retrans := false;
      if |p.payload| > 0 {
        if p.seqNo == f.num.lastSeq && f.num.lastSeq != 0 {
          f := f.(num := f.num.(retrans := f.num.retrans + 1));
          retrans := true;
        }
        f := f.(num := f.num.(lastSeq := p.seqNo), dataPkts := f.dataPkts + 1);
      }
      f := f.(num := f.num.(lastAck := p.ack, lastWindow := p.window));
      if p.timestamps.Some? {
        f := f.(peer := f.peer.(tsVal := p.timestamps.value.0, tsEcho := p.timestamps.value.1));
      }
    }

    method OnTCP(c: Call) returns (out: Outcome)
      modifies this
      ensures (f, out) == TcpStep(old(f), c)
    {
      var retrans := AccountPacket(c);
      var fed: seq<(string, Host)> := [];
      if retrans {
        fed := Feed(f.monitorAuto, f.host);
      }
      if f.fastPath {
        return Outcome(None, fed);
      }
      if |c.p.payload| == 0 && !c.p.syn {
        return Outcome(None, fed);
      }
      f := Learn(f, c.p);
      var prof := SelectProfile(c.s, Query(f, TCP, c.p), c.auto);
      if prof.None? {
        if f.matched {
          f := f.(fastPath := true);
        }
        return Outcome(None, fed);
      }
      fed := fed + if retrans then Feed(c.s[prof.value].filter.autoHostlist, f.host) else [];
      var inside := InWindow(c.s[prof.value], c.p);
      out := Outcome(if inside then prof else None, fed);
    }

    method OnUDP(c: Call) returns (out: Outcome)
      modifies this
      ensures (f, out) == UdpStep(old(f), c)
    {
      ReviseGeneration(c.gen);
      f := f.(pkts := f.pkts + 1);
      if |c.p.payload| == 0 {
        return Outcome(None, []);
      }
      f := f.(dataPkts := f.dataPkts + 1);
      if f.fastPath {
        return Outcome(None, []);
      }
      f := Learn(f, c.p);
      var prof := SelectProfile(c.s, Query(f, UDP, c.p), c.auto);
      if prof.None? {
        if f.matched {
          f := f.(fastPath := true);
        }
        return Outcome(None, []);
      }
      var inside := InWindow(c.s[prof.value], c.p);
      var none: seq<(string, Host)> := [];
      assert none + none == none;
      out := Outcome(if inside then prof else None, none);
    }

    /** Selection for a relayed connection; None is the "no profile" error. */
    method PlanStream(c: Call) returns (out: Outcome)
      modifies this
      ensures (f, out) == StreamStep(old(f), c)
    {
      ReviseGeneration(c.gen);
      f := f.(pkts := f.pkts + 1);
      f := f.(dataPkts := f.dataPkts + 1);
      f := Learn(f, c.p);
      var prof := SelectProfile(c.s, Query(f, TCP, c.p), c.auto);
      if prof.None? && !f.matched {
        f := f.(matched := true);
        f := f.(profileIdx := -1);
      }
      out := Outcome(prof, []);
    }
  }

  // ---------- connection isolation ----------

  /** Equal but for what describes the path and the peer's clock. */
  predicate SameConnection(a: FlowState, b: FlowState) {
    a == b.(peer := a.peer)
  }

  datatype Event = Client(c: Call) | Server(ttl: int)

  function EventStep(f: FlowState, e: Event): (FlowState, Option<Outcome>) {
    match e
    case Client(c) => var (g, out) := TcpStep(f, c); (g, Some(out))
    case Server(ttl) => (if 0 <= ttl < 256 then Inbound(f, ttl) else f, None)
  }

  /** The outcomes of a run, and the entry after it. */
  function RunEvents(f: FlowState, es: seq<Event>): (FlowState, seq<Option<Outcome>>)
    decreases |es|
  {
    if |es| == 0 then (f, [])
    else
      var (g, out) := EventStep(f, es[0]);
      var (h, outs) := RunEvents(g, es[1..]);
      (h, [out] + outs)
  }

  lemma ArrivedSame(a: FlowState, b: FlowState, c: Call)
    requires SameConnection(a, b)
    ensures SameConnection(Arrived(a, c), Arrived(b, c)) && (Retransmitted(a, c) <==> Retransmitted(b, c))
  {
  }

  lemma SelectSame(a: FlowState, b: FlowState, s: Strategy, q: Input, auto: AutoLists)
    requires SameConnection(a, b)
    ensures SameConnection(Select(a, s, q, auto).0, Select(b, s, q, auto).0)
    ensures Select(a, s, q, auto).1 == Select(b, s, q, auto).1
  {
  }

  lemma ConcludeSame(a: FlowState, b: FlowState, prof: Option<nat>, c: Call, retrans: bool, fed: seq<(string, Host)>)
    requires SameConnection(a, b) && (prof.Some? ==> prof.value < |c.s|)
    ensures SameConnection(Conclude(a, prof, c, retrans, fed).0, Conclude(b, prof, c, retrans, fed).0)
    ensures Conclude(a, prof, c, retrans, fed).1 == Conclude(b, prof, c, retrans, fed).1
  {
  }

  lemma ServeSame(a: FlowState, b: FlowState, c: Call, retrans: bool)
    requires SameConnection(a, b)
    ensures SameConnection(Serve(a, c, retrans).0, Serve(b, c, retrans).0)
    ensures Serve(a, c, retrans).1 == Serve(b, c, retrans).1
  {
    var g, h := Learn(a, c.p), Learn(b, c.p);
    assert SameConnection(g, h) && Query(g, TCP, c.p) == Query(h, TCP, c.p);
    SelectSame(g, h, c.s, Query(g, TCP, c.p), c.auto);
    var fed := if retrans then Feed(a.monitorAuto, a.host) else [];
    var (g2, prof) := Select(g, c.s, Query(g, TCP, c.p), c.auto);
    ConcludeSame(g2, Select(h, c.s, Query(h, TCP, c.p), c.auto).0, prof, c, retrans, fed);
  }

  /** A handler never looks at the hop count or the timestamps. */
  lemma StepKeepsSame(a: FlowState, b: FlowState, e: Event)
    requires SameConnection(a, b)
    ensures SameConnection(EventStep(a, e).0, EventStep(b, e).0)
    ensures EventStep(a, e).1 == EventStep(b, e).1
  {
    match e {
      case Client(c) =>
        ArrivedSame(a, b, c);
        ServeSame(Arrived(a, c), Arrived(b, c), c, Retransmitted(a, c));
      case Server(_) =>
    }
  }

  lemma {:induction false} RunKeepsSame(a: FlowState, b: FlowState, es: seq<Event>)
    requires SameConnection(a, b)
    ensures SameConnection(RunEvents(a, es).0, RunEvents(b, es).0)
    ensures RunEvents(a, es).1 == RunEvents(b, es).1
    decreases |es|
  {
    if |es| > 0 {
      StepKeepsSame(a, b, es[0]);
      RunKeepsSame(EventStep(a, es[0]).0, EventStep(b, es[0]).0, es[1..]);
    }
  }

  /** Main result: from a SYN on, an entry of any history behaves exactly like a fresh
      one, through any later packets, reloads and learned lists: same profiles, same
      window decisions, same reports, same flags. Only the hop count and the TCP
      timestamps may carry over. */
  lemma ConnectionIsolation(f: FlowState, syn: Call, es: seq<Event>)
    requires syn.p.syn
    ensures var used, new_ := RunEvents(f, [Client(syn)] + es), RunEvents(FRESH_FLOW, [Client(syn)] + es);
      used.1 == new_.1 && SameConnection(used.0, new_.0)
  {
    assert ([Client(syn)] + es)[1..] == es;
    assert SameConnection(Arrived(f, syn), Arrived(FRESH_FLOW, syn));
    ServeSame(Arrived(f, syn), Arrived(FRESH_FLOW, syn), syn, Retransmitted(f, syn));
    RunKeepsSame(TcpStep(f, syn).0, TcpStep(FRESH_FLOW, syn).0, es);
  }
}
