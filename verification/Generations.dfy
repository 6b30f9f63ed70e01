/** Strategy swaps against packet handlers: every interleaving of Reload with handlers
    that work on a snapshot, stale snapshots and evicted entries included. */
module Generations {
  import opened Types
  import opened Hosts
  import opened Matching
  import opened Flow

  type Key(==, !new) = nat

  /** `decidedBy`, `armedBy` and `watchGen` are history variables: the strategy whose walk
      decided the cached verdict, the one whose handler armed the fast path, and the
      generation whose walk last said which self-learning list to report to. */
  datatype Entry = Entry(f: FlowState, decidedBy: Strategy, armedBy: Strategy, watchGen: nat)

  /** A handler between its atomic steps. */
  datatype Thread = Idle | Snapped(gen: nat, key: Key) | Holding(gen: nat, entry: nat)

  datatype Handler = HandleTcp | HandleUdp | HandleStream

  /** history[g - 1] is the strategy of generation g, None for "no strategy"; the last
      one is active. Entries stay around while some thread may still hold them. */
  datatype Sys = Sys(history: seq<Option<Strategy>>, entries: seq<Entry>, table: map<Key, nat>, threads: map<nat, Thread>)

  datatype Action =
    | Reload(s: Option<Strategy>)
    | Snapshot(t: nat, key: Key)
    | Lookup(t: nat)
    | Critical(t: nat, handler: Handler, p: Packet, auto: AutoLists)
    | FromServer(key: Key, ttl: int)
    | Forget(keys: set<Key>)

  function Boot(s: Option<Strategy>): Sys { Sys([s], [], map[], map[]) }

  function ThreadOf(sys: Sys, t: nat): Thread { if t in sys.threads then sys.threads[t] else Idle }

  /** The entry once the handler has dropped stale decisions and counted the packet. */
  function Live(f: FlowState, handler: Handler, c: Call): FlowState {
    match handler
    case HandleTcp => Arrived(f, c)
    case HandleUdp => Counted(f, c)
    case HandleStream => CountedStream(f, c)
  }

  function Critically(f: FlowState, handler: Handler, c: Call): (FlowState, Outcome) {
    match handler
    case HandleTcp => TcpStep(f, c)
    case HandleUdp => UdpStep(f, c)
    case HandleStream => StreamStep(f, c)
  }

  function ProtoOf(handler: Handler): int { if handler.HandleUdp? then UDP else TCP }

  /** The handler walks the whole profile list without a match: then, and only then, it
      rewrites which list the flow is watched for. */
  predicate WalksToEnd(handler: Handler, live: FlowState, c: Call) {
    && !live.matched
    && (handler.HandleTcp? ==> !live.fastPath && (|c.p.payload| > 0 || c.p.syn))
    && (handler.HandleUdp? ==> !live.fastPath && |c.p.payload| > 0)
    && FirstMatch(c.s, 0, Query(Learn(live, c.p), ProtoOf(handler), c.p), c.auto) == |c.s|
  }

  function Handled(e: Entry, handler: Handler, c: Call): Entry {
    var live, g := Live(e.f, handler, c), Critically(e.f, handler, c).0;
    Entry(g, if live.matched then e.decidedBy else c.s, if live.fastPath then e.armedBy else c.s,
          if WalksToEnd(handler, live, c) then c.gen else e.watchGen)
  }

  /** One atomic step; an action that is not enabled changes nothing. */
  function Next(sys: Sys, a: Action): Sys {
    match a
    case Reload(s) => sys.(history := sys.history + [s])
    case Snapshot(t, key) =>
      if ThreadOf(sys, t).Idle? && |sys.history| > 0 && sys.history[|sys.history| - 1].Some?
      then sys.(threads := sys.threads[t := Snapped(|sys.history|, key)])
      else sys
    case Lookup(t) =>
      (match ThreadOf(sys, t)
       case Snapped(gen, key) =>
         if key in sys.table then sys.(threads := sys.threads[t := Holding(gen, sys.table[key])])
         else sys.(entries := sys.entries + [Entry(FRESH_FLOW, [], [], 0)], table := sys.table[key := |sys.entries|],
                   threads := sys.threads[t := Holding(gen, |sys.entries|)])
       case _ => sys)
    case Critical(t, handler, p, auto) =>
      if Enters(sys, t) then
        var id := ThreadOf(sys, t).entry;
        sys.(entries := sys.entries[id := Handled(sys.entries[id], handler, CallOf(sys, t, p, auto))],
             threads := sys.threads[t := Idle])
      else sys
    case FromServer(key, ttl) =>
      if key in sys.table && sys.table[key] < |sys.entries| && 0 <= ttl < 256 then
        var e := sys.entries[sys.table[key]];
        sys.(entries := sys.entries[sys.table[key] := e.(f := Inbound(e.f, ttl))])
      else sys
    case Forget(keys) => sys.(table := sys.table - keys)
  }

  /** Thread t holds an entry and its snapshot, so its critical section may run. */
  predicate Enters(sys: Sys, t: nat) {
    && ThreadOf(sys, t).Holding? && ThreadOf(sys, t).entry < |sys.entries|
    && 1 <= ThreadOf(sys, t).gen <= |sys.history| && sys.history[ThreadOf(sys, t).gen - 1].Some?
  }

  /** The call thread t makes: the strategy and generation of its own snapshot. */
  function CallOf(sys: Sys, t: nat, p: Packet, auto: AutoLists): Call
    requires Enters(sys, t)
  {
    Call(p, sys.history[ThreadOf(sys, t).gen - 1].value, ThreadOf(sys, t).gen, auto)
  }

  function Reached(s: Option<Strategy>, trace: seq<Action>): Sys
    decreases |trace|
  {
    if |trace| == 0 then Boot(s) else Next(Reached(s, trace[..|trace| - 1]), trace[|trace| - 1])
  }

  // ---------- the invariant ----------

  predicate IsGeneration(history: seq<Option<Strategy>>, g: nat, s: Strategy) {
    1 <= g <= |history| && history[g - 1] == Some(s)
  }

  /** The generation stored in the entry names the strategy that decided it. */
  predicate Sound(e: Entry, history: seq<Option<Strategy>>) {
    && (e.f.matched ==> IsGeneration(history, e.f.gen, e.decidedBy) && -1 <= e.f.profileIdx < |e.decidedBy|)
    && (e.f.fastPath ==> IsGeneration(history, e.f.gen, e.armedBy))
    && (e.f.monitorAuto.Some? ==> WatchedUnder(history, e.watchGen, e.f.monitorAuto.value))
  }

  /** Some profile of the strategy carries this self-learning list. */
  predicate Named(s: Strategy, path: string) { exists i :: 0 <= i < |s| && s[i].filter.autoHostlist == Some(path) }

  /** The strategy of generation g carries this self-learning list. */
  predicate WatchedUnder(history: seq<Option<Strategy>>, g: nat, path: string) {
    1 <= g <= |history| && history[g - 1].Some? && Named(history[g - 1].value, path)
  }

  predicate ThreadSound(th: Thread, history: seq<Option<Strategy>>, entries: nat) {
    match th
    case Idle => true
    case Snapped(gen, _) => 1 <= gen <= |history| && history[gen - 1].Some?
    case Holding(gen, id) => 1 <= gen <= |history| && history[gen - 1].Some? && id < entries
  }

  predicate Inv(sys: Sys) {
    && |sys.history| > 0
    && (forall i :: 0 <= i < |sys.entries| ==> Sound(sys.entries[i], sys.history))
    && (forall k :: k in sys.table ==> sys.table[k] < |sys.entries|)
    && (forall t :: t in sys.threads ==> ThreadSound(sys.threads[t], sys.history, |sys.entries|))
  }

  lemma SelectFinal(f: FlowState, s: Strategy, q: Input, auto: AutoLists)
    ensures var g := Select(f, s, q, auto).0;
      && g.gen == f.gen && g.fastPath == f.fastPath
      && (f.matched ==> g.matched && g.profileIdx == f.profileIdx)
      && (!f.matched && g.matched ==> -1 <= g.profileIdx < |s|)
    ensures f.matched && -1 <= f.profileIdx < |s| ==>
              Select(f, s, q, auto).1 == if f.profileIdx == -1 then None else Some(f.profileIdx)
  {
  }

  /** A live verdict stays and is the only profile served; a new one is an index into
      the handler's own list. */
  predicate VerdictKept(live: FlowState, g: FlowState, plan: Option<nat>, size: nat) {
    && g.gen == live.gen
    && (live.matched ==> g.matched && g.profileIdx == live.profileIdx)
    && (!live.matched && g.matched ==> -1 <= g.profileIdx < size)
    && (live.fastPath ==> g.fastPath)
    && (live.matched && -1 <= live.profileIdx < size && plan.Some? ==> plan.value == live.profileIdx)
    && (plan.Some? ==> plan.value < size)
  }

  lemma ServeVerdict(f: FlowState, c: Call, retrans: bool)
    ensures VerdictKept(f, Serve(f, c, retrans).0, Serve(f, c, retrans).1.plan, |c.s|)
  {
    var g := Learn(f, c.p);
    SelectFinal(g, c.s, Query(g, TCP, c.p), c.auto);
  }

  lemma ServeDatagramVerdict(f: FlowState, c: Call)
    ensures VerdictKept(f, ServeDatagram(f, c).0, ServeDatagram(f, c).1.plan, |c.s|)
  {
    var g := Learn(f, c.p);
    SelectFinal(g, c.s, Query(g, UDP, c.p), c.auto);
  }

  lemma ServeStreamVerdict(f: FlowState, c: Call)
    ensures VerdictKept(f, ServeStream(f, c).0, ServeStream(f, c).1.plan, |c.s|)
  {
    SelectFinal(f, c.s, Query(f, TCP, c.p), c.auto);
  }

  lemma CriticalVerdict(f: FlowState, handler: Handler, c: Call)
    ensures VerdictKept(Live(f, handler, c), Critically(f, handler, c).0, Critically(f, handler, c).1.plan, |c.s|)
  {
    match handler {
      case HandleTcp => ServeVerdict(Arrived(f, c), c, Retransmitted(f, c));
      case HandleUdp => ServeDatagramVerdict(Counted(f, c), c);
      case HandleStream => ServeStreamVerdict(CountedStream(f, c), c);
    }
  }

  /** The generation test: what is still live was decided under the handler's own. */
  lemma LiveMeans(f: FlowState, handler: Handler, c: Call)
    ensures var live := Live(f, handler, c);
      && live.gen == c.gen
      && (live.matched ==> f.matched && f.gen == c.gen && live.profileIdx == f.profileIdx)
      && (live.fastPath ==> f.fastPath && f.gen == c.gen)
      && (live.monitorAuto.Some? ==> live.monitorAuto == f.monitorAuto)
  {
  }

  lemma {:induction false} CandidateNamed(s: Strategy, i: nat, q: Input)
    requires i <= |s|
    ensures AutoCandidate(s, i, q).Some? ==> Named(s, AutoCandidate(s, i, q).value)
    decreases |s| - i
  {
    if i < |s| {
      CandidateNamed(s, i + 1, q);
    }
  }

  /** Selection leaves the watched list alone unless the walk finds nothing. */
  lemma SelectWatches(f: FlowState, s: Strategy, q: Input, auto: AutoLists)
    ensures var g := Select(f, s, q, auto).0;
      if !f.matched && FirstMatch(s, 0, q, auto) == |s|
      then g.monitorAuto.Some? ==> Named(s, g.monitorAuto.value)
      else g.monitorAuto == f.monitorAuto
  {
    CandidateNamed(s, 0, q);
  }

  /** The watched list after a handler: its own strategy's, or the old one. */
  predicate WatchKept(walks: bool, live: FlowState, g: FlowState, s: Strategy) {
    if walks then g.monitorAuto.Some? ==> Named(s, g.monitorAuto.value) else g.monitorAuto == live.monitorAuto
  }

  lemma TcpWatch(f: FlowState, c: Call, retrans: bool)
    ensures WatchKept(WalksToEnd(HandleTcp, f, c), f, Serve(f, c, retrans).0, c.s)
  {
    var g := Learn(f, c.p);
    SelectWatches(g, c.s, Query(g, TCP, c.p), c.auto);
  }

  lemma UdpWatch(f: FlowState, c: Call)
    requires |c.p.payload| > 0
    ensures WatchKept(WalksToEnd(HandleUdp, f, c), f, ServeDatagram(f, c).0, c.s)
  {
    var g := Learn(f, c.p);
    SelectWatches(g, c.s, Query(g, UDP, c.p), c.auto);
  }

  lemma StreamWatch(f: FlowState, c: Call)
    requires Learn(f, c.p) == f
    ensures WatchKept(WalksToEnd(HandleStream, f, c), f, ServeStream(f, c).0, c.s)
  {
    SelectWatches(f, c.s, Query(f, TCP, c.p), c.auto);
  }

  lemma CriticalWatch(f: FlowState, handler: Handler, c: Call)
    ensures var live := Live(f, handler, c);
      WatchKept(WalksToEnd(handler, live, c), live, Critically(f, handler, c).0, c.s)
  {
    match handler {
      case HandleTcp => TcpWatch(Arrived(f, c), c, Retransmitted(f, c));
      case HandleUdp => if |c.p.payload| > 0 { UdpWatch(Counted(f, c), c); }
      case HandleStream => StreamWatch(CountedStream(f, c), c);
    }
  }

  lemma HandledSound(e: Entry, handler: Handler, c: Call, history: seq<Option<Strategy>>)
    requires Sound(e, history) && IsGeneration(history, c.gen, c.s)
    ensures Sound(Handled(e, handler, c), history)
  {
    LiveMeans(e.f, handler, c);
    CriticalVerdict(e.f, handler, c);
    CriticalWatch(e.f, handler, c);
  }

  lemma LaterHistory(e: Entry, history: seq<Option<Strategy>>, s: Option<Strategy>)
    requires Sound(e, history)
    ensures Sound(e, history + [s])
  {
  }

  lemma NextKeepsInv(sys: Sys, a: Action)
    requires Inv(sys)
    ensures Inv(Next(sys, a))
  {
    match a {
      case Reload(s) =>
        forall i | 0 <= i < |sys.entries| ensures Sound(sys.entries[i], sys.history + [s]) {
          LaterHistory(sys.entries[i], sys.history, s);
        }
      case Critical(t, handler, p, auto) =>
        if Enters(sys, t) {
          var id, c := ThreadOf(sys, t).entry, CallOf(sys, t, p, auto);
          HandledSound(sys.entries[id], handler, c, sys.history);
        }
      case Snapshot(_, _) =>
      case Lookup(_) =>
      case FromServer(_, _) =>
      case Forget(_) =>
    }
  }

  lemma {:induction false} ReachedInv(s: Option<Strategy>, trace: seq<Action>)
    ensures Inv(Reached(s, trace))
    decreases |trace|
  {
    if |trace| > 0 {
      ReachedInv(s, trace[..|trace| - 1]);
      NextKeepsInv(Reached(s, trace[..|trace| - 1]), trace[|trace| - 1]);
    }
  }

  /** A live verdict is used with the strategy it was decided against: its index is -1
      or in bounds and is the only profile served; likewise for a live fast path. */
  predicate RightStrategy(e: Entry, live: FlowState, s: Strategy, plan: Option<nat>) {
    && (live.matched ==>
          s == e.decidedBy && -1 <= live.profileIdx < |s| && (plan.Some? ==> plan.value == live.profileIdx))
    && (live.fastPath ==> s == e.armedBy)
    && (plan.Some? ==> plan.value < |s|)
  }

  lemma SoundIsRight(e: Entry, handler: Handler, c: Call, history: seq<Option<Strategy>>)
    requires Sound(e, history) && IsGeneration(history, c.gen, c.s)
    ensures RightStrategy(e, Live(e.f, handler, c), c.s, Critically(e.f, handler, c).1.plan)
  {
    LiveMeans(e.f, handler, c);
    CriticalVerdict(e.f, handler, c);
  }

  /** Main result: after any interleaving whatever, a handler that enters its critical
      section with a live cached verdict (its generation test passed) holds in its
      snapshot the very strategy the verdict was decided against. */
  lemma SwapSafety(s: Option<Strategy>, trace: seq<Action>, t: nat, handler: Handler, p: Packet, auto: AutoLists)
    requires Enters(Reached(s, trace), t)
    ensures var sys := Reached(s, trace);
      var e, c := sys.entries[ThreadOf(sys, t).entry], CallOf(sys, t, p, auto);
      RightStrategy(e, Live(e.f, handler, c), c.s, Critically(e.f, handler, c).1.plan)
  {
    var sys := Reached(s, trace);
    ReachedInv(s, trace);
    SoundIsRight(sys.entries[ThreadOf(sys, t).entry], handler, CallOf(sys, t, p, auto), sys.history);
  }

  /** The reports a TCP handler makes: for a retransmission with a known host, one to the
      list the flow is watched for and one to the serving profile's own. */
  lemma ReportsAre(f: FlowState, c: Call)
    ensures var fed, live := TcpStep(f, c).1.fed, Arrived(f, c);
      && (!Retransmitted(f, c) ==> fed == [])
      && forall r :: r in fed ==> live.monitorAuto == Some(r.0) || Named(c.s, r.0)
  {
    ServeReports(Arrived(f, c), c, Retransmitted(f, c));
  }

  lemma ServeReports(f: FlowState, c: Call, retrans: bool)
    ensures var fed := Serve(f, c, retrans).1.fed;
      && (!retrans ==> fed == [])
      && forall r :: r in fed ==> f.monitorAuto == Some(r.0) || Named(c.s, r.0)
  {
    var g := Learn(f, c.p);
    var (h, prof) := Select(g, c.s, Query(g, TCP, c.p), c.auto);
    var none: seq<(string, Host)> := [];
    assert none + none == none;
    if prof.Some? && c.s[prof.value].filter.autoHostlist.Some? {
      assert Named(c.s, c.s[prof.value].filter.autoHostlist.value);
    }
  }

  /** The list is the handler's own strategy's, or the watching generation's; its own for sure when
      that is the handler's generation. */
  predicate Belongs(history: seq<Option<Strategy>>, watchGen: nat, c: Call, path: string) {
    && (Named(c.s, path) || WatchedUnder(history, watchGen, path))
    && (watchGen == c.gen ==> Named(c.s, path))
  }

  lemma SoundReports(e: Entry, c: Call, history: seq<Option<Strategy>>)
    requires Sound(e, history) && IsGeneration(history, c.gen, c.s)
    ensures forall r :: r in TcpStep(e.f, c).1.fed ==> Belongs(history, e.watchGen, c, r.0)
  {
    ReportsAre(e.f, c);
    LiveMeans(e.f, HandleTcp, c);
  }

  /** After any interleaving, every list a handler reports to is one its own strategy
      carries, or the one the flow is watched for, which the strategy of generation
      `watchGen` carries; so all are its own while that generation is. */
  lemma ReportsBelong(s: Option<Strategy>, trace: seq<Action>, t: nat, p: Packet, auto: AutoLists)
    requires Enters(Reached(s, trace), t)
    ensures var sys := Reached(s, trace);
      var e, c := sys.entries[ThreadOf(sys, t).entry], CallOf(sys, t, p, auto);
      forall r :: r in TcpStep(e.f, c).1.fed ==> Belongs(sys.history, e.watchGen, c, r.0)
  {
    var sys := Reached(s, trace);
    ReachedInv(s, trace);
    SoundReports(sys.entries[ThreadOf(sys, t).entry], CallOf(sys, t, p, auto), sys.history);
  }

  /** It need not be: a reload keeps the watched list, and the next retransmission is
      reported to it although the new strategy carries no list at all. */
  lemma ReportAfterReload()
    ensures var f := FRESH_FLOW.(gen := 1, host := ["com"], monitorAuto := Some("old"), num := FRESH_FLOW.num.(lastSeq := 7));
      var p := Packet(7, 0, 0, false, [0], None, [], {Unrecognised}, 443, 4, None);
      TcpStep(f, Call(p, [], 2, map[])).1.fed == [("old", ["com"])]
  {
  }

  /** A thread that can run its critical section always exists once it has looked the
      entry up: nothing evicts what it holds, and its snapshot stays a generation. */
  lemma HeldEntriesStay(s: Option<Strategy>, trace: seq<Action>, t: nat)
    requires ThreadOf(Reached(s, trace), t).Holding?
    ensures Enters(Reached(s, trace), t)
  {
    ReachedInv(s, trace);
    assert t in Reached(s, trace).threads;
  }
}
