/** What a flow entry knows after a run of packets, and which profile that makes it plan,
    stated on the packets alone. */
module Learning {
  import opened Types
  import opened Hosts
  import opened Cidr
  import opened AutoTTL
  import opened Matching
  import opened Selection
  import opened Flow

  /** The three ways a packet reaches an entry. */
  datatype Door = OnTcp | OnUdp | OnStream

  function Through(d: Door, f: FlowState, c: Call): (FlowState, Outcome) {
    match d
    case OnTcp => TcpStep(f, c)
    case OnUdp => UdpStep(f, c)
    case OnStream => StreamStep(f, c)
  }

  /** A new connection forgets what the old one was. */
  predicate Clears(d: Door, c: Call) { d.OnTcp? && c.p.syn }

  /** The packet gets as far as profile selection. */
  predicate Reaches(d: Door, f: FlowState, c: Call) {
    Clears(d, c) || d.OnStream? || (|c.p.payload| > 0 && !(f.fastPath && f.gen == c.gen))
  }

  predicate BringsClass(d: Door, f: FlowState, c: Call) { Reaches(d, f, c) && c.p.infoL7 != {Unrecognised} }

  predicate BringsHost(d: Door, f: FlowState, c: Call) { Reaches(d, f, c) && c.p.infoHost != [] }

  // ---------- one packet ----------

  /** The parts of an entry that selection leaves alone. */
  predicate SameKnowledge(f: FlowState, g: FlowState) {
    && g.l7 == f.l7 && g.host == f.host && g.num == f.num && g.pkts == f.pkts && g.dataPkts == f.dataPkts && g.gen == f.gen
  }

  lemma SelectKnows(f: FlowState, s: Strategy, q: Input, auto: AutoLists)
    ensures SameKnowledge(f, Select(f, s, q, auto).0)
    ensures !f.matched ==> Select(f, s, q, auto).1 == FirstOf(s, q, auto)
  {
  }

  function FirstOf(s: Strategy, q: Input, auto: AutoLists): Option<nat> {
    var i := FirstMatch(s, 0, q, auto);
    if i < |s| then Some(i) else None
  }

  lemma ConcludeKnows(f: FlowState, prof: Option<nat>, c: Call, retrans: bool, fed: seq<(string, Host)>)
    requires prof.Some? ==> prof.value < |c.s|
    ensures var (g, out) := Conclude(f, prof, c, retrans, fed);
      && SameKnowledge(f, g)
      && out.plan == if prof.Some? && !BeforeStart(c.s[prof.value], f, c.p) && !PastCutoff(c.s[prof.value], f, c.p) then prof else None
  {
  }

  /** The class and host after a packet. */
  predicate Learned1(d: Door, f: FlowState, c: Call, g: FlowState) {
    && g.l7 == (if BringsClass(d, f, c) then c.p.infoL7 else if Clears(d, c) then {} else f.l7)
    && g.host == (if BringsHost(d, f, c) then c.p.infoHost else if Clears(d, c) then [] else f.host)
  }

  lemma TcpLearns(f: FlowState, c: Call)
    ensures Learned1(OnTcp, f, c, TcpStep(f, c).0)
  {
    var g := Learn(Arrived(f, c), c.p);
    var (h, prof) := Select(g, c.s, Query(g, TCP, c.p), c.auto);
    SelectKnows(g, c.s, Query(g, TCP, c.p), c.auto);
    ConcludeKnows(h, prof, c, Retransmitted(f, c), []);
  }

  lemma UdpLearns(f: FlowState, c: Call)
    ensures Learned1(OnUdp, f, c, UdpStep(f, c).0)
  {
    var g := Learn(Counted(f, c), c.p);
    var (h, prof) := Select(g, c.s, Query(g, UDP, c.p), c.auto);
    SelectKnows(g, c.s, Query(g, UDP, c.p), c.auto);
    ConcludeKnows(h, prof, c, false, []);
  }

  lemma StreamLearns(f: FlowState, c: Call)
    ensures Learned1(OnStream, f, c, StreamStep(f, c).0)
  {
    var g := CountedStream(f, c);
    SelectKnows(g, c.s, Query(g, TCP, c.p), c.auto);
  }

  lemma StepLearns(d: Door, f: FlowState, c: Call)
    ensures Learned1(d, f, c, Through(d, f, c).0)
  {
    match d {
      case OnTcp => TcpLearns(f, c);
      case OnUdp => UdpLearns(f, c);
      case OnStream => StreamLearns(f, c);
    }
  }

  // ---------- a run ----------

  predicate Passes(d: Door, f: FlowState, c: Call, g: FlowState) { g == Through(d, f, c).0 }

  predicate Run(d: Door, fs: seq<FlowState>, cs: seq<Call>) {
    |fs| == |cs| + 1 && forall i :: 0 <= i < |cs| ==> Passes(d, fs[i], cs[i], fs[i + 1])
  }

  predicate LearnedAt(d: Door, fs: seq<FlowState>, cs: seq<Call>, i: nat)
    requires i < |cs| < |fs|
  {
    Learned1(d, fs[i], cs[i], fs[i + 1])
  }

  /** Packet j is the last one before k that brought a class or started a connection. */
  predicate LastClass(d: Door, fs: seq<FlowState>, cs: seq<Call>, k: nat, j: nat)
    requires j < k <= |cs| < |fs|
  {
    (BringsClass(d, fs[j], cs[j]) || Clears(d, cs[j])) &&
    forall i :: j < i < k ==> !BringsClass(d, fs[i], cs[i]) && !Clears(d, cs[i])
  }

  predicate LastHost(d: Door, fs: seq<FlowState>, cs: seq<Call>, k: nat, j: nat)
    requires j < k <= |cs| < |fs|
  {
    (BringsHost(d, fs[j], cs[j]) || Clears(d, cs[j])) &&
    forall i :: j < i < k ==> !BringsHost(d, fs[i], cs[i]) && !Clears(d, cs[i])
  }

  lemma {:induction false} ClassIsLast(d: Door, fs: seq<FlowState>, cs: seq<Call>, k: nat)
    requires k <= |cs| < |fs| && forall i :: 0 <= i < |cs| ==> LearnedAt(d, fs, cs, i)
    ensures (fs[k].l7 == fs[0].l7 && forall i :: 0 <= i < k ==> !BringsClass(d, fs[i], cs[i]) && !Clears(d, cs[i])) ||
            exists j :: 0 <= j < k && LastClass(d, fs, cs, k, j) &&
                        fs[k].l7 == if BringsClass(d, fs[j], cs[j]) then cs[j].p.infoL7 else {}
    decreases k
  {
    if k > 0 {
      ClassIsLast(d, fs, cs, k - 1);
      assert LearnedAt(d, fs, cs, k - 1);
      if BringsClass(d, fs[k - 1], cs[k - 1]) || Clears(d, cs[k - 1]) {
        assert LastClass(d, fs, cs, k, k - 1);
      } else if j :| 0 <= j < k - 1 && LastClass(d, fs, cs, k - 1, j) &&
                     fs[k - 1].l7 == if BringsClass(d, fs[j], cs[j]) then cs[j].p.infoL7 else {} {
        assert LastClass(d, fs, cs, k, j);
      }
    }
  }

  lemma {:induction false} HostIsLast(d: Door, fs: seq<FlowState>, cs: seq<Call>, k: nat)
    requires k <= |cs| < |fs| && forall i :: 0 <= i < |cs| ==> LearnedAt(d, fs, cs, i)
    ensures (fs[k].host == fs[0].host && forall i :: 0 <= i < k ==> !BringsHost(d, fs[i], cs[i]) && !Clears(d, cs[i])) ||
            exists j :: 0 <= j < k && LastHost(d, fs, cs, k, j) &&
                        fs[k].host == if BringsHost(d, fs[j], cs[j]) then cs[j].p.infoHost else []
    decreases k
  {
    if k > 0 {
      HostIsLast(d, fs, cs, k - 1);
      assert LearnedAt(d, fs, cs, k - 1);
      if BringsHost(d, fs[k - 1], cs[k - 1]) || Clears(d, cs[k - 1]) {
        assert LastHost(d, fs, cs, k, k - 1);
      } else if j :| 0 <= j < k - 1 && LastHost(d, fs, cs, k - 1, j) &&
                     fs[k - 1].host == if BringsHost(d, fs[j], cs[j]) then cs[j].p.infoHost else [] {
        assert LastHost(d, fs, cs, k, j);
      }
    }
  }

  /** What is known after k packets: the class of the last packet since the last SYN that
      reached selection with a recognised one, and the last host name such a packet
      carried; nothing, if there is none. */
  predicate KnowsLast(d: Door, fs: seq<FlowState>, cs: seq<Call>, k: nat)
    requires k <= |cs| < |fs|
  {
    && ((fs[k].l7 == fs[0].l7 && forall i :: 0 <= i < k ==> !BringsClass(d, fs[i], cs[i]) && !Clears(d, cs[i])) ||
        exists j :: 0 <= j < k && LastClass(d, fs, cs, k, j) &&
                    fs[k].l7 == if BringsClass(d, fs[j], cs[j]) then cs[j].p.infoL7 else {})
    && ((fs[k].host == fs[0].host && forall i :: 0 <= i < k ==> !BringsHost(d, fs[i], cs[i]) && !Clears(d, cs[i])) ||
        exists j :: 0 <= j < k && LastHost(d, fs, cs, k, j) &&
                    fs[k].host == if BringsHost(d, fs[j], cs[j]) then cs[j].p.infoHost else [])
  }

  // ---------- what an uncached packet is planned with ----------

  /** No verdict is cached for the packet. */
  predicate Uncached(d: Door, f: FlowState, c: Call) { Clears(d, c) || !(f.matched && f.gen == c.gen) }

  function Number(d: Door): int { if d.OnUdp? then 17 else 6 }

  /** How far the packet's sequence number is ahead of the connection's first one, around
      the end of the number space; 0 without a base. */
  function Ahead(g: FlowState, p: Packet): int {
    if g.num.haveISN then (p.seqNo - g.num.isn) % 0x1_0000_0000 else 0
  }

  /** A bound counts packets, packets with data, or stream bytes. */
  predicate AtLeast(b: Bound, g: FlowState, p: Packet) {
    match b.kind
    case Unbounded => true
    case PacketCount => g.pkts >= b.n
    case DataCount => g.dataPkts >= b.n
    case RelSeq => Ahead(g, p) >= b.n
  }

  predicate AtMost(b: Bound, g: FlowState, p: Packet) {
    match b.kind
    case Unbounded => true
    case PacketCount => g.pkts <= b.n
    case DataCount => g.dataPkts <= b.n
    case RelSeq => Ahead(g, p) <= b.n
  }

  /** The packet lies in the profile's window, both ends included; a relayed stream has none. */
  predicate Inside(d: Door, prof: Profile, g: FlowState, p: Packet) {
    d.OnStream? || (AtLeast(prof.start, g, p) && AtMost(prof.cutoff, g, p))
  }

  /** What selection looks at: the class and host known by now, and the packet's own port,
      address family and destination. */
  function Asked(d: Door, c: Call, g: FlowState): Input { Input(Number(d), c.p.port, c.p.l3, g.l7, g.host, c.p.dst) }

  /** The first profile that fits is the plan's, if the packet lies in its window. */
  predicate PlannedByMatch(d: Door, c: Call, g: FlowState, plan: Option<nat>) {
    match plan
    case Some(i) => i < |c.s| && ServesFirst(c.s, i, Asked(d, c, g), c.auto) && Inside(d, c.s[i], g, c.p)
    case None => forall i :: 0 <= i < |c.s| && ServesFirst(c.s, i, Asked(d, c, g), c.auto) ==> !Inside(d, c.s[i], g, c.p)
  }

  lemma WindowIs(d: Door, prof: Profile, f: FlowState, g: FlowState, p: Packet)
    requires SameKnowledge(f, g)
    ensures Inside(d, prof, g, p) <==> d.OnStream? || (!BeforeStart(prof, f, p) && !PastCutoff(prof, f, p))
  {
  }

  lemma FirstIs(s: Strategy, q: Input, auto: AutoLists)
    ensures match FirstOf(s, q, auto)
      case Some(i) => i < |s| && ServesFirst(s, i, q, auto)
      case None => ServesNobody(s, q, auto)
  {
    forall j | 0 <= j < |s| ensures MatchProfile(s[j], q, auto) <==> ServesAt(s, j, q, auto) {
      MatchIsServe(s, j, q, auto);
    }
  }

  lemma ServedByMatch(d: Door, g: FlowState, c: Call, k: FlowState, plan: Option<nat>)
    requires SameKnowledge(g, k)
    requires var prof := FirstOf(c.s, Input(Number(d), c.p.port, c.p.l3, g.l7, g.host, c.p.dst), c.auto);
      plan == if prof.Some? && (d.OnStream? || (!BeforeStart(c.s[prof.value], g, c.p) && !PastCutoff(c.s[prof.value], g, c.p)))
              then prof else None
    ensures PlannedByMatch(d, c, k, plan)
  {
    FirstIs(c.s, Asked(d, c, g), c.auto);
    assert Asked(d, c, k) == Asked(d, c, g);
    forall i | 0 <= i < |c.s|
      ensures Inside(d, c.s[i], k, c.p) <==> d.OnStream? || (!BeforeStart(c.s[i], g, c.p) && !PastCutoff(c.s[i], g, c.p))
    {
      WindowIs(d, c.s[i], g, k, c.p);
    }
  }

  lemma SameWindow(prof: Profile, f: FlowState, g: FlowState, p: Packet)
    requires SameKnowledge(f, g)
    ensures (BeforeStart(prof, f, p) <==> BeforeStart(prof, g, p)) && (PastCutoff(prof, f, p) <==> PastCutoff(prof, g, p))
  {
  }

  lemma TcpPlans(f: FlowState, c: Call)
    requires Uncached(OnTcp, f, c) && Reaches(OnTcp, f, c)
    ensures PlannedByMatch(OnTcp, c, TcpStep(f, c).0, TcpStep(f, c).1.plan)
  {
    var g := Learn(Arrived(f, c), c.p);
    var q := Query(g, TCP, c.p);
    var (h, prof) := Select(g, c.s, q, c.auto);
    SelectKnows(g, c.s, q, c.auto);
    var fed := if Retransmitted(f, c) then Feed(Arrived(f, c).monitorAuto, Arrived(f, c).host) else [];
    ConcludeKnows(h, prof, c, Retransmitted(f, c), fed);
    if prof.Some? { SameWindow(c.s[prof.value], g, h, c.p); }
    ServedByMatch(OnTcp, g, c, TcpStep(f, c).0, TcpStep(f, c).1.plan);
  }

  lemma UdpPlans(f: FlowState, c: Call)
    requires Uncached(OnUdp, f, c) && Reaches(OnUdp, f, c)
    ensures PlannedByMatch(OnUdp, c, UdpStep(f, c).0, UdpStep(f, c).1.plan)
  {
    var g := Learn(Counted(f, c), c.p);
    var q := Query(g, UDP, c.p);
    var (h, prof) := Select(g, c.s, q, c.auto);
    SelectKnows(g, c.s, q, c.auto);
    ConcludeKnows(h, prof, c, false, []);
    if prof.Some? { SameWindow(c.s[prof.value], g, h, c.p); }
    ServedByMatch(OnUdp, g, c, UdpStep(f, c).0, UdpStep(f, c).1.plan);
  }

  lemma StreamPlans(f: FlowState, c: Call)
    requires Uncached(OnStream, f, c)
    ensures PlannedByMatch(OnStream, c, StreamStep(f, c).0, StreamStep(f, c).1.plan)
  {
    var g := CountedStream(f, c);
    SelectKnows(g, c.s, Query(g, TCP, c.p), c.auto);
    ServedByMatch(OnStream, g, c, StreamStep(f, c).0, StreamStep(f, c).1.plan);
  }

  lemma StepPlansByMatch(d: Door, f: FlowState, c: Call)
    requires Uncached(d, f, c) && Reaches(d, f, c)
    ensures PlannedByMatch(d, c, Through(d, f, c).0, Through(d, f, c).1.plan)
  {
    match d {
      case OnTcp => TcpPlans(f, c);
      case OnUdp => UdpPlans(f, c);
      case OnStream => StreamPlans(f, c);
    }
  }

  /** Main result: over any run, reloads and new connections included, the entry knows the
      last class and host the packets brought, and an uncached packet that reaches
      selection is planned by the first profile that matches exactly those. */
  lemma PlannedByWhatIsKnown(d: Door, fs: seq<FlowState>, cs: seq<Call>, k: nat)
    requires Run(d, fs, cs) && k <= |cs|
    ensures KnowsLast(d, fs, cs, k)
    ensures k > 0 && Uncached(d, fs[k - 1], cs[k - 1]) && Reaches(d, fs[k - 1], cs[k - 1]) ==>
              PlannedByMatch(d, cs[k - 1], fs[k], Through(d, fs[k - 1], cs[k - 1]).1.plan)
  {
    forall i | 0 <= i < |cs| ensures LearnedAt(d, fs, cs, i) {
      assert Passes(d, fs[i], cs[i], fs[i + 1]);
      StepLearns(d, fs[i], cs[i]);
    }
    ClassIsLast(d, fs, cs, k);
    HostIsLast(d, fs, cs, k);
    if k > 0 && Uncached(d, fs[k - 1], cs[k - 1]) && Reaches(d, fs[k - 1], cs[k - 1]) {
      assert Passes(d, fs[k - 1], cs[k - 1], fs[k]);
      StepPlansByMatch(d, fs[k - 1], cs[k - 1]);
    }
  }

  // ---------- counters since the last SYN ----------

  predicate CountedStep(f: FlowState, c: Call, g: FlowState) {
    var n := f.num;
    && g.pkts == (if c.p.syn then 1 else f.pkts + 1)
    && g.dataPkts == (if c.p.syn then 0 else f.dataPkts) + (if |c.p.payload| > 0 then 1 else 0)
    && g.num.isn == (if c.p.syn then c.p.seqNo else n.isn) && (g.num.haveISN <==> c.p.syn || n.haveISN)
    && g.num.lastSeq == (if |c.p.payload| > 0 then c.p.seqNo else if c.p.syn then 0 else n.lastSeq)
    && g.num.retrans == (if c.p.syn then 0 else n.retrans) + (if Resent(f, c) then 1 else 0)
    && g.num.lastAck == c.p.ack && g.num.lastWindow == c.p.window
  }

  /** The packet repeats the sequence number of the last one that carried data. */
  predicate Resent(f: FlowState, c: Call) {
    |c.p.payload| > 0 && !c.p.syn && f.num.lastSeq != 0 && c.p.seqNo == f.num.lastSeq
  }

  lemma TcpCounts(f: FlowState, c: Call)
    ensures CountedStep(f, c, TcpStep(f, c).0) && (Retransmitted(f, c) <==> Resent(f, c))
  {
    var g := Learn(Arrived(f, c), c.p);
    var (h, prof) := Select(g, c.s, Query(g, TCP, c.p), c.auto);
    SelectKnows(g, c.s, Query(g, TCP, c.p), c.auto);
    var fed := if Retransmitted(f, c) then Feed(Arrived(f, c).monitorAuto, Arrived(f, c).host) else [];
    ConcludeKnows(h, prof, c, Retransmitted(f, c), fed);
  }

  function DataAmong(cs: seq<Call>, j: nat, k: nat): nat
    requires j <= k <= |cs|
  {
    if j == k then 0 else DataAmong(cs, j, k - 1) + if |cs[k - 1].p.payload| > 0 then 1 else 0
  }

  predicate SinceSyn(fs: seq<FlowState>, cs: seq<Call>, j: nat, k: nat)
    requires j < k <= |cs| < |fs|
  {
    && fs[k].pkts == k - j && fs[k].dataPkts == DataAmong(cs, j, k)
    && fs[k].num.haveISN && fs[k].num.isn == cs[j].p.seqNo
    && ((forall i :: j <= i < k ==> |cs[i].p.payload| == 0) ==> fs[k].num.lastSeq == 0)
    && forall m :: j <= m < k && |cs[m].p.payload| > 0 && (forall i :: m < i < k ==> |cs[i].p.payload| == 0) ==>
         fs[k].num.lastSeq == cs[m].p.seqNo
  }

  lemma {:induction false} CountsSinceSyn(fs: seq<FlowState>, cs: seq<Call>, j: nat, k: nat)
    requires |fs| == |cs| + 1 && forall i :: 0 <= i < |cs| ==> CountedStep(fs[i], cs[i], fs[i + 1])
    requires j < k <= |cs| && cs[j].p.syn && forall i :: j < i < k ==> !cs[i].p.syn
    ensures SinceSyn(fs, cs, j, k)
    decreases k
  {
    assert CountedStep(fs[k - 1], cs[k - 1], fs[k]);
    if k - 1 > j { CountsSinceSyn(fs, cs, j, k - 1); }
  }

  /** The counters of a connection that packet j opened, k packets into the run: its
      packets, those with data, its first sequence number, and the number of the last
      packet that carried data, 0 while there is none. */
  lemma CountersSinceSyn(fs: seq<FlowState>, cs: seq<Call>, j: nat, k: nat)
    requires Run(OnTcp, fs, cs) && j < k <= |cs| && cs[j].p.syn && forall i :: j < i < k ==> !cs[i].p.syn
    ensures SinceSyn(fs, cs, j, k)
  {
    forall i | 0 <= i < |cs| ensures CountedStep(fs[i], cs[i], fs[i + 1]) {
      assert Passes(OnTcp, fs[i], cs[i], fs[i + 1]);
      TcpCounts(fs[i], cs[i]);
    }
    CountsSinceSyn(fs, cs, j, k);
  }

  // ---------- what is remembered, what is reported ----------

  /** What a verdict leaves on the entry. A relayed stream always ends with one. */
  predicate Remembers(d: Door, watched: Option<string>, v: Verdict, g: FlowState) {
    match v
    case Cached(i) => g.matched && g.profileIdx == i && g.monitorAuto == watched
    case Provisional(_) => !g.matched && g.monitorAuto == watched
    case Watch(path) => (g.matched <==> d.OnStream?) && (g.matched ==> g.profileIdx == -1) && g.monitorAuto == Some(path)
    case NoneForGood => g.matched && g.profileIdx == -1 && g.monitorAuto == None
    case NoneYet => (g.matched <==> d.OnStream?) && (g.matched ==> g.profileIdx == -1) && g.monitorAuto == None
  }

  /** The entry remembers the one verdict the profiles justify. */
  ghost predicate RemembersJustified(d: Door, f: FlowState, c: Call, g: FlowState) {
    exists v :: Justified(c.s, Asked(d, c, g), c.auto, v) && Remembers(d, if Clears(d, c) then None else f.monitorAuto, v, g)
  }

  lemma SelectRemembers(f: FlowState, s: Strategy, q: Input, auto: AutoLists)
    requires !f.matched
    ensures Justified(s, q, auto, Decide(s, q, auto))
    ensures Remembers(OnTcp, f.monitorAuto, Decide(s, q, auto), Select(f, s, q, auto).0)
  {
    DecideJustified(s, q, auto);
  }

  lemma ConcludeRemembers(f: FlowState, prof: Option<nat>, c: Call, retrans: bool, fed: seq<(string, Host)>)
    requires prof.Some? ==> prof.value < |c.s|
    ensures var g := Conclude(f, prof, c, retrans, fed).0;
      g.matched == f.matched && g.profileIdx == f.profileIdx && g.monitorAuto == f.monitorAuto
  {
  }

  lemma TcpRemembers(f: FlowState, c: Call)
    requires Uncached(OnTcp, f, c) && Reaches(OnTcp, f, c)
    ensures RemembersJustified(OnTcp, f, c, TcpStep(f, c).0)
  {
    var g := Learn(Arrived(f, c), c.p);
    var q := Query(g, TCP, c.p);
    var (h, prof) := Select(g, c.s, q, c.auto);
    SelectKnows(g, c.s, q, c.auto);
    SelectRemembers(g, c.s, q, c.auto);
    var fed := if Retransmitted(f, c) then Feed(Arrived(f, c).monitorAuto, Arrived(f, c).host) else [];
    ConcludeKnows(h, prof, c, Retransmitted(f, c), fed);
    ConcludeRemembers(h, prof, c, Retransmitted(f, c), fed);
    assert Asked(OnTcp, c, TcpStep(f, c).0) == q;
  }

  lemma UdpRemembers(f: FlowState, c: Call)
    requires Uncached(OnUdp, f, c) && Reaches(OnUdp, f, c)
    ensures RemembersJustified(OnUdp, f, c, UdpStep(f, c).0)
  {
    var g := Learn(Counted(f, c), c.p);
    var q := Query(g, UDP, c.p);
    var (h, prof) := Select(g, c.s, q, c.auto);
    SelectKnows(g, c.s, q, c.auto);
    SelectRemembers(g, c.s, q, c.auto);
    ConcludeKnows(h, prof, c, false, []);
    ConcludeRemembers(h, prof, c, false, []);
    assert Asked(OnUdp, c, UdpStep(f, c).0) == q;
  }

  lemma StreamRemembers(f: FlowState, c: Call)
    requires Uncached(OnStream, f, c)
    ensures RemembersJustified(OnStream, f, c, StreamStep(f, c).0)
  {
    var g := CountedStream(f, c);
    var q := Query(g, TCP, c.p);
    SelectKnows(g, c.s, q, c.auto);
    SelectRemembers(g, c.s, q, c.auto);
    assert Asked(OnStream, c, StreamStep(f, c).0) == q;
  }

  /** An uncached packet that reaches selection leaves exactly the verdict its profiles
      justify: final ones are cached, the others leave the entry open. */
  lemma VerdictRemembered(d: Door, f: FlowState, c: Call)
    requires Uncached(d, f, c) && Reaches(d, f, c)
    ensures RemembersJustified(d, f, c, Through(d, f, c).0)
  {
    match d {
      case OnTcp => TcpRemembers(f, c);
      case OnUdp => UdpRemembers(f, c);
      case OnStream => StreamRemembers(f, c);
    }
  }

  function Report(path: Option<string>, host: Host): seq<(string, Host)> {
    if path.Some? && |host| > 0 then [(path.value, host)] else []
  }

  /** The profile the packet is served by: the cached one, or the first that fits. */
  predicate ServedBy(f: FlowState, c: Call, g: FlowState, i: nat)
    requires i < |c.s|
  {
    !(f.fastPath && f.gen == c.gen) &&
    if f.matched && f.gen == c.gen then f.profileIdx == i else ServesFirst(c.s, i, Asked(OnTcp, c, g), c.auto)
  }

  /** Only a retransmission is reported: to the list being watched, under the name known
      before the packet, and to the serving profile's own list, under the name known by now. */
  predicate Reports(f: FlowState, c: Call, g: FlowState, fed: seq<(string, Host)>) {
    if !Resent(f, c) then fed == []
    else
      && (forall i :: 0 <= i < |c.s| && ServedBy(f, c, g, i) ==>
            fed == Report(f.monitorAuto, f.host) + Report(c.s[i].filter.autoHostlist, g.host))
      && ((forall i :: 0 <= i < |c.s| ==> !ServedBy(f, c, g, i)) ==> fed == Report(f.monitorAuto, f.host))
  }

  lemma ConcludeReports(f: FlowState, prof: Option<nat>, c: Call, retrans: bool, fed: seq<(string, Host)>)
    requires prof.Some? ==> prof.value < |c.s|
    ensures Conclude(f, prof, c, retrans, fed).1.fed ==
            fed + if prof.Some? && retrans then Report(c.s[prof.value].filter.autoHostlist, f.host) else []
  {
  }

  /** The profile selection comes up with, seen from outside. */
  lemma ChosenIsServedBy(f: FlowState, c: Call, k: FlowState)
    requires !c.p.syn && !(f.fastPath && f.gen == c.gen)
    requires var g := Learn(Arrived(f, c), c.p); k.l7 == g.l7 && k.host == g.host
    ensures var g := Learn(Arrived(f, c), c.p);
      var prof := Select(g, c.s, Query(g, TCP, c.p), c.auto).1;
      && (prof.Some? ==> ServedBy(f, c, k, prof.value))
      && forall i :: 0 <= i < |c.s| && ServedBy(f, c, k, i) ==> prof == Some(i)
  {
    var g := Learn(Arrived(f, c), c.p);
    var q := Query(g, TCP, c.p);
    assert Asked(OnTcp, c, k) == q;
    SelectKnows(g, c.s, q, c.auto);
    FirstIs(c.s, q, c.auto);
  }

  lemma ServedReports(f: FlowState, c: Call)
    requires Resent(f, c) && !(f.fastPath && f.gen == c.gen)
    ensures Reports(f, c, TcpStep(f, c).0, TcpStep(f, c).1.fed)
  {
    var g := Learn(Arrived(f, c), c.p);
    var (h, prof) := Select(g, c.s, Query(g, TCP, c.p), c.auto);
    var fed := Feed(Arrived(f, c).monitorAuto, Arrived(f, c).host);
    SelectKnows(g, c.s, Query(g, TCP, c.p), c.auto);
    ConcludeKnows(h, prof, c, true, fed);
    ConcludeReports(h, prof, c, true, fed);
    assert TcpStep(f, c) == Conclude(h, prof, c, true, fed);
    ChosenIsServedBy(f, c, TcpStep(f, c).0);
    assert fed == Report(f.monitorAuto, f.host);
    assert fed + [] == fed;
  }

  lemma HiddenReports(f: FlowState, c: Call)
    requires Resent(f, c) && f.fastPath && f.gen == c.gen
    ensures Reports(f, c, TcpStep(f, c).0, TcpStep(f, c).1.fed)
  {
  }

  lemma NothingReported(f: FlowState, c: Call)
    requires !Resent(f, c)
    ensures TcpStep(f, c).1.fed == []
  {
    var g := Learn(Arrived(f, c), c.p);
    var (h, prof) := Select(g, c.s, Query(g, TCP, c.p), c.auto);
    ConcludeReports(h, prof, c, false, []);
  }

  lemma ReportsExactly(d: Door, f: FlowState, c: Call)
    ensures if d.OnTcp? then Reports(f, c, Through(d, f, c).0, Through(d, f, c).1.fed) else Through(d, f, c).1.fed == []
  {
    if d.OnTcp? {
      if !Resent(f, c) { NothingReported(f, c); }
      else if f.fastPath && f.gen == c.gen { HiddenReports(f, c); }
      else { ServedReports(f, c); }
    }
  }

  // ---------- the distance ----------

  /** The entry after server packets with the given TTLs. */
  function Heard(f: FlowState, ttls: seq<byte>): FlowState {
    if |ttls| == 0 then f else Inbound(Heard(f, ttls[..|ttls| - 1]), ttls[|ttls| - 1] as int)
  }

  predicate TellsNothing(ttl: byte) { ttl == 0 || InitialTTL(ttl as int) }

  /** The distance is told by the first server packet that shows one, and kept. */
  lemma {:induction false} FirstDistanceStays(f: FlowState, ttls: seq<byte>)
    requires f.peer.hops == 0
    ensures var g := Heard(f, ttls);
      && g == f.(peer := f.peer.(hops := g.peer.hops))
      && ((forall i :: 0 <= i < |ttls| ==> TellsNothing(ttls[i])) ==> g.peer.hops == 0)
      && forall i :: 0 <= i < |ttls| && !TellsNothing(ttls[i]) && (forall j :: 0 <= j < i ==> TellsNothing(ttls[j])) ==>
           g.peer.hops == HopsFromTTL(ttls[i] as int)
    decreases |ttls|
  {
    if |ttls| > 0 {
      var front, last := ttls[..|ttls| - 1], ttls[|ttls| - 1];
      FirstDistanceStays(f, front);
      assert forall i :: 0 <= i < |front| ==> front[i] == ttls[i];
      assert HopsFromTTL(last as int) == 0 <==> TellsNothing(last);
    }
  }
}
