/** The fast path: when skipping a flow's later packets changes what gets a plan. */
module FastPath {
  import opened Types
  import opened Hosts
  import opened Matching
  import opened Flow

  // ---------- the two datapath handlers as one ----------

  datatype Path = OverTcp | OverUdp

  function Number(path: Path): int { if path.OverTcp? then TCP else UDP }

  /** The entry once the packet is counted, before any decision. */
  function Entered(path: Path, f: FlowState, c: Call): FlowState {
    if path.OverTcp? then Arrived(f, c) else Counted(f, c)
  }

  function Serving(path: Path, g: FlowState, c: Call, retrans: bool): (FlowState, Outcome) {
    if path.OverTcp? then Serve(g, c, retrans)
    else if |c.p.payload| == 0 then (g, Outcome(None, []))
    else ServeDatagram(g, c)
  }

  function Handle(path: Path, f: FlowState, c: Call): (FlowState, Outcome) {
    if path.OverTcp? then TcpStep(f, c) else UdpStep(f, c)
  }

  lemma HandleServes(path: Path, f: FlowState, c: Call)
    ensures Handle(path, f, c) == Serving(path, Entered(path, f, c), c, Retransmitted(f, c))
  {
  }

  /** A packet that does not open a connection. */
  predicate Within(path: Path, c: Call) { path.OverTcp? ==> !c.p.syn }

  // ---------- exactly which packets it hides ----------

  /** The profile that serves an accounted packet when the fast path is not looked at:
      the remembered one, or the first match. */
  function Served(path: Path, g: FlowState, c: Call): (r: Option<nat>)
    ensures r.Some? ==> r.value < |c.s|
  {
    if g.matched then (if 0 <= g.profileIdx < |c.s| then Some(g.profileIdx) else None)
    else
      var i := FirstMatch(c.s, 0, Query(Learn(g, c.p), Number(path), c.p), c.auto);
      if i < |c.s| then Some(i) else None
  }

  predicate InWindow(prof: Profile, g: FlowState, p: Packet) { !BeforeStart(prof, g, p) && !PastCutoff(prof, g, p) }

  /** The packet has a payload and its own counters lie in the window of the profile
      that serves it. */
  predicate Due(path: Path, g: FlowState, c: Call) {
    |c.p.payload| > 0 && Served(path, g, c).Some? && InWindow(c.s[Served(path, g, c).value], g, c.p)
  }

  /** The packet arms the fast path: it has a payload, and its verdict is a final "none"
      or a profile it is past the cutoff of, and not before the start of. */
  predicate Arms(path: Path, g: FlowState, c: Call) {
    && |c.p.payload| > 0
    && match Served(path, g, c)
       case None => g.matched || Decide(c.s, Query(Learn(g, c.p), Number(path), c.p), c.auto).NoneForGood?
       case Some(i) => !BeforeStart(c.s[i], g, c.p) && PastCutoff(c.s[i], g, c.p)
  }

  lemma ServesSelected(path: Path, f: FlowState, c: Call)
    ensures var g := Learn(f, c.p);
      var (h, prof) := Select(g, c.s, Query(g, Number(path), c.p), c.auto);
      && prof == Served(path, f, c) && h.fastPath == f.fastPath && h.gen == f.gen
      && h.pkts == f.pkts && h.dataPkts == f.dataPkts && h.num == f.num
      && (prof.None? ==>
            (h.matched <==> f.matched || Decide(c.s, Query(g, Number(path), c.p), c.auto).NoneForGood?))
  {
  }

  lemma SameCounters(prof: Profile, f: FlowState, g: FlowState, p: Packet)
    requires g.pkts == f.pkts && g.dataPkts == f.dataPkts && g.num == f.num
    ensures (BeforeStart(prof, g, p) <==> BeforeStart(prof, f, p)) && (PastCutoff(prof, g, p) <==> PastCutoff(prof, f, p))
  {
  }

  /** What serving a packet with a payload comes to, whatever the handler. */
  predicate ServedOpenly(path: Path, f: FlowState, c: Call, g: FlowState, plan: Option<nat>) {
    && g.gen == f.gen
    && plan == (if !f.fastPath && Due(path, f, c) then Served(path, f, c) else None)
    && (g.fastPath <==> f.fastPath || Arms(path, f, c))
  }

  lemma ConcludeOpen(path: Path, f: FlowState, c: Call, retrans: bool, fed: seq<(string, Host)>)
    requires |c.p.payload| > 0 && !f.fastPath
    ensures var g := Learn(f, c.p);
      var (h, prof) := Select(g, c.s, Query(g, Number(path), c.p), c.auto);
      var (k, out) := Conclude(h, prof, c, retrans, fed);
      ServedOpenly(path, f, c, k, out.plan)
  {
    ServesSelected(path, f, c);
    var g := Learn(f, c.p);
    var h := Select(g, c.s, Query(g, Number(path), c.p), c.auto).0;
    if Served(path, f, c).Some? { SameCounters(c.s[Served(path, f, c).value], f, h, c.p); }
  }

  /** One accounted packet that is not a SYN. */
  lemma ServeOpen(path: Path, f: FlowState, c: Call, retrans: bool)
    requires Within(path, c)
    ensures ServedOpenly(path, f, c, Serving(path, f, c, retrans).0, Serving(path, f, c, retrans).1.plan)
  {
    if |c.p.payload| > 0 && !f.fastPath {
      ConcludeOpen(path, f, c, retrans, if retrans then Feed(f.monitorAuto, f.host) else []);
      ConcludeOpen(path, f, c, false, []);
    }
  }

  /** The fast path hides the packet: without it the packet would get another plan. */
  predicate Hidden(path: Path, f: FlowState, c: Call) {
    Handle(path, f, c).1.plan != Handle(path, f.(fastPath := false), c).1.plan
  }

  lemma EnteredOpen(path: Path, f: FlowState, c: Call)
    ensures Entered(path, f.(fastPath := false), c) == Entered(path, f, c).(fastPath := false)
    ensures Entered(path, f, c).gen == c.gen
    ensures Entered(path, f, c).fastPath <==> f.fastPath && f.gen == c.gen && Within(path, c)
  {
  }

  lemma DueOpen(path: Path, g: FlowState, c: Call)
    ensures var h := g.(fastPath := false);
      Due(path, h, c) == Due(path, g, c) && Served(path, h, c) == Served(path, g, c) && Arms(path, h, c) == Arms(path, g, c)
  {
    var h := g.(fastPath := false);
    assert Query(Learn(h, c.p), Number(path), c.p) == Query(Learn(g, c.p), Number(path), c.p);
    if Served(path, g, c).Some? { SameCounters(c.s[Served(path, g, c).value], g, h, c.p); }
  }

  /** One packet, any verdict, any bounds: it is hidden exactly when the fast path is
      live and the packet is due. */
  lemma HiddenStep(path: Path, f: FlowState, c: Call)
    requires Within(path, c)
    ensures var g := Entered(path, f, c);
      && (Hidden(path, f, c) <==> g.fastPath && Due(path, g, c))
      && ServedOpenly(path, g, c, Handle(path, f, c).0, Handle(path, f, c).1.plan)
  {
    var g, open := Entered(path, f, c), f.(fastPath := false);
    EnteredOpen(path, f, c);
    HandleServes(path, f, c);
    HandleServes(path, open, c);
    ServeOpen(path, g, c, Retransmitted(f, c));
    ServeOpen(path, Entered(path, open, c), c, Retransmitted(open, c));
    DueOpen(path, g, c);
  }

  predicate Moves(path: Path, f: FlowState, c: Call, g: FlowState) { g == Handle(path, f, c).0 }

  /** The entry before each packet and after the last. */
  predicate Run(path: Path, fs: seq<FlowState>, cs: seq<Call>) {
    |fs| == |cs| + 1 && forall i :: 0 <= i < |cs| ==> Moves(path, fs[i], cs[i], fs[i + 1])
  }

  /** Packets of one connection under one generation. */
  predicate SameGeneration(path: Path, cs: seq<Call>, gen: nat) {
    forall i :: 0 <= i < |cs| ==> cs[i].gen == gen && Within(path, cs[i])
  }

  predicate ArmsAt(path: Path, fs: seq<FlowState>, cs: seq<Call>, j: int)
    requires 0 <= j < |cs| && j < |fs|
  {
    Arms(path, Entered(path, fs[j], cs[j]), cs[j])
  }

  /** Armed at the start, or by one of the first k packets. */
  predicate ArmedBy(path: Path, armed: bool, fs: seq<FlowState>, cs: seq<Call>, k: int)
    requires k <= |cs| < |fs|
  {
    armed || exists j :: 0 <= j < k && ArmsAt(path, fs, cs, j)
  }

  /** The flag is set and belongs to this generation. */
  predicate Live(f: FlowState, gen: nat) { f.fastPath && f.gen == gen }

  /** What one packet does to the flag. */
  predicate ArmStep(f: FlowState, armed: bool, g: FlowState, gen: nat) {
    g.gen == gen && (g.fastPath <==> Live(f, gen) || armed)
  }

  lemma {:induction false} ArmedExactly(path: Path, fs: seq<FlowState>, cs: seq<Call>, gen: nat, k: nat)
    requires k <= |cs| < |fs| && forall i :: 0 <= i < |cs| ==> ArmStep(fs[i], ArmsAt(path, fs, cs, i), fs[i + 1], gen)
    ensures Live(fs[k], gen) <==> ArmedBy(path, Live(fs[0], gen), fs, cs, k)
    decreases k
  {
    if k > 0 {
      ArmedExactly(path, fs, cs, gen, k - 1);
      assert ArmStep(fs[k - 1], ArmsAt(path, fs, cs, k - 1), fs[k], gen);
    }
  }

  lemma MovesArm(path: Path, f: FlowState, c: Call, g: FlowState, gen: nat)
    requires Moves(path, f, c, g) && Within(path, c) && c.gen == gen
    ensures ArmStep(f, Arms(path, Entered(path, f, c), c), g, gen)
  {
    HiddenStep(path, f, c);
    EnteredOpen(path, f, c);
  }

  /** Main result: over a whole run, with cached or provisional verdicts and any
      bounds, packet k is hidden exactly when the fast path was armed before (at the
      start, or by an earlier packet that met a final "none" or was past its cutoff)
      and packet k itself is due. */
  lemma HiddenExactly(path: Path, fs: seq<FlowState>, cs: seq<Call>, gen: nat, k: nat)
    requires Run(path, fs, cs) && SameGeneration(path, cs, gen) && k < |cs|
    ensures Hidden(path, fs[k], cs[k]) <==>
            ArmedBy(path, Live(fs[0], gen), fs, cs, k) && Due(path, Entered(path, fs[k], cs[k]), cs[k])
  {
    forall i | 0 <= i < |cs| ensures ArmStep(fs[i], ArmsAt(path, fs, cs, i), fs[i + 1], gen) {
      assert Moves(path, fs[i], cs[i], fs[i + 1]);
      MovesArm(path, fs[i], cs[i], fs[i + 1], gen);
    }
    ArmedExactly(path, fs, cs, gen, k);
    HiddenStep(path, fs[k], cs[k]);
    EnteredOpen(path, fs[k], cs[k]);
  }

  // ---------- against a handler that has no fast path ----------

  /** The entry of a handler that never sets the flag. */
  function OpenHandle(path: Path, f: FlowState, c: Call): FlowState {
    Handle(path, f.(fastPath := false), c).0.(fastPath := false)
  }

  predicate OpenMoves(path: Path, f: FlowState, c: Call, g: FlowState) { g == OpenHandle(path, f, c) }

  predicate OpenRun(path: Path, os: seq<FlowState>, cs: seq<Call>) {
    && |os| == |cs| + 1 && !os[0].fastPath
    && forall i :: 0 <= i < |cs| ==> OpenMoves(path, os[i], cs[i], os[i + 1])
  }

  /** The two entries after the same packets: either the fast path is armed, or they
      are the same. */
  predicate Together(armed: bool, f: FlowState, o: FlowState, gen: nat) {
    !o.fastPath && if armed then Live(f, gen) else o == f.(fastPath := false) && !Live(f, gen)
  }

  lemma TogetherStep(path: Path, armed: bool, f: FlowState, o: FlowState, c: Call, f2: FlowState, o2: FlowState, gen: nat)
    requires Together(armed, f, o, gen) && c.gen == gen && Within(path, c)
    requires Moves(path, f, c, f2) && OpenMoves(path, o, c, o2)
    ensures Together(armed || Arms(path, Entered(path, o, c), c), f2, o2, gen)
    ensures Handle(path, f, c).1.plan == if armed then None else Handle(path, o, c).1.plan
  {
    HiddenStep(path, f, c);
    EnteredOpen(path, f, c);
    if !armed {
      DueOpen(path, Entered(path, f, c), c);
      SameEntry(path, f, o, c);
    }
  }

  /** A flag left over from another generation changes nothing. */
  lemma SameEntry(path: Path, f: FlowState, o: FlowState, c: Call)
    requires o == f.(fastPath := false) && !Live(f, c.gen) && Within(path, c)
    ensures Entered(path, o, c) == Entered(path, f, c) && Handle(path, o, c) == Handle(path, f, c)
  {
    EnteredOpen(path, f, c);
    assert Entered(path, f, c).(fastPath := false) == Entered(path, f, c);
    HandleServes(path, f, c);
    HandleServes(path, o, c);
    assert Retransmitted(o, c) == Retransmitted(f, c);
  }

  /** What one packet keeps between the two entries, armed before or not. */
  predicate KeepsTogether(f: FlowState, o: FlowState, arms: bool, f2: FlowState, o2: FlowState, gen: nat) {
    && (Together(true, f, o, gen) ==> Together(true, f2, o2, gen))
    && (Together(false, f, o, gen) ==> Together(arms, f2, o2, gen))
  }

  lemma MovesKeepTogether(path: Path, f: FlowState, o: FlowState, c: Call, f2: FlowState, o2: FlowState, gen: nat)
    requires c.gen == gen && Within(path, c) && Moves(path, f, c, f2) && OpenMoves(path, o, c, o2)
    ensures KeepsTogether(f, o, Arms(path, Entered(path, o, c), c), f2, o2, gen)
  {
    if Together(true, f, o, gen) { TogetherStep(path, true, f, o, c, f2, o2, gen); }
    if Together(false, f, o, gen) { TogetherStep(path, false, f, o, c, f2, o2, gen); }
  }

  lemma {:induction false} StayTogether(path: Path, fs: seq<FlowState>, os: seq<FlowState>, cs: seq<Call>, gen: nat, k: nat)
    requires |fs| == |os| == |cs| + 1 && k <= |cs|
    requires forall i :: 0 <= i < |cs| ==> KeepsTogether(fs[i], os[i], ArmsAt(path, os, cs, i), fs[i + 1], os[i + 1], gen)
    requires Together(Live(fs[0], gen), fs[0], os[0], gen)
    ensures Together(ArmedBy(path, Live(fs[0], gen), os, cs, k), fs[k], os[k], gen)
    decreases k
  {
    if k > 0 {
      StayTogether(path, fs, os, cs, gen, k - 1);
      assert KeepsTogether(fs[k - 1], os[k - 1], ArmsAt(path, os, cs, k - 1), fs[k], os[k], gen);
    }
  }

  /** Main result: against a handler that has no fast path at all, on the same packets:
      up to the first packet that would arm it the plans are the same, and from then on
      there are none. So exactly the packets that handler plans after that are lost. */
  lemma AgainstOpenHandler(path: Path, fs: seq<FlowState>, os: seq<FlowState>, cs: seq<Call>, gen: nat, k: nat)
    requires Run(path, fs, cs) && OpenRun(path, os, cs) && SameGeneration(path, cs, gen) && k < |cs|
    requires os[0] == fs[0].(fastPath := false)
    ensures Handle(path, fs[k], cs[k]).1.plan ==
            if ArmedBy(path, Live(fs[0], gen), os, cs, k) then None else Handle(path, os[k], cs[k]).1.plan
  {
    forall i | 0 <= i < |cs| ensures KeepsTogether(fs[i], os[i], ArmsAt(path, os, cs, i), fs[i + 1], os[i + 1], gen) {
      assert Moves(path, fs[i], cs[i], fs[i + 1]) && OpenMoves(path, os[i], cs[i], os[i + 1]);
      MovesKeepTogether(path, fs[i], os[i], cs[i], fs[i + 1], os[i + 1], gen);
    }
    StayTogether(path, fs, os, cs, gen, k);
    assert Moves(path, fs[k], cs[k], fs[k + 1]) && OpenMoves(path, os[k], cs[k], os[k + 1]);
    TogetherStep(path, ArmedBy(path, Live(fs[0], gen), os, cs, k), fs[k], os[k], cs[k], fs[k + 1], os[k + 1], gen);
  }

  // ---------- when it hides nothing ----------

  predicate CountedKind(k: CounterKind) { k == Unbounded || k == PacketCount || k == DataCount }

  /** The remembered profile, None for "none". */
  function Remembered(f: FlowState, s: Strategy): Option<Profile> {
    if 0 <= f.profileIdx < |s| then Some(s[f.profileIdx]) else None
  }

  /** Packet and data counters never fall, so a cutoff once passed stays passed. */
  predicate Beyond(prof: Profile, f: FlowState) {
    (prof.cutoff.kind == PacketCount && f.pkts > prof.cutoff.n) || (prof.cutoff.kind == DataCount && f.dataPkts > prof.cutoff.n)
  }

  /** A cached verdict whose cutoff counts packets, and a fast path armed for a reason
      that lasts. */
  predicate Settled(f: FlowState, s: Strategy, gen: nat) {
    && f.matched && f.gen == gen
    && match Remembered(f, s)
       case None => true
       case Some(prof) =>
         && CountedKind(prof.cutoff.kind)
         && (f.fastPath ==> Beyond(prof, f))
  }

  /** A packet of the connection under the snapshot the verdict belongs to. */
  predicate SameStrategy(path: Path, c: Call, s: Strategy, gen: nat) { c.s == s && c.gen == gen && Within(path, c) }

  lemma ServeSettled(path: Path, f: FlowState, s: Strategy, gen: nat, c: Call, retrans: bool)
    requires Settled(f, s, gen) && SameStrategy(path, c, s, gen)
    ensures var (g, out) := Serving(path, f, c, retrans);
      && Settled(g, s, gen) && g.profileIdx == f.profileIdx && g.pkts == f.pkts && g.dataPkts == f.dataPkts
      && (out.plan.Some? <==>
            |c.p.payload| > 0 && Remembered(f, s).Some? && InWindow(Remembered(f, s).value, f, c.p))
      && (out.plan.Some? ==> out.plan.value == f.profileIdx)
  {
    var g := Learn(f, c.p);
    assert Select(g, s, Query(g, Number(path), c.p), c.auto).0 == g;
    if Remembered(f, s).Some? { SameCounters(Remembered(f, s).value, f, g, c.p); }
  }

  lemma EnteredSettled(path: Path, f: FlowState, s: Strategy, gen: nat, c: Call)
    requires Settled(f, s, gen) && SameStrategy(path, c, s, gen)
    ensures var g := Entered(path, f, c);
      && Settled(g, s, gen) && g.profileIdx == f.profileIdx && g.pkts == f.pkts + 1
      && g.dataPkts == f.dataPkts + if |c.p.payload| > 0 then 1 else 0
  {
  }

  /** g is f some packets later, still settled. */
  predicate Later(f: FlowState, g: FlowState, s: Strategy, gen: nat, packets: int, data: int) {
    Settled(g, s, gen) && g.profileIdx == f.profileIdx && g.pkts == f.pkts + packets && g.dataPkts == f.dataPkts + data
  }

  lemma EvenLater(f: FlowState, g: FlowState, h: FlowState, s: Strategy, gen: nat, p: int, d: int, p2: int, d2: int)
    requires Later(f, g, s, gen, p, d) && Later(g, h, s, gen, p2, d2)
    ensures Later(f, h, s, gen, p + p2, d + d2)
  {
  }

  /** A packet of a settled flow gets the remembered plan exactly when it has a payload
      and its counters lie in the window, with or without the fast path. */
  predicate PlannedByWindow(path: Path, f: FlowState, s: Strategy, c: Call, pkts: int, dataPkts: int) {
    var g, plan := Entered(path, f, c), Handle(path, f, c).1.plan;
    && g.pkts == pkts && g.dataPkts == dataPkts && !Hidden(path, f, c)
    && (plan.Some? <==> |c.p.payload| > 0 && Remembered(f, s).Some? && InWindow(Remembered(f, s).value, g, c.p))
    && (plan.Some? ==> plan.value == f.profileIdx)
  }

  function DataStep(c: Call): int { if |c.p.payload| > 0 then 1 else 0 }

  /** One packet of a settled flow. */
  lemma SettledStep(path: Path, f: FlowState, s: Strategy, gen: nat, c: Call)
    requires Settled(f, s, gen) && SameStrategy(path, c, s, gen)
    ensures Later(f, Handle(path, f, c).0, s, gen, 1, DataStep(c))
    ensures PlannedByWindow(path, f, s, c, f.pkts + 1, f.dataPkts + DataStep(c))
  {
    var open := f.(fastPath := false);
    EnteredSettled(path, f, s, gen, c);
    EnteredSettled(path, open, s, gen, c);
    HandleServes(path, f, c);
    HandleServes(path, open, c);
    ServeSettled(path, Entered(path, f, c), s, gen, c, Retransmitted(f, c));
    ServeSettled(path, Entered(path, open, c), s, gen, c, Retransmitted(open, c));
    EnteredOpen(path, f, c);
    if Remembered(f, s).Some? {
      SameCounters(Remembered(f, s).value, Entered(path, f, c), Entered(path, open, c), c.p);
    }
  }

  /** Packets with a payload among the first k. */
  function DataCountOf(cs: seq<Call>, k: nat): int
    requires k <= |cs|
  {
    if k == 0 then 0 else DataCountOf(cs, k - 1) + DataStep(cs[k - 1])
  }

  /** What a settled flow keeps in one packet. */
  predicate KeepsSettled(f: FlowState, c: Call, g: FlowState, s: Strategy, gen: nat) {
    Settled(f, s, gen) ==> Later(f, g, s, gen, 1, DataStep(c))
  }

  lemma MovesKeepSettled(path: Path, f: FlowState, c: Call, g: FlowState, s: Strategy, gen: nat)
    requires Moves(path, f, c, g) && SameStrategy(path, c, s, gen)
    ensures KeepsSettled(f, c, g, s, gen)
  {
    if Settled(f, s, gen) { SettledStep(path, f, s, gen, c); }
  }

  lemma {:induction false} SettledAfter(fs: seq<FlowState>, s: Strategy, gen: nat, cs: seq<Call>, k: nat)
    requires |fs| == |cs| + 1 && forall i :: 0 <= i < |cs| ==> KeepsSettled(fs[i], cs[i], fs[i + 1], s, gen)
    requires Settled(fs[0], s, gen) && k <= |cs|
    ensures Later(fs[0], fs[k], s, gen, k, DataCountOf(cs, k))
    decreases k
  {
    if k > 0 {
      SettledAfter(fs, s, gen, cs, k - 1);
      assert KeepsSettled(fs[k - 1], cs[k - 1], fs[k], s, gen);
      EvenLater(fs[0], fs[k - 1], fs[k], s, gen, k - 1, DataCountOf(cs, k - 1), 1, DataStep(cs[k - 1]));
    }
  }

  lemma LaterStep(path: Path, f: FlowState, g: FlowState, s: Strategy, gen: nat, c: Call, k: int, d: int, d2: int)
    requires Later(f, g, s, gen, k, d) && SameStrategy(path, c, s, gen) && d2 == d + DataStep(c)
    ensures PlannedByWindow(path, g, s, c, f.pkts + k + 1, f.dataPkts + d2) && Remembered(g, s) == Remembered(f, s)
  {
    SettledStep(path, g, s, gen, c);
  }

  /** Main result: for a cached verdict with a packet-counted cutoff the fast path is a
      pure optimisation, for the rest of the connection: packet k gets a plan exactly
      when it carries payload and its own counters lie in [start, cutoff], which is
      also what the handler without the fast path would do. */
  lemma FastPathIsPure(path: Path, fs: seq<FlowState>, s: Strategy, gen: nat, cs: seq<Call>, k: nat)
    requires Run(path, fs, cs) && Settled(fs[0], s, gen)
    requires k < |cs| && forall i :: 0 <= i < |cs| ==> SameStrategy(path, cs[i], s, gen)
    ensures PlannedByWindow(path, fs[k], s, cs[k], fs[0].pkts + k + 1, fs[0].dataPkts + DataCountOf(cs, k + 1))
    ensures Remembered(fs[k], s) == Remembered(fs[0], s)
  {
    forall i | 0 <= i < |cs| ensures KeepsSettled(fs[i], cs[i], fs[i + 1], s, gen) {
      assert Moves(path, fs[i], cs[i], fs[i + 1]);
      MovesKeepSettled(path, fs[i], cs[i], fs[i + 1], s, gen);
    }
    SettledAfter(fs, s, gen, cs, k);
    LaterStep(path, fs[0], fs[k], s, gen, cs[k], k, DataCountOf(cs, k), DataCountOf(cs, k + 1));
  }

  lemma SelectSettles(f: FlowState, s: Strategy, q: Input, auto: AutoLists)
    requires !f.matched && Select(f, s, q, auto).0.matched
    ensures var (g, prof) := Select(f, s, q, auto);
      g.gen == f.gen && g.fastPath == f.fastPath && (prof.Some? <==> Remembered(g, s).Some?)
      && (prof.Some? ==> g.profileIdx == prof.value)
  {
  }

  lemma ConcludeSettles(f: FlowState, prof: Option<nat>, c: Call, retrans: bool, fed: seq<(string, Host)>)
    requires f.matched && !f.fastPath && f.gen == c.gen && (prof.Some? ==> prof.value < |c.s| && f.profileIdx == prof.value)
    requires prof.None? ==> Remembered(f, c.s).None?
    requires forall i :: 0 <= i < |c.s| ==> CountedKind(c.s[i].cutoff.kind)
    ensures Settled(Conclude(f, prof, c, retrans, fed).0, c.s, c.gen)
  {
  }

  lemma ServingSettles(path: Path, f: FlowState, c: Call, retrans: bool)
    requires !f.matched && !f.fastPath && f.gen == c.gen && Serving(path, f, c, retrans).0.matched
    requires forall i :: 0 <= i < |c.s| ==> CountedKind(c.s[i].cutoff.kind)
    ensures Settled(Serving(path, f, c, retrans).0, c.s, c.gen)
  {
    var g := Learn(f, c.p);
    var (h, prof) := Select(g, c.s, Query(g, Number(path), c.p), c.auto);
    if h.matched {
      SelectSettles(g, c.s, Query(g, Number(path), c.p), c.auto);
      ConcludeSettles(h, prof, c, retrans, if retrans then Feed(f.monitorAuto, f.host) else []);
      ConcludeSettles(h, prof, c, false, []);
    }
  }

  /** Caching a verdict settles the flow, when the cutoffs count packets: on a fresh
      entry, on the first packet after a reload and on a SYN as well. */
  lemma CachingSettles(path: Path, f: FlowState, c: Call)
    requires !Entered(path, f, c).matched && !Entered(path, f, c).fastPath && Handle(path, f, c).0.matched
    requires forall i :: 0 <= i < |c.s| ==> CountedKind(c.s[i].cutoff.kind)
    ensures Settled(Handle(path, f, c).0, c.s, c.gen)
  {
    EnteredOpen(path, f, c);
    HandleServes(path, f, c);
    ServingSettles(path, Entered(path, f, c), c, Retransmitted(f, c));
  }

  function DataPacket(seqNo: int, host: Host): Packet {
    Packet(seqNo, 0, 0, false, [0], None, host, {Unrecognised}, 443, 4, None)
  }

  /** It is not pure for bounds on the sequence number: after a packet past the
      cutoff, a retransmission from inside the window is no longer planned. */
  lemma FastPathNotPureForSequence()
    ensures var s := [Plain(ANY_FILTER).(cutoff := Matching.Bound(RelSeq, 100))];
      var f := FRESH_FLOW.(num := FRESH_FLOW.num.(haveISN := true), gen := 1, matched := true, profileIdx := 0);
      var late, early := Call(DataPacket(500, []), s, 1, map[]), Call(DataPacket(50, []), s, 1, map[]);
      var g := TcpStep(f, late).0;
      g.fastPath && TcpStep(g, early).1.plan.None? && TcpStep(g.(fastPath := false), early).1.plan.Some?
  {
  }

  /** Nor under a provisional profile: the fast path it arms hides the packet that
      names the host, so the host-gated profile before it never gets its turn. */
  lemma FastPathHidesTheHost()
    ensures var listed := Plain(ANY_FILTER.(hostlist := Some(HostSet(LEAF, true))));
      var s := [listed, Plain(ANY_FILTER).(cutoff := Matching.Bound(PacketCount, 0))];
      var first, hello := Call(DataPacket(1, []), s, 1, map[]), Call(DataPacket(2, ["com"]), s, 1, map[]);
      var g := TcpStep(FRESH_FLOW, first).0;
      !g.matched && g.fastPath && TcpStep(g, hello).1.plan.None? && TcpStep(g.(fastPath := false), hello).1.plan == Some(0)
  {
    var listed := Plain(ANY_FILTER.(hostlist := Some(HostSet(LEAF, true))));
    var s := [listed, Plain(ANY_FILTER).(cutoff := Matching.Bound(PacketCount, 0))];
    var first, hello := Call(DataPacket(1, []), s, 1, map[]), Call(DataPacket(2, ["com"]), s, 1, map[]);
    var q := Input(TCP, 443, 4, {}, [], None);
    assert !MatchProfile(s[0], q, map[]) && MatchProfile(s[1], q, map[]);
    assert FirstMatch(s, 0, q, map[]) == 1;
    assert HostGated(s[0]) && MatchFilterIgnoringHost(s[0].filter, q);
    assert MatchProfile(s[0], q.(host := ["com"]), map[]);
  }
}
