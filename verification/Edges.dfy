/** Packets the stream theorems are not about: SYNs and UDP datagrams. Not every op
    checks for them; these lemmas say exactly what is planned for them. */
module Edges {
  import opened Types
  import opened Positions
  import opened Spans
  import opened Rewriting
  import opened Ops
  import opened Streams
  import opened StreamMeaning
  import opened Chains

  // ---------- a bare SYN ----------

  predicate BareSyn(c: Ctx) { c.synPkt && !c.udp && c.payload == [] }

  predicate HasSyn(segs: seq<Seg>) { exists i :: 0 <= i < |segs| && segs[i].kind == SegSynData }

  /** Ops that plan an empty data segment for a packet without payload. */
  predicate ReplacesSyn(c: Ctx, co: CompiledOp) {
    Applied(c, co) &&
    match co.op
    case Fakedsplit => true
    case Fakeddisorder => true
    case Tamper =>
      var opts := Knobs(co.params);
      opts != TamperOpts({}, 0) && LengthAllowed(c, 0, |c.tamperHost([], opts)|)
    case _ => false
  }

  predicate PlansSyn(c: Ctx, co: CompiledOp) { Applied(c, co) && co.op.SynData? }

  /** `gone`: a block dropped everything before. */
  predicate SynState(st: PlanState, gone: bool) {
    && st.dgrams == []
    && (st.drop ==> HasData(st.segs) || gone) && (gone ==> st.drop)
    && (|st.segs| > 0 ==> HasData(st.segs) || HasSyn(st.segs))
  }

  lemma {:induction false} NonDataKeepsSyn(segs: seq<Seg>)
    ensures HasSyn(NonData(segs)) <==> HasSyn(segs)
    decreases |segs|
  {
    if |segs| > 0 {
      var init, last := segs[..|segs| - 1], segs[|segs| - 1];
      NonDataKeepsSyn(init);
      SynJoin(init, [last]);
      SynJoin(NonData(init), [last]);
      assert init + [last] == segs;
    }
  }

  lemma SynJoin(a: seq<Seg>, b: seq<Seg>)
    ensures HasSyn(a + b) <==> HasSyn(a) || HasSyn(b)
  {
    forall i | 0 <= i < |a| ensures (a + b)[i] == a[i] {}
    forall i | 0 <= i < |b| ensures (a + b)[|a| + i] == b[i] {}
  }

  lemma TakeOverKeepsSyn(st: PlanState, segs: seq<Seg>)
    requires NoSyn(segs) && HasData(segs)
    ensures HasSyn(TakeOver(st, segs).segs) <==> HasSyn(st.segs)
    ensures HasData(TakeOver(st, segs).segs)
  {
    NonDataKeepsSyn(st.segs);
    SynJoin(NonData(st.segs), segs);
    NoDataJoin(NonData(st.segs), segs);
  }

  lemma SameKinds(a: seq<Seg>, b: seq<Seg>)
    requires |a| == |b| && forall i :: 0 <= i < |a| ==> a[i].kind == b[i].kind
    ensures (HasSyn(a) <==> HasSyn(b)) && (HasData(a) <==> HasData(b))
  {
  }

  lemma SynTamper(c: Ctx, co: CompiledOp, st: PlanState, gone: bool)
    requires BareSyn(c) && SynState(st, gone) && co.op.Tamper?
    ensures var r := TamperOp(For(c, co), st);
      && SynState(r, gone) && (HasSyn(r.segs) <==> HasSyn(st.segs))
      && (Applied(c, co) ==> (HasData(r.segs) <==> HasData(st.segs) || ReplacesSyn(c, co)))
  {
    var d := For(c, co);
    var opts := Knobs(d.params);
    if !HasData(st.segs) {
      var s := DataSeg(c.tamperHost(c.payload, opts), 0, d.params);
      SynJoin(st.segs, [s]);
      NoDataJoin(st.segs, [s]);
      assert IsData([s][0]);
    } else if Joinable(st.segs, 0) {
      var out := c.tamperHost(Joined(st.segs, 0), opts);
      if |out| == 0 { EditKeepsKinds(st.segs, Edit(0, out, 0, 0)); }
    }
  }

  lemma EditKeepsKinds(segs: seq<Seg>, e: Edit)
    requires Editable(segs, e)
    ensures (HasSyn(Rewritten(segs, e)) <==> HasSyn(segs)) && (HasData(Rewritten(segs, e)) <==> HasData(segs))
  {
    SameKinds(segs, Rewritten(segs, e));
  }

  lemma {:induction false} NothingToCut(c: Ctx, specs: seq<PosSpec>)
    requires c.payload == []
    ensures MultiPos(c, specs) == []
    decreases |specs|
  {
    if |specs| > 0 {
      NothingToCut(c, specs[..|specs| - 1]);
    }
  }

  lemma SynFaked(c: Ctx, disorder: bool, st: PlanState, gone: bool)
    requires c.payload == [] && SynState(st, gone)
    ensures var r := if disorder then FakeddisorderOp(c, st) else FakedsplitOp(c, st);
      SynState(r, gone) && HasData(r.segs) && (HasSyn(r.segs) <==> HasSyn(st.segs))
  {
    var order := SplitOrder(c.params.altOrder, false);
    if disorder {
      FakeddisorderHolds(c, order, 0, 0);
      TakeOverKeepsSyn(st, FakeddisorderSegs(c, order, 0, 0));
    } else {
      FakedsplitHolds(c, order, 0, 0);
      TakeOverKeepsSyn(st, FakedsplitSegs(c, order, 0, 0));
    }
  }

  lemma SynPlanned(c: Ctx, data: Bytes, st: PlanState, gone: bool)
    requires BareSyn(c) && SynState(st, gone)
    ensures var r := SynDataOp(c, data, st);
      SynState(r, gone) && HasSyn(r.segs) && (HasData(r.segs) <==> HasData(st.segs))
  {
    SynJoin(st.segs, [SynSeg(c, data)]);
    NoDataJoin(st.segs, [SynSeg(c, data)]);
    assert [SynSeg(c, data)][0].kind == SegSynData;
  }

  /** Every other op leaves a bare SYN's plan alone, up to header fields. */
  lemma SynQuiet(op: Op, c: Ctx, st: PlanState, gone: bool)
    requires BareSyn(c) && SynState(st, gone)
    requires !op.Block? && !op.Fakedsplit? && !op.Fakeddisorder? && !op.Tamper? && !op.SynData?
    ensures var r := Apply(op, c, st);
      SynState(r, gone) && (HasSyn(r.segs) <==> HasSyn(st.segs)) && (HasData(r.segs) <==> HasData(st.segs))
  {
    NothingToCut(c, SplitSpecs(c.params));
    NothingToCut(c, HOST_SPECS);
    match op {
      case IpId => SameKinds(st.segs, IpIdOp(c, st).segs);
      case WsSize => SameKinds(st.segs, WsSizeOp(c, st).segs);
      case _ =>
    }
  }

  lemma SynDegrade(op: Op, c: Ctx, st: PlanState)
    requires c.payload == []
    ensures Degrade(op, c, st) == st
  {
    NothingToCut(c, SplitSpecs(c.params));
    NothingToCut(c, HOST_SPECS);
  }

  lemma SynStep(c: Ctx, co: CompiledOp, policy: Policy, st: PlanState, gone: bool)
    requires BareSyn(c) && SynState(st, gone) && !Blocks(c, co) && Step(c, co, policy, st).Some?
    ensures var r := Step(c, co, policy, st).value;
      && SynState(r, gone)
      && (HasData(r.segs) <==> HasData(st.segs) || ReplacesSyn(c, co))
      && (HasSyn(r.segs) <==> HasSyn(st.segs) || PlansSyn(c, co))
  {
    var d := For(c, co);
    if Applied(c, co) {
      match co.op {
        case Fakedsplit => SynFaked(d, false, st, gone);
        case Fakeddisorder => SynFaked(d, true, st, gone);
        case Tamper => SynTamper(c, co, st, gone);
        case SynData(data) => SynPlanned(d, data, st, gone);
        case _ => SynQuiet(co.op, d, st, gone);
      }
    } else {
      SynDegrade(co.op, d, st);
    }
  }

  lemma {:induction false} SynRun(ops: seq<CompiledOp>, c: Ctx, policy: Policy, st: PlanState, gone: bool)
    requires BareSyn(c) && SynState(st, gone) && !Any(ops, c, Blocks)
    requires RunFrom(ops, c, policy, st).Some?
    ensures var r := RunFrom(ops, c, policy, st).value;
      && SynState(r, gone)
      && (HasData(r.segs) <==> HasData(st.segs) || Any(ops, c, ReplacesSyn))
      && (HasSyn(r.segs) <==> HasSyn(st.segs) || Any(ops, c, PlansSyn))
    decreases |ops|
  {
    if |ops| > 0 {
      AnyHead(ops, c, Blocks);
      SynStep(c, ops[0], policy, st, gone);
      SynRun(ops[1..], c, policy, Step(c, ops[0], policy, st).value, gone);
      AnyHead(ops, c, ReplacesSyn);
      AnyHead(ops, c, PlansSyn);
    }
  }

  /** A run with blocks is the run behind the last one, on an emptied plan. */
  lemma {:induction false} RunBehindBlock(ops: seq<CompiledOp>, c: Ctx, policy: Policy, st: PlanState)
    requires Any(ops, c, Blocks) && RunFrom(ops, c, policy, st).Some?
    ensures RunFrom(ops, c, policy, st) == RunFrom(AfterBlock(ops, c), c, policy, BlockOp(st))
    decreases |ops|
  {
    AnyHead(ops, c, Blocks);
    if Any(ops[1..], c, Blocks) {
      RunBehindBlock(ops[1..], c, policy, Step(c, ops[0], policy, st).value);
    } else {
      AfterBlockIsSuffix(ops[1..], c);
    }
  }

  /** A bare SYN is replaced by a plan without any SYN in it exactly when the list
      blocks it or applies fakedsplit, fakeddisorder or an effective tamper, and applies
      no syndata behind the last block. */
  lemma SynLostExactly(ops: seq<CompiledOp>, c: Ctx, policy: Policy)
    requires BareSyn(c) && Run(ops, c, policy).Some?
    ensures var plan := Run(ops, c, policy).value;
      plan.drop && !HasSyn(plan.segs) <==>
        (Any(ops, c, Blocks) || Any(ops, c, ReplacesSyn)) && !Any(AfterBlock(ops, c), c, PlansSyn)
  {
    AfterBlockIsSuffix(ops, c);
    if Any(ops, c, Blocks) {
      RunBehindBlock(ops, c, policy, EMPTY_PLAN);
      SynRun(AfterBlock(ops, c), c, policy, BlockOp(EMPTY_PLAN), true);
    } else {
      SynRun(ops, c, policy, EMPTY_PLAN, false);
    }
  }

  /** A SYN that carries data never keeps its SYN in a plan; the plan replaces it exactly
      when some op blocks or plans a segment. */
  lemma SynWithDataLostExactly(ops: seq<CompiledOp>, c: Ctx, policy: Policy)
    requires c.synPkt && !c.udp && |c.payload| > 0 && Run(ops, c, policy).Some?
    ensures var plan := Run(ops, c, policy).value;
      && !HasSyn(plan.segs)
      && (plan.drop <==> Any(ops, c, Blocks) || Any(ops, c, SegmentPlanner(policy)))
  {
    RunMeans(ops, c, policy, EMPTY_PLAN, Untouched);
    DgramsOnlyOnUdp(ops, c, policy, EMPTY_PLAN);
    ListPlans(ops, c, policy);
    AfterBlockIsSuffix(ops, c);
  }

  /** It happens: fakedsplit alone, at packet level, on a SYN without data ... */
  lemma SynLostByFakedsplit(c: Ctx, p: OpParams, policy: Policy)
    requires BareSyn(c) && c.caps == FULL_CAPS
    ensures var r := Run([CompiledOp(Fakedsplit, p)], c, policy);
      r.Some? && r.value.drop && !HasSyn(r.value.segs)
  {
    var ops := [CompiledOp(Fakedsplit, p)];
    AlwaysRuns(ops, c, policy, EMPTY_PLAN);
    assert ReplacesSyn(c, ops[0]);
    SynLostExactly(ops, c, policy);
  }

  /** ... and any split that can cut it, on one with data. */
  lemma SynWithDataLostBySplit(c: Ctx, co: CompiledOp, policy: Policy)
    requires c.synPkt && !c.udp && |c.payload| > 0 && c.caps == FULL_CAPS && PlansSegment(c, policy, co)
    ensures var r := Run([co], c, policy); r.Some? && r.value.drop && !HasSyn(r.value.segs)
  {
    AlwaysRuns([co], c, policy, EMPTY_PLAN);
    assert SegmentPlanner(policy)(c, [co][0]);
    SynWithDataLostExactly([co], c, policy);
  }

  // ---------- UDP ----------

  /** No datagram planned, or exactly one real one, which carries `bytes`. */
  predicate DgramSync(ds: seq<Dgram>, u: Wire) {
    match u
    case Stream(w) =>
      var at := FirstDataDgram(ds);
      at < |ds| && ds[at].data == w && forall j :: at < j < |ds| ==> ds[j].kind != SegData
    case _ => ds == []
  }

  /** What applying an op does to the datagram the server will get. */
  function DgramMeaning(op: Op, c: Ctx, u: Wire): Wire {
    match op
    case Block => Dropped
    case Fake(knownOnly) => if FakeFires(c, knownOnly) then Ensured(c, u) else u
    case IpFrag2 => if c.synPkt || c.ipv6 then u else Ensured(c, u)
    case IpFrag1 => if c.synPkt || !c.ipv6 then u else Ensured(c, u)
    case Ipv6Ext(_) => if c.synPkt || !c.ipv6 then u else Ensured(c, u)
    case UdpLen =>
      if |c.payload| == 0 then u
      else Stream(Resize(c.payload, Increment(c.params), c.params.udpLenPattern))
    case _ => u
  }

  lemma {:induction false} FirstDataIs(ds: seq<Dgram>, at: nat)
    requires at <= |ds| && (forall i :: 0 <= i < at ==> ds[i].kind != SegData)
    requires at < |ds| ==> ds[at].kind == SegData
    ensures FirstDataDgram(ds) == at
  {
    var f := FirstDataDgram(ds);
    if f < |ds| { assert ds[f].kind == SegData; }
  }

  lemma DgramEnsure(c: Ctx, ds: seq<Dgram>, u: Wire)
    requires DgramSync(ds, u)
    ensures DgramSync(EnsureDataDgram(c, ds), Ensured(c, u))
  {
    if u.Stream? {
      assert ds[FirstDataDgram(ds)].kind == SegData;
    } else if |c.payload| > 0 {
      FirstDataIs(EnsureDataDgram(c, ds), 0);
    }
  }

  lemma DgramInsert(c: Ctx, ds: seq<Dgram>, injected: seq<Dgram>, u: Wire)
    requires DgramSync(ds, u) && !HasDataDgram(injected) && |c.payload| > 0
    ensures DgramSync(EnsureDataDgram(c, InsertDgrams(ds, injected)), Ensured(c, u))
  {
    var at := FirstDataDgram(ds);
    var r := InsertDgrams(ds, injected);
    forall i | 0 <= i < |injected| ensures injected[i].kind != SegData {}
    if u.Stream? {
      FirstDataIs(r, at + |injected|);
      assert r[at + |injected|].kind == SegData;
    } else {
      assert r == injected;
      FirstDataIs(r + [Dgram(SegData, c.payload, 0, {}, 0, 0)], |r|);
    }
  }

  lemma DgramMapped(ds: seq<Dgram>, r: seq<Dgram>, u: Wire)
    requires DgramSync(ds, u) && |r| == |ds|
    requires forall i :: 0 <= i < |ds| ==> r[i].kind == ds[i].kind && r[i].data == ds[i].data
    ensures DgramSync(r, u)
  {
    if u.Stream? { FirstDataIs(r, FirstDataDgram(ds)); }
  }

  lemma DgramDecorate(c: Ctx, bit: FoolBit, st: PlanState, u: Wire)
    requires c.udp && DgramSync(st.dgrams, u)
    ensures DgramSync(Decorate(c, bit, st).dgrams, Ensured(c, u))
  {
    DgramEnsure(c, st.dgrams, u);
    DgramMapped(EnsureDataDgram(c, st.dgrams), Decorate(c, bit, st).dgrams, Ensured(c, u));
  }

  lemma DgramUdpLen(c: Ctx, st: PlanState, u: Wire)
    requires c.udp && DgramSync(st.dgrams, u)
    ensures DgramSync(UdpLenOp(c, st).dgrams, DgramMeaning(UdpLen, c, u))
  {
    var at := FirstDataDgram(st.dgrams);
    if |c.payload| > 0 { FirstDataIs(UdpLenOp(c, st).dgrams, at); }
  }

  lemma DgramFake(c: Ctx, knownOnly: bool, st: PlanState, u: Wire)
    requires c.udp && DgramSync(st.dgrams, u)
    ensures DgramSync(FakeOp(c, knownOnly, st).dgrams, DgramMeaning(Fake(knownOnly), c, u))
  {
    if FakeFires(c, knownOnly) {
      DgramInsert(c, st.dgrams, FakeDgrams(c, c.fakes(KindOfFake(KnownL7(c), true), c.params.ownFakes)), u);
    }
  }

  lemma DgramFrag2(c: Ctx, st: PlanState, u: Wire)
    requires c.udp && DgramSync(st.dgrams, u)
    ensures DgramSync(IpFrag2Op(c, st).dgrams, DgramMeaning(IpFrag2, c, u))
  {
    if !c.synPkt && |c.payload| > 0 && !c.ipv6 {
      DgramEnsure(c, st.dgrams, u);
      DgramMapped(EnsureDataDgram(c, st.dgrams), IpFrag2Op(c, st).dgrams, Ensured(c, u));
    }
  }

  lemma DgramFrag1(c: Ctx, st: PlanState, u: Wire)
    requires c.udp && DgramSync(st.dgrams, u)
    ensures DgramSync(IpFrag1Op(c, st).dgrams, DgramMeaning(IpFrag1, c, u))
  {
    if !c.synPkt && |c.payload| > 0 {
      if c.ipv6 { DgramDecorate(c, IPFrag1Bit, st, u); }
      else { DgramMapped(st.dgrams, IpFrag1Op(c, st).dgrams, u); }
    }
  }

  lemma DgramApply(op: Op, c: Ctx, st: PlanState, u: Wire)
    requires c.udp && DgramSync(st.dgrams, u)
    ensures DgramSync(Apply(op, c, st).dgrams, DgramMeaning(op, c, u))
  {
    match op {
      case Fake(knownOnly) => DgramFake(c, knownOnly, st, u);
      case IpFrag2 => DgramFrag2(c, st, u);
      case IpFrag1 => DgramFrag1(c, st, u);
      case Ipv6Ext(_) => if !c.synPkt && |c.payload| > 0 && c.ipv6 { DgramDecorate(c, HopByHop, st, u); }
      case UdpLen => DgramUdpLen(c, st, u);
      case _ =>
    }
  }

  /** What makes an op plan a datagram where none is planned yet. */
  predicate PlansDatagram(c: Ctx, co: CompiledOp) {
    Applied(c, co) && |c.payload| > 0 && DgramPlans(co.op, For(c, co))
  }

  predicate DgramPlans(op: Op, c: Ctx) {
    match op
    case Fake(knownOnly) => FakeFires(c, knownOnly)
    case IpFrag2 => !c.synPkt && !c.ipv6
    case IpFrag1 => !c.synPkt && c.ipv6
    case Ipv6Ext(_) => !c.synPkt && c.ipv6
    case UdpLen => true
    case _ => false
  }

  function DgramStep(c: Ctx, co: CompiledOp, u: Wire): Wire {
    if Applied(c, co) then DgramMeaning(co.op, For(c, co), u) else u
  }

  lemma DgramStepPlans(c: Ctx, co: CompiledOp, u: Wire)
    ensures var w := DgramStep(c, co, u);
      if Blocks(c, co) then w == Dropped else if u.Stream? || PlansDatagram(c, co) then w.Stream? else w == u
  {
  }

  function DgramChain(ops: seq<CompiledOp>, c: Ctx, u: Wire): Wire {
    if |ops| == 0 then u
    else DgramChain(ops[1..], c, DgramStep(c, ops[0], u))
  }

  lemma {:induction false} DgramRun(ops: seq<CompiledOp>, c: Ctx, policy: Policy, st: PlanState, u: Wire)
    requires c.udp && DgramSync(st.dgrams, u)
    ensures var r := RunFrom(ops, c, policy, st); r.Some? ==> DgramSync(r.value.dgrams, DgramChain(ops, c, u))
    decreases |ops|
  {
    if |ops| > 0 {
      var d := For(c, ops[0]);
      DgramApply(ops[0].op, d, st, u);
      DegradeKeepsDgrams(ops[0].op, d, st);
      match Step(c, ops[0], policy, st) {
        case None =>
        case Some(st') =>
          DgramRun(ops[1..], c, policy, st', DgramStep(c, ops[0], u));
      }
    }
  }

  predicate UdpData(c: Ctx) { c.udp && |c.payload| > 0 && !c.synPkt }

  lemma {:induction false} DgramChainPlans(ops: seq<CompiledOp>, c: Ctx, u: Wire)
    requires !Any(ops, c, Blocks)
    ensures var w := DgramChain(ops, c, u); if u.Stream? || Any(ops, c, PlansDatagram) then w.Stream? else w == u
    decreases |ops|
  {
    if |ops| > 0 {
      AnyHead(ops, c, Blocks);
      AnyHead(ops, c, PlansDatagram);
      DgramStepPlans(c, ops[0], u);
      DgramChainPlans(ops[1..], c, DgramStep(c, ops[0], u));
    }
  }

  lemma {:induction false} DgramBehindBlock(ops: seq<CompiledOp>, c: Ctx, u: Wire)
    requires Any(ops, c, Blocks)
    ensures DgramChain(ops, c, u) == DgramChain(AfterBlock(ops, c), c, Dropped)
    decreases |ops|
  {
    AnyHead(ops, c, Blocks);
    DgramStepPlans(c, ops[0], u);
    if Any(ops[1..], c, Blocks) { DgramBehindBlock(ops[1..], c, DgramStep(c, ops[0], u)); }
  }

  /** A list plans a real datagram exactly when some op behind the last block does. */
  lemma DgramListPlans(ops: seq<CompiledOp>, c: Ctx)
    ensures DgramChain(ops, c, Untouched).Stream? <==> Any(AfterBlock(ops, c), c, PlansDatagram)
  {
    if Any(ops, c, Blocks) {
      DgramBehindBlock(ops, c, Untouched);
      DgramChainPlans(AfterBlock(ops, c), c, Dropped);
    } else {
      DgramChainPlans(ops, c, Untouched);
    }
  }

  /** The plan for a datagram: it holds TCP segments exactly when some op behind the last
      block plans one, a real datagram (then just one, with the bytes the list means)
      exactly when some op there plans one, and it claims the packet exactly when some
      op blocks or plans anything at all. */
  lemma DatagramPlanExactly(ops: seq<CompiledOp>, c: Ctx, policy: Policy)
    requires UdpData(c) && Run(ops, c, policy).Some?
    ensures var plan, post := Run(ops, c, policy).value, AfterBlock(ops, c);
      && DgramSync(plan.dgrams, DgramChain(ops, c, Untouched))
      && (plan.segs != [] <==> Any(post, c, SegmentPlanner(policy)))
      && (plan.dgrams != [] <==> Any(post, c, PlansDatagram))
      && (HasDataDgram(plan.dgrams) <==> Any(post, c, PlansDatagram))
      && (plan.drop <==> Any(ops, c, Blocks) || Any(post, c, SegmentPlanner(policy)) || Any(post, c, PlansDatagram))
  {
    RunMeans(ops, c, policy, EMPTY_PLAN, Untouched);
    DgramRun(ops, c, policy, EMPTY_PLAN, Untouched);
    DgramListPlans(ops, c);
    ListPlans(ops, c, policy);
    AfterBlockIsSuffix(ops, c);
    var plan, u := Run(ops, c, policy).value, DgramChain(ops, c, Untouched);
    if u.Stream? { assert plan.dgrams[FirstDataDgram(plan.dgrams)].kind == SegData; }
  }

  // ---------- datagram sizes and fragment positions ----------

  /** The resized datagram has the clamped length, keeps the common prefix and is
      padded cyclically from the pattern's first byte. */
  lemma ResizeExact(payload: Bytes, inc: int, pattern: Bytes)
    ensures var r, want := Resize(payload, inc, pattern), |payload| + inc;
      && 1 <= |r| <= 0xFFFF
      && (1 <= want <= 0xFFFF ==> |r| == want) && (want < 1 ==> |r| == 1) && (want > 0xFFFF ==> |r| == 0xFFFF)
      && (forall i :: 0 <= i < |r| && i < |payload| ==> r[i] == payload[i])
      && (forall i :: |payload| <= i < |r| ==>
            r[i] == if |pattern| == 0 then 0 else pattern[(i - |payload|) % |pattern|])
  {
  }

  /** A fragment position is a positive multiple of eight. It lies inside the packet
      exactly when the configured one does once rounded, or else the fallback does:
      with a UDP payload, or with more than four TCP bytes. */
  lemma FragPosInside(c: Ctx, udp: bool, payloadLen: nat)
    ensures var p, total, rounded := FragPos(c, udp, payloadLen), HeaderLen(udp) + payloadLen, RoundedFragPos(c, udp);
      && p >= 8 && p % 8 == 0
      && (p < total <==> 8 <= rounded < total || (if udp then payloadLen > 0 else payloadLen > 4))
  {
  }

  /** ... and a TCP packet with four bytes or fewer can get one past its end. */
  lemma FragPosOutside(c: Ctx)
    requires c.params.fragPosTCP == 32
    ensures FragPos(c, false, 4) == HeaderLen(false) + 4
  {
  }

  function Sized(u: Ctx): Dgram {
    Dgram(SegData, Resize(u.payload, Increment(u.params), u.params.udpLenPattern), 0, {}, 0, 0)
  }

  lemma LengthThenFrag(u: Ctx, f: Ctx)
    requires UdpData(u) && !u.ipv6 && f == u.(params := f.params)
    ensures var d := Sized(u);
      IpFrag2Op(f, UdpLenOp(u, EMPTY_PLAN)) == PlanState([], [d.(frag := FragPos(f, true, |d.data|))], false)
  {
    var d := Sized(u);
    assert UdpLenOp(u, EMPTY_PLAN) == PlanState([], [d], false);
    assert [d][0].kind == SegData && HasDataDgram([d]);
    FragOne(f, PlanState([], [d], false), d);
  }

  lemma FragThenLength(u: Ctx, f: Ctx)
    requires UdpData(u) && !u.ipv6 && f == u.(params := f.params)
    ensures var d := Sized(u);
      UdpLenOp(u, IpFrag2Op(f, EMPTY_PLAN)) == PlanState([], [d.(frag := FragPos(u, true, |d.data|))], false)
  {
    var whole := Dgram(SegData, u.payload, 0, {}, 0, 0);
    assert EnsureDataDgram(f, []) == [whole];
    FragOne(f, EMPTY_PLAN, whole);
    var cut := whole.(frag := FragPos(f, true, |u.payload|));
    assert FirstDataDgram([cut]) == 0 && cut.frag >= 8;
  }

  /** udplen and ipfrag2 commute on an empty IPv4 plan when they agree on the
      configured fragment positions. */
  lemma FragAndLengthCommute(u: Ctx, f: Ctx)
    requires UdpData(u) && !u.ipv6 && f == u.(params := f.params)
    requires f.params.fragPosTCP == u.params.fragPosTCP && f.params.fragPosUDP == u.params.fragPosUDP
    ensures UdpLenOp(u, IpFrag2Op(f, EMPTY_PLAN)) == IpFrag2Op(f, UdpLenOp(u, EMPTY_PLAN))
  {
    LengthThenFrag(u, f);
    FragThenLength(u, f);
  }

  lemma FragOne(f: Ctx, st: PlanState, d: Dgram)
    requires UdpData(f) && !f.ipv6 && d.kind == SegData && EnsureDataDgram(f, st.dgrams) == [d]
    ensures IpFrag2Op(f, st) == st.(dgrams := [d.(frag := FragPos(f, true, |d.data|))])
  {
    var r := IpFrag2Op(f, st).dgrams;
    assert |r| == 1 && r[0] == d.(frag := FragPos(f, true, |d.data|));
  }
}
