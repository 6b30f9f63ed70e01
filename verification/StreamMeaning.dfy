/** Each op against its stream-level meaning. A split op means "send the payload",
    a decoy means nothing, tamper and tlsrec are functions on bytes. */
module StreamMeaning {
  import opened Types
  import opened Positions
  import opened Spans
  import opened Rewriting
  import opened Ops
  import opened Streams

  /** What applying an op does to the carried stream. */
  function Meaning(op: Op, c: Ctx, v: Wire): Wire {
    match op
    case Block => Dropped
    case Fake(knownOnly) => if FakeFires(c, knownOnly) && !c.udp then Ensured(c, v) else v
    case RstInject(_) => if c.synPkt || c.udp then v else Ensured(c, v)
    case Multisplit => if MultiFires(c, false) then Stream(c.payload) else v
    case Multidisorder => if MultiFires(c, true) then Stream(c.payload) else v
    case Fakedsplit => if |c.payload| <= MAX_FAKE then Stream(c.payload) else v
    case Fakeddisorder => if |c.payload| <= MAX_FAKE then Stream(c.payload) else v
    case Hostfakesplit => if |MultiPos(c, HOST_SPECS)| == 2 then Stream(c.payload) else v
    case Tamper => TamperMeaning(c, v)
    case TlsRec => TlsRecMeaning(c, v)
    case WsSize => if c.params.wsSize > 0 && WsActive(c) then Ensured(c, v) else v
    case IpFrag2 => if c.synPkt || c.udp then v else Ensured(c, v)
    case Ipv6Ext(_) => if c.synPkt || c.udp || !c.ipv6 then v else Ensured(c, v)
    case IpFrag1 => if c.synPkt || c.udp || !c.ipv6 then v else Ensured(c, v)
    case _ => v
  }

  /** What degrading an op does to the carried stream. */
  function DegradeMeaning(op: Op, c: Ctx, v: Wire): Wire {
    match op
    case Multisplit => if |MultiPos(c, SplitSpecs(c.params))| > 0 then Stream(c.payload) else v
    case Multidisorder => if |MultiPos(c, SplitSpecs(c.params))| > 0 then Stream(c.payload) else v
    case Fakedsplit => if SinglePos(c, SplitSpecs(c.params)) != 0 then Stream(c.payload) else v
    case Fakeddisorder => if SinglePos(c, SplitSpecs(c.params)) != 0 then Stream(c.payload) else v
    case Hostfakesplit => if |MultiPos(c, HOST_SPECS)| == 2 then Stream(c.payload) else v
    case _ => v
  }

  predicate FakeFires(c: Ctx, knownOnly: bool) {
    !c.synPkt && |c.payload| > 0 && !(knownOnly && KnownL7(c) == {Unrecognised})
  }

  predicate MultiFires(c: Ctx, disorder: bool) {
    var pos := MultiPos(c, SplitSpecs(c.params));
    |pos| > 0 && MultiSegs(c, pos, disorder).Some?
  }

  /** The rewriter acts on the planned bytes, or on the payload when nothing is
      planned; a length change passes only in the latter case, and only on a
      transport that owns the stream. */
  function TamperMeaning(c: Ctx, v: Wire): Wire {
    var opts := Knobs(c.params);
    if opts == TamperOpts({}, 0) then v
    else match v
      case Stream(w) =>
        var out := c.tamperHost(w, opts);
        if |w| == |c.payload| && |out| == |w| then Stream(out) else v
      case _ =>
        var out := c.tamperHost(c.payload, opts);
        if LengthAllowed(c, |c.payload|, |out|) then Stream(out) else v
  }

  /** Splitting the record always adds five bytes, so a packet-level transport
      never does it; elsewhere it applies while the planned bytes are the payload. */
  function TlsRecMeaning(c: Ctx, v: Wire): Wire {
    var pos := FindSplitPos(c.payload, c.info, TlsRecSpec(c.params));
    if pos <= 0 || pos >= |c.payload| || c.caps.inject then v
    else match TLSRecordSplit(c.payload, pos)
      case None => v
      case Some(out) => if !v.Stream? || v == Stream(c.payload) then Stream(out) else v
  }

  /** The guards under which an op plans a TCP segment where none is planned yet. */
  predicate Plans(op: Op, c: Ctx) {
    var n := |c.payload|;
    match op
    case Fake(knownOnly) => FakeFires(c, knownOnly) && !c.udp
    case RstInject(_) => !c.synPkt && !c.udp && n > 0
    case Multisplit => MultiFires(c, false)
    case Multidisorder => MultiFires(c, true)
    case Fakedsplit => n <= MAX_FAKE
    case Fakeddisorder => n <= MAX_FAKE
    case Hostfakesplit => |MultiPos(c, HOST_SPECS)| == 2
    case Tamper => Knobs(c.params) != TamperOpts({}, 0) && LengthAllowed(c, n, |c.tamperHost(c.payload, Knobs(c.params))|)
    case TlsRec =>
      var pos := FindSplitPos(c.payload, c.info, TlsRecSpec(c.params));
      0 < pos < n && !c.caps.inject && TLSRecordSplit(c.payload, pos).Some?
    case WsSize => c.params.wsSize > 0 && WsActive(c) && n > 0
    case IpFrag2 => !c.synPkt && !c.udp && n > 0
    case IpFrag1 => !c.synPkt && !c.udp && c.ipv6 && n > 0
    case Ipv6Ext(_) => !c.synPkt && !c.udp && c.ipv6 && n > 0
    case _ => false
  }

  /** The same for its fallback. */
  predicate DegradePlans(op: Op, c: Ctx) {
    match op
    case Multisplit => |MultiPos(c, SplitSpecs(c.params))| > 0
    case Multidisorder => |MultiPos(c, SplitSpecs(c.params))| > 0
    case Fakedsplit => SinglePos(c, SplitSpecs(c.params)) != 0
    case Fakeddisorder => SinglePos(c, SplitSpecs(c.params)) != 0
    case Hostfakesplit => |MultiPos(c, HOST_SPECS)| == 2
    case _ => false
  }

  /** An op starts a stream exactly under its guards, and only `block` ends one. */
  lemma MeaningPlans(op: Op, c: Ctx, v: Wire)
    ensures var w := Meaning(op, c, v);
      if op.Block? then w == Dropped else if v.Stream? || Plans(op, c) then w.Stream? else w == v
  {
  }

  lemma DegradeMeaningPlans(op: Op, c: Ctx, v: Wire)
    ensures var w := DegradeMeaning(op, c, v); if v.Stream? || DegradePlans(op, c) then w.Stream? else w == v
  {
  }

  // ---------- the invariant ----------

  /** A payload on a SYN is only ever planned for a bare SYN. */
  predicate SynSegsOnly(c: Ctx, segs: seq<Seg>) {
    forall s :: s in segs && s.kind == SegSynData ==> c.synPkt && |c.payload| == 0
  }

  /** The plan carries v, it replaces the original packet only as v says, and it emits
      nothing but what carries v (a planned SYN is the one exception). */
  predicate Good(c: Ctx, st: PlanState, v: Wire) {
    && Sync(st.segs, v)
    && SynSegsOnly(c, st.segs)
    && (st.drop ==> !v.Untouched?) && (v.Dropped? ==> st.drop)
    && (|st.segs| > 0 && !v.Stream? ==> c.synPkt && |c.payload| == 0)
  }

  lemma GoodTakeOver(c: Ctx, st: PlanState, v: Wire, segs: seq<Seg>)
    requires Good(c, st, v) && Holds(segs, c.payload)
    requires NoSyn(segs)
    ensures Good(c, TakeOver(st, segs), Stream(c.payload))
    ensures Good(c, TakeOverAll(st, segs), Stream(c.payload))
  {
    HoldsBehind(NonData(st.segs), segs, c.payload);
    NonDataKinds(st.segs);
  }

  lemma {:induction false} NonDataKinds(segs: seq<Seg>)
    ensures forall s :: s in NonData(segs) ==> s in segs
    decreases |segs|
  {
    if |segs| > 0 {
      NonDataKinds(segs[..|segs| - 1]);
    }
  }

  lemma GoodEnsure(c: Ctx, st: PlanState, segs: seq<Seg>, v: Wire)
    requires Sync(segs, v) && SynSegsOnly(c, segs) && |c.payload| > 0
    ensures Good(c, st.(segs := EnsureDataSeg(c, segs)), Ensured(c, v))
  {
    SyncEnsure(c, segs, v);
  }

  lemma GoodInject(c: Ctx, st: PlanState, v: Wire, injected: seq<Seg>)
    requires Good(c, st, v) && |c.payload| > 0 && !HasData(injected)
    requires NoSyn(injected)
    ensures Good(c, st.(segs := EnsureDataSeg(c, InsertSegs(st.segs, injected))), Ensured(c, v))
  {
    SyncInsert(st.segs, injected, v);
    GoodEnsure(c, st, InsertSegs(st.segs, injected), v);
  }

  lemma GoodMapped(c: Ctx, st: PlanState, segs: seq<Seg>, v: Wire)
    requires Good(c, st, v) && SameContent(st.segs, segs)
    ensures Good(c, st.(segs := segs), v)
  {
    assert forall i :: 0 <= i < |segs| ==> SameBytes(st.segs[i], segs[i]);
    SyncMapped(st.segs, segs, v);
  }

  // ---------- op by op ----------

  lemma {:induction false} FakeSegKinds(c: Ctx, kind: FakeKind, blobs: seq<Bytes>)
    ensures forall s :: s in FakeSegs(c, kind, blobs) ==> s.kind == SegFake
    decreases |blobs|
  {
    if |blobs| > 0 {
      FakeSegKinds(c, kind, blobs[..|blobs| - 1]);
    }
  }

  lemma FakeMeans(c: Ctx, knownOnly: bool, st: PlanState, v: Wire)
    requires Good(c, st, v)
    ensures Good(c, FakeOp(c, knownOnly, st), Meaning(Fake(knownOnly), c, v))
  {
    if FakeFires(c, knownOnly) && !c.udp {
      var kind := KindOfFake(KnownL7(c), c.udp);
      FakeSegKinds(c, kind, c.fakes(kind, c.params.ownFakes));
      GoodInject(c, st, v, FakeSegs(c, kind, c.fakes(kind, c.params.ownFakes)));
    }
  }

  lemma RstMeans(c: Ctx, ack: bool, st: PlanState, v: Wire)
    requires Good(c, st, v)
    ensures Good(c, RstOp(c, ack, st), Meaning(RstInject(ack), c, v))
  {
    if !c.synPkt && |c.payload| > 0 && !c.udp {
      GoodInject(c, st, v, [RstSeg(c, ack)]);
    }
  }

  lemma SynDataMeans(c: Ctx, data: Bytes, st: PlanState, v: Wire)
    requires Good(c, st, v)
    ensures Good(c, SynDataOp(c, data, st), v)
  {
    if c.synPkt && !c.udp && |c.payload| == 0 {
      NoDataJoin(st.segs, [SynSeg(c, data)]);
      if v.Stream? { HoldsAhead(st.segs, [SynSeg(c, data)], v.bytes); }
    }
  }

  lemma AllDataNoSyn(segs: seq<Seg>)
    requires forall i :: 0 <= i < |segs| ==> IsData(segs[i])
    ensures NoSyn(segs) && NoSyn(Reverse(segs))
  {
  }

  /** What a split op leaves behind: nothing new, or a plan that holds the payload. */
  predicate Replaced(c: Ctx, st: PlanState, fires: bool, segs: seq<Seg>, after: PlanState) {
    if fires then after == TakeOver(st, segs) && Holds(segs, c.payload) && NoSyn(segs) else after == st
  }

  lemma ReplacedGood(c: Ctx, st: PlanState, v: Wire, fires: bool, segs: seq<Seg>, after: PlanState)
    requires Good(c, st, v) && Replaced(c, st, fires, segs, after)
    ensures Good(c, after, if fires then Stream(c.payload) else v)
  {
    if fires { GoodTakeOver(c, st, v, segs); }
  }

  lemma MultiReplaces(c: Ctx, disorder: bool, st: PlanState) returns (segs: seq<Seg>)
    ensures Replaced(c, st, MultiFires(c, disorder), segs, MultiOp(c, disorder, st))
  {
    segs := [];
    var pos := MultiPos(c, SplitSpecs(c.params));
    if MultiFires(c, disorder) {
      var parts := MultiSegs(c, pos, disorder).value;
      MultiHolds(c, pos, disorder, parts);
      AllDataNoSyn(parts);
      segs := if disorder then Reverse(parts) else parts;
    }
  }

  lemma MultiMeans(c: Ctx, disorder: bool, st: PlanState, v: Wire)
    requires Good(c, st, v)
    ensures Good(c, MultiOp(c, disorder, st), Meaning(if disorder then Multidisorder else Multisplit, c, v))
  {
    var segs := MultiReplaces(c, disorder, st);
    ReplacedGood(c, st, v, MultiFires(c, disorder), segs, MultiOp(c, disorder, st));
  }

  lemma MarkedHolds(c: Ctx, segs: seq<Seg>, w: Bytes)
    requires Holds(segs, w) && |segs| > 0 && forall i :: 0 <= i < |segs| ==> IsData(segs[i])
    ensures var marked := segs[0 := segs[0].(ttl := 1)]; Holds(marked, w) && NoSyn(marked)
  {
    var marked := segs[0 := segs[0].(ttl := 1)];
    assert forall i :: 0 <= i < |segs| ==> SameBytes(segs[i], marked[i]);
    HoldsSameContent(segs, marked, w);
  }

  /** The parts a stream relay writes. */
  lemma DegradedHolds(c: Ctx, pos: seq<int>, disorder: bool, segs: seq<Seg>)
    requires Cuts(pos, |c.payload|) && |pos| > 0 && MultiSegs(WithoutSeq(c), pos, disorder) == Some(segs)
    ensures var r := if disorder then segs[0 := segs[0].(ttl := 1)] else segs; Holds(r, c.payload) && NoSyn(r)
  {
    MultiHolds(WithoutSeq(c), pos, disorder, segs);
    MarkedHolds(c, segs, c.payload);
    AllDataNoSyn(segs);
  }

  lemma MultiDegradeMeans(c: Ctx, disorder: bool, st: PlanState, v: Wire)
    requires Good(c, st, v)
    ensures Good(c, MultiDegrade(c, disorder, st), DegradeMeaning(if disorder then Multidisorder else Multisplit, c, v))
  {
    var pos := MultiPos(c, SplitSpecs(c.params));
    if |pos| > 0 {
      var segs := MultiSegs(WithoutSeq(c), pos, disorder).value;
      DegradedHolds(c, pos, disorder, segs);
      GoodTakeOver(c, st, v, if disorder then segs[0 := segs[0].(ttl := 1)] else segs);
    }
  }

  lemma CancelledGood(c: Ctx, st: PlanState, v: Wire)
    requires Good(c, st, v) && |c.payload| > 0
    ensures Good(c, Cancelled(c, st), Stream(c.payload))
  {
    NonDataKinds(st.segs);
    SyncEnsure(c, NonData(st.segs), Untouched);
  }

  /** What a faked-split op leaves behind: nothing new, a cancelled split, or a plan
      that holds the payload. */
  predicate Emits(c: Ctx, st: PlanState, cancel: bool, segs: seq<Seg>, after: PlanState) {
    if |c.payload| > MAX_FAKE then after == st
    else if cancel then |c.payload| > 0 && after == Cancelled(c, st)
    else after == TakeOver(st, segs) && Holds(segs, c.payload) && NoSyn(segs)
  }

  lemma EmitsGood(c: Ctx, st: PlanState, v: Wire, cancel: bool, segs: seq<Seg>, after: PlanState, w: Wire)
    requires Good(c, st, v) && Emits(c, st, cancel, segs, after)
    requires w == if |c.payload| <= MAX_FAKE then Stream(c.payload) else v
    ensures Good(c, after, w)
  {
    if |c.payload| <= MAX_FAKE {
      if cancel { CancelledGood(c, st, v); } else { GoodTakeOver(c, st, v, segs); }
    }
  }

  lemma FakedsplitEmits(c: Ctx, st: PlanState) returns (cancel: bool, segs: seq<Seg>)
    ensures Emits(c, st, cancel, segs, FakedsplitOp(c, st))
  {
    segs := [];
    cancel := false;
    if |c.payload| <= MAX_FAKE {
      var n, sp := |c.payload|, SinglePos(c, SplitSpecs(c.params));
      var order, cut := SplitOrder(c.params.altOrder, sp != 0), if sp == 0 then n else sp;
      var ovl := if c.params.seqovl < 0 || cut >= n || !c.caps.seqNo then 0 else c.params.seqovl;
      FakedsplitHolds(c, order, cut, ovl);
      cancel, segs := ovl > 0 && ovl + cut > MAX_SEG, FakedsplitSegs(c, order, cut, ovl);
    }
  }

  lemma FakedsplitMeans(c: Ctx, st: PlanState, v: Wire)
    requires Good(c, st, v)
    ensures Good(c, FakedsplitOp(c, st), Meaning(Fakedsplit, c, v))
  {
    var cancel, segs := FakedsplitEmits(c, st);
    EmitsGood(c, st, v, cancel, segs, FakedsplitOp(c, st), Meaning(Fakedsplit, c, v));
  }

  lemma FakeddisorderEmits(c: Ctx, st: PlanState) returns (cancel: bool, segs: seq<Seg>)
    ensures Emits(c, st, cancel, segs, FakeddisorderOp(c, st))
  {
    segs := [];
    cancel := false;
    if |c.payload| <= MAX_FAKE {
      var n, sp := |c.payload|, SinglePos(c, SplitSpecs(c.params));
      var order := SplitOrder(c.params.altOrder, sp != 0);
      var ovl := if c.params.seqovl <= 0 || !c.caps.seqNo || c.params.seqovl >= sp then 0 else c.params.seqovl;
      FakeddisorderHolds(c, order, sp, ovl);
      cancel, segs := ovl > 0 && ovl + (n - sp) > MAX_SEG, FakeddisorderSegs(c, order, sp, ovl);
    }
  }

  lemma FakeddisorderMeans(c: Ctx, st: PlanState, v: Wire)
    requires Good(c, st, v)
    ensures Good(c, FakeddisorderOp(c, st), Meaning(Fakeddisorder, c, v))
  {
    var cancel, segs := FakeddisorderEmits(c, st);
    EmitsGood(c, st, v, cancel, segs, FakeddisorderOp(c, st), Meaning(Fakeddisorder, c, v));
  }

  lemma SplitDegradeMeans(c: Ctx, st: PlanState, v: Wire)
    requires Good(c, st, v)
    ensures Good(c, SplitDegrade(c, st), DegradeMeaning(Fakedsplit, c, v))
  {
    var sp := SinglePos(c, SplitSpecs(c.params));
    if sp != 0 {
      var segs := [RealPart(c, 0, sp, 0), RealPart(c, sp, |c.payload|, 0)];
      TwoPartsHold(c, segs, 0, 1, sp, 0, 0);
      GoodTakeOver(c, st, v, segs);
    }
  }

  lemma HostfakesplitMeans(c: Ctx, st: PlanState, v: Wire)
    requires Good(c, st, v)
    ensures Good(c, HostfakesplitOp(c, st), Meaning(Hostfakesplit, c, v))
  {
    var pos := MultiPos(c, HOST_SPECS);
    if |pos| == 2 {
      assert pos[0] < pos[1];
      var host, end := pos[0], pos[1];
      var mid := MidHost(c, host, end);
      HostfakesplitHolds(c, host, mid, end, HostDecoy(c, host, end));
      GoodTakeOver(c, st, v, HostfakesplitSegs(c, host, mid, end, HostDecoy(c, host, end)));
    }
  }

  lemma HostfakesplitDegradeMeans(c: Ctx, st: PlanState, v: Wire)
    requires Good(c, st, v)
    ensures Good(c, HostfakesplitDegrade(c, st), DegradeMeaning(Hostfakesplit, c, v))
  {
    var pos := MultiPos(c, HOST_SPECS);
    if |pos| == 2 {
      assert pos[0] < pos[1];
      HostDegradeHolds(c, pos[0], MidHost(c, pos[0], pos[1]), pos[1]);
      GoodTakeOver(c, st, v, HostfakesplitDegrade(c, st).segs);
    }
  }

  /** The reassembly walk accepts a plan that carries w at exactly |w|. */
  lemma JoinableAt(segs: seq<Seg>, w: Bytes, want: int)
    requires Holds(segs, w)
    ensures Joinable(segs, want) <==> want == |w|
    ensures Joinable(segs, |w|) && Joined(segs, |w|) == w
  {
    JoinedIsCarried(segs, |w|);
  }

  lemma GoodRewritten(c: Ctx, st: PlanState, w: Bytes, e: Edit)
    requires Good(c, st, Stream(w)) && e.want == |w| && e.Valid()
    ensures Editable(st.segs, e)
    ensures Good(c, st.(segs := Rewritten(st.segs, e)), Stream(e.edited))
  {
    RewriteHolds(st.segs, w, e);
  }

  lemma GoodAppended(c: Ctx, st: PlanState, s: Seg)
    requires !HasData(st.segs) && SynSegsOnly(c, st.segs) && IsData(s) && s.seqOff == 0
    ensures Good(c, st.(segs := st.segs + [s], drop := true), Stream(s.data))
  {
    SyncAppend(st.segs, s);
  }

  lemma SyncHasData(segs: seq<Seg>, v: Wire)
    requires Sync(segs, v)
    ensures HasData(segs) <==> v.Stream?
  {
  }

  lemma TamperMeans(c: Ctx, st: PlanState, v: Wire)
    requires Good(c, st, v)
    ensures Good(c, TamperOp(c, st), Meaning(Tamper, c, v))
  {
    var opts := Knobs(c.params);
    SyncHasData(st.segs, v);
    match v {
      case Stream(w) =>
        JoinableAt(st.segs, w, |c.payload|);
        var out := c.tamperHost(w, opts);
        if |w| == |c.payload| && |out| == |w| { GoodRewritten(c, st, w, Edit(|w|, out, 0, 0)); }
      case _ => GoodAppended(c, st, DataSeg(c.tamperHost(c.payload, opts), 0, c.params));
    }
  }

  /** The record split written over what is planned, or planned where nothing is. */
  lemma RecordPlanned(c: Ctx, st: PlanState, v: Wire, pos: int, out: Bytes, after: PlanState)
    requires Good(c, st, v) && 0 < pos < |c.payload| && TLSRecordSplit(c.payload, pos) == Some(out)
    requires after == RecordPlan(c, st, pos, out)
    ensures Good(c, after, if !v.Stream? || v == Stream(c.payload) then Stream(out) else v)
  {
    var n := |c.payload|;
    SyncHasData(st.segs, v);
    match v {
      case Stream(w) =>
        JoinableAt(st.segs, w, n);
        if w == c.payload { GoodRewritten(c, st, w, Edit(n, out, pos, |out| - n)); }
      case _ => GoodAppended(c, st, DataSeg(out, 0, c.params));
    }
  }

  lemma TlsRecMeans(c: Ctx, st: PlanState, v: Wire)
    requires Good(c, st, v)
    ensures Good(c, TlsRecOp(c, st), Meaning(TlsRec, c, v))
  {
    var n, pos := |c.payload|, FindSplitPos(c.payload, c.info, TlsRecSpec(c.params));
    if 0 < pos < n && TLSRecordSplit(c.payload, pos).Some? && !c.caps.inject {
      RecordPlanned(c, st, v, pos, TLSRecordSplit(c.payload, pos).value, TlsRecOp(c, st));
    }
  }

  lemma TagEnsured(c: Ctx, st: PlanState, v: Wire)
    requires Good(c, st, v) && WsActive(c)
    ensures Good(c, st.(segs := WsTag(c, EnsureDataSeg(c, st.segs))), Ensured(c, v))
  {
    var ensured := EnsureDataSeg(c, st.segs);
    if |c.payload| > 0 { GoodEnsure(c, st, st.segs, v); }
    assert forall i :: 0 <= i < |ensured| ==> SameBytes(ensured[i], WsTag(c, ensured)[i]);
    GoodMapped(c, st.(segs := ensured), WsTag(c, ensured), Ensured(c, v));
  }

  lemma WsSizeMeans(c: Ctx, st: PlanState, v: Wire)
    requires Good(c, st, v)
    ensures Good(c, WsSizeOp(c, st), Meaning(WsSize, c, v))
  {
    if c.params.wsSize > 0 && WsActive(c) {
      SyncHasData(st.segs, v);
      if exists i :: 0 <= i < |st.segs| && CarriesWindow(c, st.segs[i]) {
        assert Ensured(c, v) == v;
        GoodMapped(c, st, WsTag(c, st.segs), v);
      } else {
        TagEnsured(c, st, v);
      }
    }
  }

  lemma IpIdMeans(c: Ctx, st: PlanState, v: Wire)
    requires Good(c, st, v)
    ensures Good(c, IpIdOp(c, st), v)
  {
    var segs := IpIdOp(c, st).segs;
    assert forall i :: 0 <= i < |segs| ==> SameBytes(st.segs[i], segs[i]);
    GoodMapped(c, st, segs, v);
  }

  lemma EnsuredMapped(c: Ctx, st: PlanState, v: Wire, segs: seq<Seg>)
    requires Good(c, st, v) && |c.payload| > 0 && SameContent(EnsureDataSeg(c, st.segs), segs)
    ensures Good(c, st.(segs := segs), Ensured(c, v))
  {
    GoodEnsure(c, st, st.segs, v);
    GoodMapped(c, st.(segs := EnsureDataSeg(c, st.segs)), segs, Ensured(c, v));
  }

  /** Header fields on the completed plan, where the op fires. */
  lemma HeaderGood(c: Ctx, st: PlanState, v: Wire, fires: bool, after: PlanState, w: Wire)
    requires Good(c, st, v) && after.drop == st.drop
    requires fires ==> |c.payload| > 0 && SameContent(EnsureDataSeg(c, st.segs), after.segs) && w == Ensured(c, v)
    requires !fires ==> after.segs == st.segs && w == v
    ensures Good(c, after, w)
  {
    if fires { EnsuredMapped(c, st, v, after.segs); }
  }

  lemma IpFrag2Means(c: Ctx, st: PlanState, v: Wire)
    requires Good(c, st, v)
    ensures Good(c, IpFrag2Op(c, st), Meaning(IpFrag2, c, v))
  {
    var after, ensured := IpFrag2Op(c, st), EnsureDataSeg(c, st.segs);
    if Plans(IpFrag2, c) { assert forall i :: 0 <= i < |ensured| ==> SameBytes(ensured[i], after.segs[i]); }
    HeaderGood(c, st, v, Plans(IpFrag2, c), after, Meaning(IpFrag2, c, v));
  }

  lemma DecoratedContent(c: Ctx, bit: FoolBit, st: PlanState)
    requires !c.udp
    ensures Decorate(c, bit, st).drop == st.drop
    ensures SameContent(EnsureDataSeg(c, st.segs), Decorate(c, bit, st).segs)
  {
    var after, ensured := Decorate(c, bit, st), EnsureDataSeg(c, st.segs);
    assert forall i :: 0 <= i < |ensured| ==> SameBytes(ensured[i], after.segs[i]);
  }

  lemma DecoratorFacts(op: Op, c: Ctx, st: PlanState, v: Wire)
    requires op.IpFrag1? || op.Ipv6Ext?
    ensures var after := Apply(op, c, st);
      && after.drop == st.drop
      && (Plans(op, c) ==> |c.payload| > 0 && SameContent(EnsureDataSeg(c, st.segs), after.segs))
      && (!Plans(op, c) ==> after.segs == st.segs)
      && Meaning(op, c, v) == if Plans(op, c) then Ensured(c, v) else v
  {
    if Plans(op, c) {
      DecoratedContent(c, IPFrag1Bit, st);
      DecoratedContent(c, HopByHop, st);
    }
  }

  lemma DecoratorMeans(op: Op, c: Ctx, st: PlanState, v: Wire)
    requires Good(c, st, v) && (op.IpFrag1? || op.Ipv6Ext?)
    ensures Good(c, Apply(op, c, st), Meaning(op, c, v))
  {
    DecoratorFacts(op, c, st, v);
    HeaderGood(c, st, v, Plans(op, c), Apply(op, c, st), Meaning(op, c, v));
  }

  /** Every op implements its meaning, on every packet. */
  lemma ApplyMeans(op: Op, c: Ctx, st: PlanState, v: Wire)
    requires Good(c, st, v)
    ensures Good(c, Apply(op, c, st), Meaning(op, c, v))
  {
    match op {
      case Block =>
      case SynData(data) => SynDataMeans(c, data, st, v);
      case Fake(knownOnly) => FakeMeans(c, knownOnly, st, v);
      case RstInject(ack) => RstMeans(c, ack, st, v);
      case Multisplit => MultiMeans(c, false, st, v);
      case Multidisorder => MultiMeans(c, true, st, v);
      case Fakedsplit => FakedsplitMeans(c, st, v);
      case Fakeddisorder => FakeddisorderMeans(c, st, v);
      case Hostfakesplit => HostfakesplitMeans(c, st, v);
      case Tamper => TamperMeans(c, st, v);
      case TlsRec => TlsRecMeans(c, st, v);
      case WsSize => WsSizeMeans(c, st, v);
      case IpId => IpIdMeans(c, st, v);
      case IpFrag1 => DecoratorMeans(op, c, st, v);
      case IpFrag2 => IpFrag2Means(c, st, v);
      case Ipv6Ext(_) => DecoratorMeans(op, c, st, v);
      case UdpLen =>
    }
  }

  lemma DegradeMeans(op: Op, c: Ctx, st: PlanState, v: Wire)
    requires Good(c, st, v)
    ensures Good(c, Degrade(op, c, st), DegradeMeaning(op, c, v))
  {
    match op {
      case Multisplit => MultiDegradeMeans(c, false, st, v);
      case Multidisorder => MultiDegradeMeans(c, true, st, v);
      case Fakedsplit => SplitDegradeMeans(c, st, v);
      case Fakeddisorder => SplitDegradeMeans(c, st, v);
      case Hostfakesplit => HostfakesplitDegradeMeans(c, st, v);
      case _ =>
    }
  }
}
