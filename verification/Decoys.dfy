/** Decoys: their pairing with the real parts they stand in for, and the fields that
    keep them from being taken for the real thing. */
module Decoys {
  import opened Types
  import opened AutoTTL
  import opened Positions
  import opened Spans
  import opened Rewriting
  import opened Ops
  import opened Streams
  import opened StreamMeaning
  import opened Chains

  // ---------- sequence groups ----------

  /** Groups are numbered without gaps, in the order of the segment ends, one group
      per distinct end. */
  predicate DenseRank(segs: seq<Seg>, out: seq<int>) {
    && |out| == |segs|
    && (forall i, j :: 0 <= i < |segs| && 0 <= j < |segs| ==> (out[i] < out[j] <==> segs[i].End() < segs[j].End()))
    && (forall i :: 0 <= i < |segs| ==> 0 <= out[i])
    && (forall i, g :: 0 <= i < |segs| && 0 <= g < out[i] ==> g in out)
  }

  function IndexIn(xs: seq<int>, x: int): (k: int)
    requires x in xs
    ensures 0 <= k < |xs| && xs[k] == x
  {
    if xs[0] == x then 0 else 1 + IndexIn(xs[1..], x)
  }

  predicate HasEnd(segs: seq<Seg>, n: int, e: int)
    requires n <= |segs|
  {
    exists j :: 0 <= j < n && segs[j].End() == e
  }

  lemma HasEndStep(segs: seq<Seg>, n: int, e: int)
    requires 0 <= n < |segs|
    ensures HasEnd(segs, n + 1, e) <==> HasEnd(segs, n, e) || e == segs[n].End()
  {
    if HasEnd(segs, n + 1, e) {
      var j :| 0 <= j < n + 1 && segs[j].End() == e;
    }
  }

  /** The distinct segment ends, in ascending order. */
  method DistinctEnds(segs: seq<Seg>) returns (ends: seq<int>)
    ensures Increasing(ends)
    ensures forall e :: e in ends <==> HasEnd(segs, |segs|, e)
  {
    ends := [];
    for i := 0 to |segs|
      invariant Increasing(ends)
      invariant forall e :: e in ends <==> HasEnd(segs, i, e)
    {
      ends := InsertPos(ends, segs[i].End());
      forall e ensures HasEnd(segs, i + 1, e) <==> HasEnd(segs, i, e) || e == segs[i].End() {
        HasEndStep(segs, i, e);
      }
    }
  }

  /** Numbers every segment with its sequence group. */
  method SeqGroups(segs: seq<Seg>) returns (out: seq<int>)
    ensures DenseRank(segs, out)
  {
    var ends := DistinctEnds(segs);
    out := [];
    for i := 0 to |segs|
      invariant |out| == i
      invariant forall j :: 0 <= j < i ==> 0 <= out[j] < |ends| && ends[out[j]] == segs[j].End()
    {
      assert HasEnd(segs, |segs|, segs[i].End());
      out := out + [IndexIn(ends, segs[i].End())];
    }
    IndexRanks(segs, ends, out);
  }

  lemma IndexRanks(segs: seq<Seg>, ends: seq<int>, out: seq<int>)
    requires Increasing(ends) && |out| == |segs|
    requires forall e :: e in ends <==> HasEnd(segs, |segs|, e)
    requires forall j :: 0 <= j < |segs| ==> 0 <= out[j] < |ends| && ends[out[j]] == segs[j].End()
    ensures DenseRank(segs, out)
  {
    forall i, g | 0 <= i < |segs| && 0 <= g < out[i] ensures g in out {
      assert ends[g] in ends;
      var j :| 0 <= j < |segs| && segs[j].End() == ends[g];
      assert ends[out[j]] == ends[g];
      assert out[j] == g;
    }
  }

  lemma LowerGroup(segs: seq<Seg>, out: seq<int>, i: int) returns (j: int)
    requires DenseRank(segs, out) && 0 <= i < |segs| && out[i] > 0
    ensures 0 <= j < |segs| && out[j] == out[i] - 1 && segs[j].End() < segs[i].End()
  {
    assert out[i] - 1 in out;
    j :| 0 <= j < |out| && out[j] == out[i] - 1;
  }

  /** The grouping is determined: two dense rankings agree everywhere. */
  lemma {:induction false} RankUnique(segs: seq<Seg>, a: seq<int>, b: seq<int>, i: int)
    requires DenseRank(segs, a) && DenseRank(segs, b) && 0 <= i < |segs|
    ensures a[i] == b[i]
    decreases a[i] + b[i]
  {
    if a[i] > 0 {
      var j := LowerGroup(segs, a, i);
      assert b[j] < b[i];
      var k := LowerGroup(segs, b, i);
      assert a[k] < a[i];
      RankUnique(segs, a, b, j);
      RankUnique(segs, a, b, k);
    } else if b[i] > 0 {
      var k := LowerGroup(segs, b, i);
    }
  }

  /** The two-part plan of fakedsplit or fakeddisorder. */
  function FakedSegs(c: Ctx, disorder: bool, order: nat, cut: nat, ovl: nat): seq<Seg>
    requires cut <= |c.payload|
  {
    if disorder then FakeddisorderSegs(c, order, cut, ovl) else FakedsplitSegs(c, order, cut, ovl)
  }

  /** Segment s belongs to the stretch [from, to): a decoy covers it exactly, a real
      part ends with it. */
  predicate OfPart(s: Seg, from: int, to: int) {
    s.End() == to && (s.kind == SegFake ==> s.seqOff == from) && s.kind in {SegFake, SegData}
  }

  /** In a faked two-part plan, behind whatever was injected earlier and with any
      overlap and decoy order, the groups are exactly the two parts: each decoy
      shares the group of the real part it covers, and the two parts differ. */
  lemma DecoysShareTheirPart(
    c: Ctx, disorder: bool, order: nat, cut: nat, ovl: nat, injected: seq<Seg>, out: seq<int>)
    requires 0 < cut < |c.payload|
    requires DenseRank(injected + FakedSegs(c, disorder, order, cut, ovl), out)
    ensures var plan, n := injected + FakedSegs(c, disorder, order, cut, ovl), |c.payload|;
      && (forall i :: |injected| <= i < |plan| ==> OfPart(plan[i], 0, cut) || OfPart(plan[i], cut, n))
      && (forall i, j :: |injected| <= i < |plan| && |injected| <= j < |plan| ==>
            (out[i] == out[j] <==> (plan[i].End() == cut <==> plan[j].End() == cut)))
      && (exists i, j :: |injected| <= i < |plan| && |injected| <= j < |plan|
            && IsData(plan[i]) && IsData(plan[j]) && plan[i].End() == cut && plan[j].End() == n && out[i] < out[j])
  {
    var segs, b, n := FakedSegs(c, disorder, order, cut, ovl), |injected|, |c.payload|;
    var plan := injected + segs;
    PartsOf(c, disorder, order, cut, ovl);
    forall i | b <= i < |plan| ensures plan[i] == segs[i - b] {}
    var i, j :| 0 <= i < |segs| && 0 <= j < |segs| && IsData(segs[i]) && IsData(segs[j])
      && segs[i].End() == cut && segs[j].End() == n;
    assert plan[i + b] == segs[i] && plan[j + b] == segs[j];
  }

  lemma PartsOf(c: Ctx, disorder: bool, order: nat, cut: nat, ovl: nat)
    requires 0 < cut < |c.payload|
    ensures var segs, n := FakedSegs(c, disorder, order, cut, ovl), |c.payload|;
      && (forall i :: 0 <= i < |segs| ==> OfPart(segs[i], 0, cut) || OfPart(segs[i], cut, n))
      && (exists i, j :: 0 <= i < |segs| && 0 <= j < |segs| && IsData(segs[i]) && IsData(segs[j])
            && segs[i].End() == cut && segs[j].End() == n)
  {
    var n, segs := |c.payload|, FakedSegs(c, disorder, order, cut, ovl);
    var o1, o2 := if disorder then 0 else ovl, if disorder then ovl else 0;
    TablePlaces(order, true, Decoy(c, 0, cut), RealPart(c, 0, cut, o1), Decoy(c, cut, n), RealPart(c, cut, n, o2));
    var i, j := if disorder then Late(order) else Early(order), if disorder then Early(order) else Late(order);
    assert segs[i] == RealPart(c, 0, cut, o1) && segs[j] == RealPart(c, cut, n, o2);
  }

  // ---------- what decoys and real segments carry ----------

  /** A (TTL, fooling) pair an op of the list asks for. */
  type Tag = (int, set<FoolBit>)

  /** Decoys and resets carry a tag from `tags` and go out at least once; real
      bytes keep the real TTL and are never fooled, except for the header options
      that are meant for them and the TTL of an emulated disorder. */
  predicate WellTagged(c: Ctx, tags: set<Tag>, s: Seg) {
    match s.kind
    case SegData => s.fool <= {HopByHop, IPFrag1Bit} && (s.ttl == 0 || (s.ttl == 1 && EmulatesDisorder(c.caps)))
    case SegSynData => s.fool == {} && s.ttl == 0
    case _ => (s.ttl, s.fool) in tags && s.repeats >= 1
  }

  /** Disorder is emulated with a TTL of 1 where segments cannot be sent out of order. */
  predicate EmulatesDisorder(caps: Caps) { !Covers(caps, Requires(Multidisorder)) }

  predicate AllTagged(c: Ctx, tags: set<Tag>, segs: seq<Seg>) {
    forall s :: s in segs ==> WellTagged(c, tags, s)
  }

  function TagOf(c: Ctx): Tag { (c.params.ttl, c.params.fool) }

  lemma {:induction false} NonDataTagged(c: Ctx, tags: set<Tag>, segs: seq<Seg>)
    requires AllTagged(c, tags, segs)
    ensures AllTagged(c, tags, NonData(segs))
    decreases |segs|
  {
    if |segs| > 0 {
      NonDataTagged(c, tags, segs[..|segs| - 1]);
    }
  }

  lemma {:induction false} FakesTagged(c: Ctx, tags: set<Tag>, kind: FakeKind, blobs: seq<Bytes>)
    requires TagOf(c) in tags
    ensures AllTagged(c, tags, FakeSegs(c, kind, blobs))
    decreases |blobs|
  {
    if |blobs| > 0 {
      FakesTagged(c, tags, kind, blobs[..|blobs| - 1]);
    }
  }

  /** The pieces of a split are bare: real TTL, no fooling. */
  predicate Bare(s: Seg) { IsData(s) && s.ttl == 0 && s.fool == {} }

  lemma MultiBare(c: Ctx, pos: seq<int>, disorder: bool)
    requires Cuts(pos, |c.payload|) && |pos| > 0 && MultiSegs(c, pos, disorder).Some?
    ensures var segs := MultiSegs(c, pos, disorder).value; forall i :: 0 <= i < |segs| ==> Bare(segs[i])
  {
    var segs := MultiSegs(c, pos, disorder).value;
    forall i | 0 <= i < |segs| ensures Bare(segs[i]) {
      assert segs[i] == Part(c, pos, i, if i == Target(disorder) then Overlap(c, pos, disorder) else 0);
    }
  }

  lemma MultiTagged(c: Ctx, tags: set<Tag>, pos: seq<int>, disorder: bool)
    requires Cuts(pos, |c.payload|) && |pos| > 0 && MultiSegs(c, pos, disorder).Some?
    ensures AllTagged(c, tags, MultiSegs(c, pos, disorder).value)
    ensures AllTagged(c, tags, Reverse(MultiSegs(c, pos, disorder).value))
  {
    MultiBare(c, pos, disorder);
  }

  lemma MappedTagged(c: Ctx, tags: set<Tag>, a: seq<Seg>, b: seq<Seg>)
    requires AllTagged(c, tags, a) && |a| == |b|
    requires forall i :: 0 <= i < |a| ==> WellTagged(c, tags, a[i]) ==> WellTagged(c, tags, b[i])
    ensures AllTagged(c, tags, b)
  {
    forall s | s in b ensures WellTagged(c, tags, s) {
      var i :| 0 <= i < |b| && b[i] == s;
      assert a[i] in a;
    }
  }

  lemma TablesTagged(c: Ctx, tags: set<Tag>, order: nat, two: bool, f1: Seg, r1: Seg, f2: Seg, r2: Seg)
    requires WellTagged(c, tags, f1) && WellTagged(c, tags, r1) && WellTagged(c, tags, f2) && WellTagged(c, tags, r2)
    ensures AllTagged(c, tags, FakedsplitTable(order, two, f1, r1, f2, r2))
    ensures AllTagged(c, tags, FakeddisorderTable(order, two, f1, r1, f2, r2))
  {
  }

  lemma FakedTagged(c: Ctx, tags: set<Tag>, order: nat, cut: nat, ovl: nat)
    requires TagOf(c) in tags && cut <= |c.payload|
    ensures AllTagged(c, tags, FakedsplitSegs(c, order, cut, ovl))
    ensures AllTagged(c, tags, FakeddisorderSegs(c, order, cut, ovl))
  {
    var n := |c.payload|;
    var f1, f2 := Decoy(c, 0, cut), Decoy(c, cut, n);
    TablesTagged(c, tags, order, cut < n, f1, RealPart(c, 0, cut, ovl), f2, RealPart(c, cut, n, 0));
    TablesTagged(c, tags, order, cut > 0, f1, RealPart(c, 0, cut, 0), f2, RealPart(c, cut, n, ovl));
  }

  lemma HostTagged(c: Ctx, tags: set<Tag>, host: nat, mid: nat, end: nat)
    requires TagOf(c) in tags && host < end <= |c.payload| && (mid != 0 ==> host < mid < end)
    ensures AllTagged(c, tags, HostfakesplitSegs(c, host, mid, end, HostDecoy(c, host, end)))
  {
  }

  lemma TakeOverTagged(c: Ctx, tags: set<Tag>, st: PlanState, segs: seq<Seg>)
    requires AllTagged(c, tags, st.segs) && AllTagged(c, tags, segs)
    ensures AllTagged(c, tags, TakeOver(st, segs).segs)
  {
    NonDataTagged(c, tags, st.segs);
  }

  lemma MultiOpTagged(c: Ctx, tags: set<Tag>, disorder: bool, st: PlanState)
    requires AllTagged(c, tags, st.segs)
    ensures AllTagged(c, tags, MultiOp(c, disorder, st).segs)
  {
    if MultiFires(c, disorder) {
      var pos := MultiPos(c, SplitSpecs(c.params));
      var segs := MultiSegs(c, pos, disorder).value;
      MultiTagged(c, tags, pos, disorder);
      TakeOverTagged(c, tags, st, if disorder then Reverse(segs) else segs);
    }
  }

  lemma FakedOpTagged(c: Ctx, tags: set<Tag>, disorder: bool, st: PlanState)
    requires AllTagged(c, tags, st.segs) && TagOf(c) in tags
    ensures AllTagged(c, tags, (if disorder then FakeddisorderOp(c, st) else FakedsplitOp(c, st)).segs)
  {
    var n, sp := |c.payload|, SinglePos(c, SplitSpecs(c.params));
    var order, cut := SplitOrder(c.params.altOrder, sp != 0), if sp == 0 && !disorder then n else sp;
    NonDataTagged(c, tags, st.segs);
    var ovl: nat := if c.params.seqovl < 0 then 0 else c.params.seqovl;
    FakedTagged(c, tags, order, cut, ovl);
    FakedTagged(c, tags, order, cut, 0);
  }

  lemma HostOpTagged(c: Ctx, tags: set<Tag>, st: PlanState)
    requires AllTagged(c, tags, st.segs) && TagOf(c) in tags
    ensures AllTagged(c, tags, HostfakesplitOp(c, st).segs)
  {
    var pos := MultiPos(c, HOST_SPECS);
    if |pos| == 2 {
      assert pos[0] < pos[1];
      var mid := MidHost(c, pos[0], pos[1]);
      HostTagged(c, tags, pos[0], mid, pos[1]);
      TakeOverTagged(c, tags, st, HostfakesplitSegs(c, pos[0], mid, pos[1], HostDecoy(c, pos[0], pos[1])));
    }
  }

  lemma RewriteTagged(c: Ctx, tags: set<Tag>, segs: seq<Seg>, e: Edit)
    requires AllTagged(c, tags, segs) && Editable(segs, e)
    ensures AllTagged(c, tags, Rewritten(segs, e))
  {
    var r := Rewritten(segs, e);
    forall i | 0 <= i < |segs|
      ensures r[i].kind == segs[i].kind && r[i].fool == segs[i].fool && r[i].ttl == segs[i].ttl && r[i].repeats == segs[i].repeats
    {
      if IsData(segs[i]) { EditFits(segs, e, IndexOf(DataIdx(segs), i)); }
    }
    MappedTagged(c, tags, segs, r);
  }

  lemma TamperTagged(c: Ctx, tags: set<Tag>, st: PlanState)
    requires AllTagged(c, tags, st.segs)
    ensures AllTagged(c, tags, TamperOp(c, st).segs)
  {
    var n := |c.payload|;
    if Joinable(st.segs, n) {
      var out := c.tamperHost(Joined(st.segs, n), Knobs(c.params));
      if |out| == n { RewriteTagged(c, tags, st.segs, Edit(n, out, 0, 0)); }
    }
  }

  lemma TlsRecTagged(c: Ctx, tags: set<Tag>, st: PlanState)
    requires AllTagged(c, tags, st.segs)
    ensures AllTagged(c, tags, TlsRecOp(c, st).segs)
  {
    var n, pos := |c.payload|, FindSplitPos(c.payload, c.info, TlsRecSpec(c.params));
    if 0 < pos < n && TLSRecordSplit(c.payload, pos).Some? && Joinable(st.segs, n) {
      var rec := TLSRecordSplit(c.payload, pos).value;
      RewriteTagged(c, tags, st.segs, Edit(n, rec, pos, |rec| - n));
    }
  }

  lemma EnsuredTagged(c: Ctx, tags: set<Tag>, segs: seq<Seg>)
    requires AllTagged(c, tags, segs)
    ensures AllTagged(c, tags, EnsureDataSeg(c, segs))
  {
  }

  lemma WsSizeTagged(c: Ctx, tags: set<Tag>, st: PlanState)
    requires AllTagged(c, tags, st.segs)
    ensures AllTagged(c, tags, WsSizeOp(c, st).segs)
  {
    EnsuredTagged(c, tags, st.segs);
    MappedTagged(c, tags, st.segs, WsTag(c, st.segs));
    MappedTagged(c, tags, EnsureDataSeg(c, st.segs), WsTag(c, EnsureDataSeg(c, st.segs)));
  }

  lemma DecorateTagged(c: Ctx, tags: set<Tag>, bit: FoolBit, st: PlanState)
    requires AllTagged(c, tags, st.segs) && bit in {HopByHop, IPFrag1Bit}
    ensures AllTagged(c, tags, Decorate(c, bit, st).segs)
  {
    EnsuredTagged(c, tags, st.segs);
    if !c.udp { MappedTagged(c, tags, EnsureDataSeg(c, st.segs), Decorate(c, bit, st).segs); }
  }

  lemma Frag2Tagged(c: Ctx, tags: set<Tag>, st: PlanState)
    requires AllTagged(c, tags, st.segs)
    ensures AllTagged(c, tags, IpFrag2Op(c, st).segs)
  {
    EnsuredTagged(c, tags, st.segs);
    if !c.synPkt && |c.payload| > 0 && !c.udp { MappedTagged(c, tags, EnsureDataSeg(c, st.segs), IpFrag2Op(c, st).segs); }
  }

  lemma IpIdTagged(c: Ctx, tags: set<Tag>, st: PlanState)
    requires AllTagged(c, tags, st.segs)
    ensures AllTagged(c, tags, IpIdOp(c, st).segs)
  {
    MappedTagged(c, tags, st.segs, IpIdOp(c, st).segs);
  }

  lemma HeaderTagged(op: Op, c: Ctx, tags: set<Tag>, st: PlanState)
    requires AllTagged(c, tags, st.segs)
    requires op.WsSize? || op.IpId? || op.IpFrag1? || op.IpFrag2? || op.Ipv6Ext? || op.UdpLen?
    ensures AllTagged(c, tags, Apply(op, c, st).segs)
  {
    match op {
      case WsSize => WsSizeTagged(c, tags, st);
      case IpId => IpIdTagged(c, tags, st);
      case IpFrag1 => DecorateTagged(c, tags, IPFrag1Bit, st);
      case IpFrag2 => Frag2Tagged(c, tags, st);
      case Ipv6Ext(_) => DecorateTagged(c, tags, HopByHop, st);
      case _ =>
    }
  }

  lemma InjectTagged(op: Op, c: Ctx, tags: set<Tag>, st: PlanState)
    requires AllTagged(c, tags, st.segs) && TagOf(c) in tags
    requires op.Fake? || op.RstInject? || op.SynData? || op.Block?
    ensures AllTagged(c, tags, Apply(op, c, st).segs)
  {
    if op.Fake? {
      var kind := KindOfFake(KnownL7(c), c.udp);
      FakesTagged(c, tags, kind, c.fakes(kind, c.params.ownFakes));
    }
  }

  lemma ApplyTagged(op: Op, c: Ctx, tags: set<Tag>, st: PlanState)
    requires AllTagged(c, tags, st.segs) && TagOf(c) in tags
    ensures AllTagged(c, tags, Apply(op, c, st).segs)
  {
    match op {
      case SynData(_) => InjectTagged(op, c, tags, st);
      case Fake(_) => InjectTagged(op, c, tags, st);
      case RstInject(_) => InjectTagged(op, c, tags, st);
      case Block => InjectTagged(op, c, tags, st);
      case Tamper => TamperTagged(c, tags, st);
      case TlsRec => TlsRecTagged(c, tags, st);
      case WsSize => HeaderTagged(op, c, tags, st);
      case IpId => HeaderTagged(op, c, tags, st);
      case IpFrag1 => HeaderTagged(op, c, tags, st);
      case IpFrag2 => HeaderTagged(op, c, tags, st);
      case Ipv6Ext(_) => HeaderTagged(op, c, tags, st);
      case UdpLen => HeaderTagged(op, c, tags, st);
      case Multisplit => MultiOpTagged(c, tags, false, st);
      case Multidisorder => MultiOpTagged(c, tags, true, st);
      case Fakedsplit => FakedOpTagged(c, tags, false, st);
      case Fakeddisorder => FakedOpTagged(c, tags, true, st);
      case Hostfakesplit => HostOpTagged(c, tags, st);
    }
  }

  lemma BareTagged(c: Ctx, tags: set<Tag>, segs: seq<Seg>, disorder: bool)
    requires |segs| > 0 && (forall i :: 0 <= i < |segs| ==> Bare(segs[i])) && (disorder ==> EmulatesDisorder(c.caps))
    ensures AllTagged(c, tags, if disorder then segs[0 := segs[0].(ttl := 1)] else segs)
  {
  }

  lemma MultiDegradeTagged(c: Ctx, tags: set<Tag>, disorder: bool, st: PlanState)
    requires AllTagged(c, tags, st.segs) && (disorder ==> EmulatesDisorder(c.caps))
    ensures AllTagged(c, tags, MultiDegrade(c, disorder, st).segs)
  {
    var pos, d := MultiPos(c, SplitSpecs(c.params)), WithoutSeq(c);
    if |pos| > 0 {
      MultiBare(d, pos, disorder);
      BareTagged(c, tags, MultiSegs(d, pos, disorder).value, disorder);
    }
  }

  lemma StepTagged(c: Ctx, co: CompiledOp, policy: Policy, tags: set<Tag>, st: PlanState)
    requires AllTagged(c, tags, st.segs) && TagOf(For(c, co)) in tags
    ensures var r := Step(c, co, policy, st); r.Some? ==> AllTagged(c, tags, r.value.segs)
  {
    var d := For(c, co);
    assert AllTagged(d, tags, st.segs);
    if Applied(c, co) {
      ApplyTagged(co.op, d, tags, st);
      forall s | s in Apply(co.op, d, st).segs ensures WellTagged(c, tags, s) { assert WellTagged(d, tags, s); }
    } else if policy == DegradeIt {
      if co.op.Multisplit? || co.op.Multidisorder? { MultiDegradeTagged(d, tags, co.op.Multidisorder?, st); }
      forall s | s in Degrade(co.op, d, st).segs ensures WellTagged(c, tags, s) { assert WellTagged(d, tags, s); }
    }
  }

  /** The tags the list's own parameters produce. */
  function Tags(ops: seq<CompiledOp>, c: Ctx): (r: set<Tag>) {
    set i | 0 <= i < |ops| :: TagOf(For(c, ops[i]))
  }

  lemma {:induction false} RunTagged(ops: seq<CompiledOp>, c: Ctx, policy: Policy, tags: set<Tag>, st: PlanState)
    requires AllTagged(c, tags, st.segs)
    requires forall i :: 0 <= i < |ops| ==> TagOf(For(c, ops[i])) in tags
    ensures var r := RunFrom(ops, c, policy, st); r.Some? ==> AllTagged(c, tags, r.value.segs)
    decreases |ops|
  {
    if |ops| > 0 {
      StepTagged(c, ops[0], policy, tags, st);
      match Step(c, ops[0], policy, st) {
        case None =>
        case Some(st') => RunTagged(ops[1..], c, policy, tags, st');
      }
    }
  }

  /** In every plan of every list, a decoy or reset goes out with the TTL and the
      fooling some op of the list asked for, at least once; real bytes keep the real
      TTL, but for the emulated disorder, and carry no fooling but a header option meant
      for them. */
  lemma DecoysAreMarked(ops: seq<CompiledOp>, c: Ctx, policy: Policy)
    requires Run(ops, c, policy).Some?
    ensures AllTagged(c, Tags(ops, c), Run(ops, c, policy).value.segs)
  {
    RunTagged(ops, c, policy, Tags(ops, c), EMPTY_PLAN);
  }

  predicate AskedBy(co: CompiledOp, hops: int, s: Seg) {
    s.fool == co.params.fool && Asks(co.params, hops, s.ttl)
  }

  /** Every decoy or reset goes out with the fooling one op of the list is configured
      with and the TTL that op asks for: its own, or the resolved one with autottl. */
  lemma DecoysCarryConfigured(ops: seq<CompiledOp>, c: Ctx, policy: Policy, observed: int, s: Seg)
    requires Run(ops, c, policy).Some? && s in Run(ops, c, policy).value.segs && s.kind in {SegFake, SegRST}
    requires 0 <= observed < 256 && c.flow.hops == HopsFromTTL(observed)
    requires forall i :: 0 <= i < |ops| ==> ByteParams(ops[i].params)
    ensures exists i :: 0 <= i < |ops| && AskedBy(ops[i], c.flow.hops, s)
  {
    DecoysAreMarked(ops, c, policy);
    assert WellTagged(c, Tags(ops, c), s);
    var i :| 0 <= i < |ops| && TagOf(For(c, ops[i])) == (s.ttl, s.fool);
    AutoTTLExact(ops[i].params, observed);
    assert AskedBy(ops[i], c.flow.hops, s);
  }
}
