/** The plan as the mutable object the ops edit, and every op as the method that
    edits it. Each method is proved equal to the op's definition on plan values. */
module PlanObject {
  import opened Types
  import opened AutoTTL
  import opened Positions
  import opened Spans
  import opened Rewriting
  import opened Ops
  import opened Buffers
  import opened Chains
  import opened Transmission
  import opened Marks
  import opened Editing

  class Plan {
    var segs: seq<Seg>
    var dgrams: seq<Dgram>
    var drop: bool

    function State(): PlanState
      reads this
    {
      PlanState(segs, dgrams, drop)
    }

    constructor ()
      ensures State() == EMPTY_PLAN
    {
      segs, dgrams, drop := [], [], false;
    }

    /** Drops every real segment, keeps injected ones in their order. */
    method TakeOverData()
      modifies this`segs
      ensures segs == NonData(old(segs))
    {
      var kept := [];
      for i := 0 to |segs|
        invariant segs == old(segs) && kept == NonData(segs[..i])
      {
        assert segs[..i + 1][..i] == segs[..i];
        if segs[i].kind != SegData {
          kept := kept + [segs[i]];
        }
      }
      assert segs[..|segs|] == segs;
      segs := kept;
    }

    method InsertBeforeData(injected: seq<Seg>)
      modifies this`segs
      ensures segs == InsertSegs(old(segs), injected)
    {
      if |injected| == 0 {
        return;
      }
      var at := 0;
      while at < |segs| && segs[at].kind != SegData
        invariant at <= |segs| && FirstData(segs) == at + FirstData(segs[at..])
      {
        at := at + 1;
      }
      segs := segs[..at] + injected + segs[at..];
    }

    /** Puts the real payload into the plan when nothing else has. */
    method EnsureData(c: Ctx)
      modifies this`segs
      ensures segs == EnsureDataSeg(c, old(segs))
    {
      if |c.payload| == 0 {
        return;
      }
      for i := 0 to |segs|
        invariant segs == old(segs) && forall j :: 0 <= j < i ==> segs[j].kind != SegData
      {
        if segs[i].kind == SegData {
          return;
        }
      }
      segs := segs + [PlainData(c.payload)];
    }

    method InsertDgramsBeforeData(injected: seq<Dgram>)
      modifies this`dgrams
      ensures dgrams == InsertDgrams(old(dgrams), injected)
    {
      if |injected| == 0 {
        return;
      }
      var at := 0;
      while at < |dgrams| && dgrams[at].kind != SegData
        invariant at <= |dgrams| && FirstDataDgram(dgrams) == at + FirstDataDgram(dgrams[at..])
      {
        at := at + 1;
      }
      dgrams := dgrams[..at] + injected + dgrams[at..];
    }

    method EnsureDgram(c: Ctx)
      modifies this`dgrams
      ensures dgrams == EnsureDataDgram(c, old(dgrams))
    {
      if |c.payload| == 0 {
        return;
      }
      for i := 0 to |dgrams|
        invariant dgrams == old(dgrams) && forall j :: 0 <= j < i ==> dgrams[j].kind != SegData
      {
        if dgrams[i].kind == SegData {
          return;
        }
      }
      dgrams := dgrams + [Dgram(SegData, c.payload, 0, {}, 0, 0)];
    }

    /** Rewrites header fields of every segment in place. */
    method UpdateSegs(f: Seg -> Seg)
      modifies this`segs
      ensures segs == MapSegs(old(segs), f)
    {
      for i := 0 to |segs|
        invariant |segs| == |old(segs)|
        invariant forall j :: 0 <= j < |segs| ==> segs[j] == if j < i then f(old(segs)[j]) else old(segs)[j]
      {
        segs := segs[i := f(segs[i])];
      }
    }

    method UpdateDgrams(f: Dgram -> Dgram)
      modifies this`dgrams
      ensures dgrams == MapDgrams(old(dgrams), f)
    {
      for i := 0 to |dgrams|
        invariant |dgrams| == |old(dgrams)|
        invariant forall j :: 0 <= j < |dgrams| ==> dgrams[j] == if j < i then f(old(dgrams)[j]) else old(dgrams)[j]
      {
        dgrams := dgrams[i := f(dgrams[i])];
      }
    }

    /** The real segments' indices, by stream offset. */
    method DataIndices() returns (idx: seq<int>)
      ensures idx == DataIdx(segs)
    {
      idx := [];
      for i := 0 to |segs|
        invariant idx == DataIdxUpTo(segs, i)
      {
        if segs[i].kind == SegData {
          idx := InsertIdx(segs, idx, i);
        }
      }
    }
  }

  // ---------- injection ops ----------

  /** Puts one decoy datagram per non-empty blob in front of the real ones. */
  method InjectDgrams(c: Ctx, blobs: seq<Bytes>, p: Plan)
    modifies p
    ensures p.State() == old(p.State()).(dgrams := EnsureDataDgram(c, InsertDgrams(old(p.dgrams), FakeDgrams(c, blobs))))
  {
    var dgrams: seq<Dgram> := [];
    for i := 0 to |blobs|
      invariant p.State() == old(p.State()) && dgrams == FakeDgrams(c, blobs[..i])
    {
      assert blobs[..i + 1][..i] == blobs[..i];
      if |blobs[i]| == 0 {
        continue;
      }
      dgrams := dgrams + [Dgram(SegFake, blobs[i], c.params.ttl, c.params.fool, InjRepeats(c.params), 0)];
    }
    assert blobs[..|blobs|] == blobs;
    p.InsertDgramsBeforeData(dgrams);
    p.EnsureDgram(c);
  }

  /** The same for segments; a TLS decoy goes out in its modified form. */
  method InjectSegs(c: Ctx, kind: FakeKind, blobs: seq<Bytes>, p: Plan)
    modifies p
    ensures p.State() == old(p.State()).(segs := EnsureDataSeg(c, InsertSegs(old(p.segs), FakeSegs(c, kind, blobs))))
  {
    var segs: seq<Seg> := [];
    for i := 0 to |blobs|
      invariant p.State() == old(p.State()) && segs == FakeSegs(c, kind, blobs[..i])
    {
      assert blobs[..i + 1][..i] == blobs[..i];
      if |blobs[i]| == 0 {
        continue;
      }
      var data := blobs[i];
      if kind == FakeTls {
        data := c.modTls(data, c.params.ownFakes);
      }
      segs := segs + [Seg(SegFake, data, 0, c.params.ttl, c.params.fool, InjRepeats(c.params), {}, c.params.ipid, 0, 0, 0)];
    }
    assert blobs[..|blobs|] == blobs;
    p.InsertBeforeData(segs);
    p.EnsureData(c);
  }

  method FakeApply(c: Ctx, knownOnly: bool, p: Plan)
    modifies p
    ensures p.State() == FakeOp(c, knownOnly, old(p.State()))
    ensures FakeLeaves(c, knownOnly, old(p.State()), p.State())
  {
    FakeTransmits(c, knownOnly, p.State());
    if c.synPkt || |c.payload| == 0 {
      return;
    }
    var l7 := KnownL7(c);
    if knownOnly && l7 == {Unrecognised} {
      return;
    }
    var kind := KindOfFake(l7, c.udp);
    var blobs := c.fakes(kind, c.params.ownFakes);
    if c.udp {
      InjectDgrams(c, blobs, p);
    } else {
      InjectSegs(c, kind, blobs, p);
    }
  }

  method RstApply(c: Ctx, ack: bool, p: Plan)
    modifies p
    ensures p.State() == RstOp(c, ack, old(p.State()))
    ensures exists at: nat :: RstLeaves(c, ack, old(p.State()), p.State(), at)
  {
    ghost var _ := RstMarks(c, ack, p.State());
    if c.synPkt || |c.payload| == 0 || c.udp {
      return;
    }
    p.InsertBeforeData([RstSeg(c, ack)]);
    p.EnsureData(c);
  }

  method SynDataApply(c: Ctx, synData: Bytes, p: Plan)
    modifies p
    ensures p.State() == SynDataOp(c, synData, old(p.State()))
    ensures SynDataLeaves(c, synData, old(p.State()), p.State())
  {
    SynDataMarks(c, synData, p.State());
    if !c.synPkt || c.udp || |c.payload| != 0 {
      return;
    }
    p.segs := p.segs + [SynSeg(c, synData)];
  }

  method BlockApply(p: Plan)
    modifies p
    ensures p.State() == PlanState([], [], true)
  {
    p.segs, p.dgrams, p.drop := [], [], true;
  }

  // ---------- split ops ----------

  /** Cuts the payload at pos; ok is false when the overlapped part is too long. */
  method MultiSegments(c: Ctx, pos: seq<int>, disorder: bool) returns (segs: seq<Seg>, ok: bool)
    requires Cuts(pos, |c.payload|) && |pos| > 0
    ensures MultiSegs(c, pos, disorder) == if ok then Some(segs) else None
  {
    var target := if disorder then 1 else 0;
    var ovl := c.params.seqovl;
    if ovl <= 0 {
      ovl := 0;
    } else if !c.caps.seqNo {
      ovl := 0;
    } else if disorder && ovl >= pos[0] {
      ovl := 0;
    }
    segs := [];
    var from := 0;
    for i := 0 to |pos| + 1
      invariant |segs| == i && from == Bound(c, pos, i)
      invariant forall j :: 0 <= j < i ==> segs[j] == Part(c, pos, j, if j == target then ovl else 0)
      invariant i > target && ovl > 0 ==> ovl + (Bound(c, pos, target + 1) - Bound(c, pos, target)) <= MAX_SEG
    {
      BoundsIncrease(c, pos, i);
      var to := |c.payload|;
      if i < |pos| {
        to := pos[i];
      }
      if ovl > 0 && i == target {
        if ovl + (to - from) > MAX_SEG {
          return [], false;
        }
        var junk := TilePattern(ovl, c.params.seqovlPattern, 0);
        segs := segs + [DataSeg(junk + c.payload[from..to], from - ovl, c.params)];
      } else {
        assert c.payload[from..to] == [] + c.payload[from..to];
        segs := segs + [DataSeg(c.payload[from..to], from, c.params)];
      }
      from := to;
    }
    ok := true;
    assert segs == MultiSegs(c, pos, disorder).value;
  }

  method MultiApply(c: Ctx, disorder: bool, p: Plan)
    modifies p
    ensures p.State() == MultiOp(c, disorder, old(p.State()))
    ensures SplitLeaves(c, disorder, old(p.State()), p.State())
  {
    MultiLeaves(c, disorder, p.State());
    var pos := ResolveMultiPos(c, SplitSpecs(c.params));
    if |pos| == 0 {
      return;
    }
    var segs, ok := MultiSegments(c, pos, disorder);
    if !ok {
      return;
    }
    if disorder {
      segs := Reverse(segs);
    }
    p.TakeOverData();
    p.segs := p.segs + segs;
    p.drop := true;
  }

  method MultiDegradeApply(c: Ctx, disorder: bool, p: Plan)
    modifies p
    ensures p.State() == MultiDegrade(c, disorder, old(p.State()))
    ensures RelaySplitLeaves(c, disorder, old(p.State()), p.State())
  {
    MultiDegradeLeaves(c, disorder, p.State());
    var pos := ResolveMultiPos(c, SplitSpecs(c.params));
    if |pos| == 0 {
      return;
    }
    var segs, ok := MultiSegments(WithoutSeq(c), pos, disorder);
    if !ok {
      return;
    }
    if disorder {
      segs := segs[0 := segs[0].(ttl := 1)];
    }
    p.segs := segs;
    p.drop := true;
  }

  lemma SlicedDecoy(c: Ctx, pat: Bytes, from: nat, to: nat)
    requires from <= to <= |c.payload| && pat == FillPattern(|c.payload|, c.params.pattern, 0)
    ensures FakeSeg(pat[from..to], from, c.params) == Decoy(c, from, to)
  {
  }

  /** Prepends the overlap to a real part. */
  method Overlapped(c: Ctx, from: nat, to: nat, ovl: nat) returns (s: Seg)
    requires from <= to <= |c.payload|
    ensures s == RealPart(c, from, to, ovl)
  {
    var part := c.payload[from..to];
    if ovl > 0 {
      var junk := TilePattern(ovl, c.params.seqovlPattern, 0);
      part := junk + part;
    } else {
      assert part == [] + part;
    }
    s := DataSeg(part, from - ovl, c.params);
  }

  /** Emits decoy and real part around one another, in the order the code does it. */
  method Emit(p: Plan, before: bool, fake: Seg, part: Seg, after: bool)
    modifies p`segs
    ensures p.segs == old(p.segs) + (if before then [fake] else []) + [part] + (if after then [fake] else [])
  {
    if before {
      p.segs := p.segs + [fake];
    }
    p.segs := p.segs + [part];
    if after {
      p.segs := p.segs + [fake];
    }
  }

  /** Emits a faked split at `cut`, or rolls back to the plan as it was and plans the
      payload uncut when the overlapped part is too long. */
  method FakedsplitEmit(c: Ctx, p: Plan, order: nat, cut: nat, ovl: nat)
    requires cut <= |c.payload| && order < 4
    modifies p
    ensures p.dgrams == old(p.dgrams)
    ensures ovl > 0 && ovl + cut > MAX_SEG ==> p.segs == EnsureDataSeg(c, old(p.segs)) && p.drop == old(p.drop)
    ensures !(ovl > 0 && ovl + cut > MAX_SEG) ==>
      p.segs == old(p.segs) + FakedsplitSegs(c, order, cut, ovl) && p.drop
  {
    var n, base := |c.payload|, |p.segs|;
    var pat := TilePattern(n, c.params.pattern, 0);
    SlicedDecoy(c, pat, 0, cut);
    SlicedDecoy(c, pat, cut, n);
    var fake1, fake2 := FakeSeg(pat[0..cut], 0, c.params), FakeSeg(pat[cut..n], cut, c.params);
    if order == 0 {
      p.segs := p.segs + [fake1];
    }
    if ovl > 0 && ovl + cut > MAX_SEG {
      p.segs := p.segs[..base];
      assert p.segs == old(p.segs);
      p.EnsureData(c);
      return;
    }
    var part1 := Overlapped(c, 0, cut, ovl);
    Emit(p, false, fake1, part1, order <= 1);
    if cut < n {
      var part2 := Overlapped(c, cut, n, 0);
      Emit(p, true, fake2, part2, order <= 2);
    }
    p.drop := true;
    FakedsplitOrder(old(p.segs), order, cut < n, fake1, part1, fake2, RealPart(c, cut, n, 0), p.segs);
  }

  method FakedsplitApply(c: Ctx, p: Plan)
    modifies p
    ensures p.State() == FakedsplitOp(c, old(p.State()))
    ensures FakedsplitLeaves(c, old(p.State()), p.State())
  {
    FakedsplitTransmits(c, p.State());
    var n := |c.payload|;
    if n > MAX_FAKE {
      return;
    }
    p.TakeOverData();
    var splitPos := ResolveSinglePos(c, SplitSpecs(c.params));
    var order := SplitOrder(c.params.altOrder, splitPos != 0);
    if splitPos == 0 {
      splitPos := n;
    }
    var ovl := c.params.seqovl;
    if ovl < 0 || splitPos >= n || !c.caps.seqNo {
      ovl := 0;
    }
    FakedsplitEmit(c, p, order, splitPos, ovl);
  }

  lemma FakedsplitOrder(kept: seq<Seg>, order: nat, two: bool, f1: Seg, r1: Seg, f2: Seg, r2: Seg, segs: seq<Seg>)
    requires order < 4
    requires segs == kept + (if order == 0 then [f1] else []) + [r1] + (if order <= 1 then [f1] else [])
      + (if two then [f2] + [r2] + (if order <= 2 then [f2] else []) else [])
    ensures segs == kept + FakedsplitTable(order, two, f1, r1, f2, r2)
  {
  }

  /** The same for a faked disorder, whose second part goes out first. */
  method FakeddisorderEmit(c: Ctx, p: Plan, order: nat, cut: nat, ovl: nat)
    requires cut <= |c.payload| && order < 4
    modifies p
    ensures p.dgrams == old(p.dgrams)
    ensures ovl > 0 && ovl + (|c.payload| - cut) > MAX_SEG ==>
      p.segs == EnsureDataSeg(c, old(p.segs)) && p.drop == old(p.drop)
    ensures !(ovl > 0 && ovl + (|c.payload| - cut) > MAX_SEG) ==>
      p.segs == old(p.segs) + FakeddisorderSegs(c, order, cut, ovl) && p.drop
  {
    var n, base := |c.payload|, |p.segs|;
    var pat := TilePattern(n, c.params.pattern, 0);
    SlicedDecoy(c, pat, 0, cut);
    SlicedDecoy(c, pat, cut, n);
    var fake1, fake2 := FakeSeg(pat[0..cut], 0, c.params), FakeSeg(pat[cut..n], cut, c.params);
    if order == 0 {
      p.segs := p.segs + [fake2];
    }
    if ovl > 0 && ovl + (n - cut) > MAX_SEG {
      p.segs := p.segs[..base];
      assert p.segs == old(p.segs);
      p.EnsureData(c);
      return;
    }
    var part2 := Overlapped(c, cut, n, ovl);
    Emit(p, false, fake2, part2, order <= 1);
    if cut > 0 {
      var part1 := Overlapped(c, 0, cut, 0);
      Emit(p, true, fake1, part1, order <= 2);
    }
    p.drop := true;
    FakeddisorderOrder(old(p.segs), order, cut > 0, fake1, RealPart(c, 0, cut, 0), fake2, part2, p.segs);
  }

  method FakeddisorderApply(c: Ctx, p: Plan)
    modifies p
    ensures p.State() == FakeddisorderOp(c, old(p.State()))
    ensures FakeddisorderLeaves(c, old(p.State()), p.State())
  {
    FakeddisorderTransmits(c, p.State());
    if |c.payload| > MAX_FAKE {
      return;
    }
    p.TakeOverData();
    var splitPos := ResolveSinglePos(c, SplitSpecs(c.params));
    var order := SplitOrder(c.params.altOrder, splitPos != 0);
    var ovl := c.params.seqovl;
    if ovl <= 0 {
      ovl := 0;
    } else if !c.caps.seqNo || splitPos == 0 || ovl >= splitPos {
      ovl := 0;
    }
    FakeddisorderEmit(c, p, order, splitPos, ovl);
  }

  lemma FakeddisorderOrder(kept: seq<Seg>, order: nat, two: bool, f1: Seg, r1: Seg, f2: Seg, r2: Seg, segs: seq<Seg>)
    requires order < 4
    requires segs == kept + (if order == 0 then [f2] else []) + [r2] + (if order <= 1 then [f2] else [])
      + (if two then [f1] + [r1] + (if order <= 2 then [f1] else []) else [])
    ensures segs == kept + FakeddisorderTable(order, two, f1, r1, f2, r2)
  {
  }

  method SplitDegradeApply(c: Ctx, p: Plan)
    modifies p
    ensures p.State() == SplitDegrade(c, old(p.State()))
    ensures FakedRelayLeaves(c, old(p.State()), p.State())
  {
    FakedDegradeTransmits(c, p.State());
    var pos := ResolveSinglePos(c, SplitSpecs(c.params));
    if pos <= 0 || pos >= |c.payload| {
      return;
    }
    var part1, part2 := DataSeg(c.payload[..pos], 0, c.params), DataSeg(c.payload[pos..], pos, c.params);
    assert part1 == RealPart(c, 0, pos, 0) && part2 == RealPart(c, pos, |c.payload|, 0);
    p.segs := [part1, part2];
    p.drop := true;
  }

  // ---------- hostfakesplit ----------

  method HostPieces(c: Ctx, host: nat, mid: nat, end: nat) returns (parts: seq<Seg>)
    requires host < end <= |c.payload| && (mid != 0 ==> host < mid < end)
    ensures parts == HostParts(c, host, mid, end)
  {
    if mid != 0 {
      var h1 := Overlapped(c, host, mid, 0);
      var h2 := Overlapped(c, mid, end, 0);
      return [h1, h2];
    }
    var h := Overlapped(c, host, end, 0);
    return [h];
  }

  /** altorder 1 sends the request with the wrong host first, the real host last. */
  method HostEmit(p: Plan, late: bool, before: Seg, fake: Seg, realHost: seq<Seg>, after: Seg)
    modifies p`segs
    ensures p.segs == old(p.segs) + HostTable(late, before, fake, realHost, after)
  {
    p.segs := p.segs + [before, fake];
    if late {
      p.segs := p.segs + [after];
      p.segs := p.segs + realHost;
    } else {
      p.segs := p.segs + realHost;
      p.segs := p.segs + [fake, after];
    }
  }

  /** Plans the payload around a hostname that lies at [host, end). */
  method ReplaceHost(c: Ctx, p: Plan, host: nat, end: nat)
    requires 0 < host < end < |c.payload|
    modifies p
    ensures p.State() == TakeOver(old(p.State()), HostfakesplitSegs(c, host, MidHost(c, host, end), end, HostDecoy(c, host, end)))
  {
    var mid := MidHost(c, host, end);
    var name := MakeFakeHost(end - host, c.params.hostTemplate, c.random);
    var fake := FakeSeg(name, host, c.params);
    assert fake == HostDecoy(c, host, end);
    var before := Overlapped(c, 0, host, 0);
    var after := Overlapped(c, end, |c.payload|, 0);
    var realHost := HostPieces(c, host, mid, end);
    p.TakeOverData();
    HostEmit(p, c.params.altOrder == 1, before, fake, realHost, after);
    p.drop := true;
  }

  method HostfakesplitApply(c: Ctx, p: Plan)
    modifies p
    ensures p.State() == HostfakesplitOp(c, old(p.State()))
    ensures HostfakesplitLeaves(c, old(p.State()), p.State())
  {
    HostfakesplitTransmits(c, p.State());
    var pos := ResolveMultiPos(c, HOST_SPECS);
    if |pos| != 2 {
      return;
    }
    assert pos[0] < pos[1];
    ReplaceHost(c, p, pos[0], pos[1]);
  }

  /** Where each plain part starts and ends. */
  predicate Runs(bounds: seq<int>, n: nat) {
    forall i :: 0 <= i < |bounds| ==> 0 <= StartOf(bounds, i) <= bounds[i] <= n
  }

  function StartOf(bounds: seq<int>, i: nat): int
    requires i < |bounds|
  {
    if i == 0 then 0 else bounds[i - 1]
  }

  function PartTo(c: Ctx, bounds: seq<int>, i: nat): Seg
    requires Runs(bounds, |c.payload|) && i < |bounds|
  {
    RealPart(c, StartOf(bounds, i), bounds[i], 0)
  }

  /** Replaces the plan with plain parts that end at the bounds. */
  method SendParts(c: Ctx, p: Plan, bounds: seq<int>)
    requires Runs(bounds, |c.payload|)
    modifies p
    ensures p.dgrams == old(p.dgrams) && p.drop && |p.segs| == |bounds|
    ensures forall i :: 0 <= i < |bounds| ==> p.segs[i] == PartTo(c, bounds, i)
  {
    p.segs := [];
    var from := 0;
    for i := 0 to |bounds|
      invariant i < |bounds| ==> from == StartOf(bounds, i)
      invariant |p.segs| == i && forall j :: 0 <= j < i ==> p.segs[j] == PartTo(c, bounds, j)
      invariant p.dgrams == old(p.dgrams) && p.drop == old(p.drop)
    {
      assert 0 <= StartOf(bounds, i) <= bounds[i] <= |c.payload|;
      var part := Overlapped(c, from, bounds[i], 0);
      assert part == PartTo(c, bounds, i);
      p.segs := p.segs + [part];
      from := bounds[i];
    }
    p.drop := true;
  }

  method HostfakesplitDegradeApply(c: Ctx, p: Plan)
    modifies p
    ensures p.State() == HostfakesplitDegrade(c, old(p.State()))
    ensures exists mid: nat :: HostRelayLeaves(c, old(p.State()), p.State(), mid)
  {
    ghost var mid := HostDegradeTransmits(c, p.State());
    var pos := ResolveMultiPos(c, HOST_SPECS);
    if |pos| != 2 {
      return;
    }
    assert pos[0] < pos[1];
    ghost var host, end := pos[0], pos[1];
    var m := MidHost(c, pos[0], pos[1]);
    if m != 0 {
      pos := [pos[0], m, pos[1]];
    }
    SendParts(c, p, pos + [|c.payload|]);
    assert p.segs == [RealPart(c, 0, host, 0)] + HostParts(c, host, m, end) + [RealPart(c, end, |c.payload|, 0)];
  }

  // ---------- tamper, tlsrec ----------

  datatype Span = Span(idx: int, prefix: int, from: int, to: int)

  /** The spans the reassembly walk reports for the first n data segments. */
  predicate SpansOf(segs: seq<Seg>, idx: seq<int>, spans: seq<Span>)
    requires SortedIdx(segs, idx)
  {
    |spans| <= |idx| && forall k :: 0 <= k < |spans| ==>
      spans[k] == Span(idx[k], Prefix(segs, idx, k), From(segs, idx, k), segs[idx[k]].End())
  }

  /** Walks the data segments in stream order; ok says they tile [0, want). */
  method SegSpans(segs: seq<Seg>, idx: seq<int>, want: int) returns (spans: seq<Span>, ok: bool)
    requires SortedIdx(segs, idx)
    ensures ok <==> Accepts(segs, idx, want)
    ensures ok ==> |spans| == |idx| && SpansOf(segs, idx, spans)
  {
    spans := [];
    var pos := 0;
    for i := 0 to |idx|
      invariant |spans| == i && SpansOf(segs, idx, spans) && pos == From(segs, idx, i)
      invariant forall k :: 0 <= k < i ==> SpanFits(segs, idx, k, want)
    {
      var s := segs[idx[i]];
      var prefix := pos - s.seqOff;
      if prefix < 0 || prefix > |s.data| {
        assert !SpanFits(segs, idx, i, want);
        return [], false;
      }
      var end := s.seqOff + |s.data|;
      if end > want {
        assert !SpanFits(segs, idx, i, want);
        return [], false;
      }
      spans := spans + [Span(idx[i], prefix, pos, end)];
      pos := end;
    }
    ok := pos == want;
  }

  /** The payload the data segments carry. */
  method SegJoinData(segs: seq<Seg>, want: int) returns (payload: Bytes, ok: bool)
    ensures ok <==> Joinable(segs, want)
    ensures ok ==> payload == Joined(segs, want)
  {
    var idx := DataIdx(segs);
    var spans, fits := SegSpans(segs, idx, want);
    if !fits {
      return [], false;
    }
    payload, ok := [], true;
    for i := 0 to |spans|
      invariant payload == JoinUpTo(segs, idx, i, want)
    {
      assert SpanFits(segs, idx, i, want);
      payload := payload + segs[spans[i].idx].data[spans[i].prefix..];
    }
  }

  /** One span written back, unless its remapped bounds are out of range. */
  function SpanEdited(segs: seq<Seg>, sp: Span, e: Edit): seq<Seg>
    requires 0 <= sp.idx < |segs| && 0 <= sp.prefix <= |segs[sp.idx].data|
  {
    var s, nf, nt := segs[sp.idx], e.Moved(sp.from), e.Moved(sp.to);
    if nf < 0 || nt > |e.edited| || nf > nt then segs
    else segs[sp.idx := s.(data := s.data[..sp.prefix] + e.edited[nf..nt], seqOff := nf - sp.prefix)]
  }

  lemma SpanRemaps(segs: seq<Seg>, spans: seq<Span>, e: Edit, k: int)
    requires Editable(segs, e) && |spans| == |DataIdx(segs)| && SpansOf(segs, DataIdx(segs), spans) && 0 <= k < |spans|
    ensures spans[k].idx == DataIdx(segs)[k] && 0 <= spans[k].idx < |segs| && 0 <= spans[k].prefix <= |segs[spans[k].idx].data|
    ensures SpanEdited(segs, spans[k], e)[spans[k].idx] == Rewritten(segs, e)[spans[k].idx]
  {
    EditFits(segs, e, k);
    RewriteAt(segs, e, k);
  }

  /** The plan after the first n spans are rewritten. */
  predicate RewrittenTo(was: seq<Seg>, now: seq<Seg>, e: Edit, n: int)
    requires Editable(was, e) && 0 <= n <= |DataIdx(was)|
  {
    |now| == |was| && forall i :: 0 <= i < |was| ==>
      now[i] == if i in DataIdx(was)[..n] then Rewritten(was, e)[i] else was[i]
  }

  lemma RewrittenStep(was: seq<Seg>, now: seq<Seg>, e: Edit, n: int)
    requires Editable(was, e) && 0 <= n < |DataIdx(was)| && RewrittenTo(was, now, e, n)
    ensures now[DataIdx(was)[n]] == was[DataIdx(was)[n]]
    ensures RewrittenTo(was, now[DataIdx(was)[n] := Rewritten(was, e)[DataIdx(was)[n]]], e, n + 1)
  {
    var idx := DataIdx(was);
    assert idx[..n + 1] == idx[..n] + [idx[n]];
    forall j | 0 <= j < n ensures idx[j] != idx[n] { assert Before(was, idx[j], idx[n]); }
  }

  lemma SpanEditedAlike(was: seq<Seg>, now: seq<Seg>, sp: Span, e: Edit, s: Seg)
    requires 0 <= sp.idx < |was| && |now| == |was| && now[sp.idx] == was[sp.idx] && 0 <= sp.prefix <= |was[sp.idx].data|
    requires s == SpanEdited(was, sp, e)[sp.idx]
    ensures SpanEdited(now, sp, e) == now[sp.idx := s]
  {
  }

  /** One turn of the loop: the bounds are in range and the segment written is the
      rewritten one. */
  lemma SpanWritten(was: seq<Seg>, now: seq<Seg>, spans: seq<Span>, e: Edit, k: int)
    requires Editable(was, e) && |spans| == |DataIdx(was)| && SpansOf(was, DataIdx(was), spans)
    requires 0 <= k < |spans| && RewrittenTo(was, now, e, k)
    ensures 0 <= spans[k].idx < |now| && 0 <= spans[k].prefix <= |now[spans[k].idx].data|
    ensures RewrittenTo(was, SpanEdited(now, spans[k], e), e, k + 1)
  {
    SpanRemaps(was, spans, e, k);
    RewrittenStep(was, now, e, k);
    SpanEditedAlike(was, now, spans[k], e, Rewritten(was, e)[DataIdx(was)[k]]);
  }

  method RewriteSpan(p: Plan, sp: Span, e: Edit)
    requires 0 <= sp.idx < |p.segs| && 0 <= sp.prefix <= |p.segs[sp.idx].data|
    modifies p`segs
    ensures p.segs == SpanEdited(old(p.segs), sp, e)
  {
    var s := p.segs[sp.idx];
    var nf, nt := e.Moved(sp.from), e.Moved(sp.to);
    if nf < 0 || nt > |e.edited| || nf > nt {
      return;
    }
    p.segs := p.segs[sp.idx := s.(data := s.data[..sp.prefix] + e.edited[nf..nt], seqOff := nf - sp.prefix)];
  }

  lemma RewrittenAll(was: seq<Seg>, now: seq<Seg>, e: Edit)
    requires Editable(was, e) && RewrittenTo(was, now, e, |DataIdx(was)|)
    ensures now == Rewritten(was, e)
  {
    assert DataIdx(was)[..|DataIdx(was)|] == DataIdx(was);
  }

  /** Writes an edited payload back, segment by segment, remapping each boundary. */
  method SegRewriteData(p: Plan, spans: seq<Span>, e: Edit)
    requires Editable(p.segs, e)
    requires |spans| == |DataIdx(p.segs)| && SpansOf(p.segs, DataIdx(p.segs), spans)
    modifies p`segs
    ensures p.segs == Rewritten(old(p.segs), e)
  {
    ghost var was := p.segs;
    for k := 0 to |spans|
      invariant RewrittenTo(was, p.segs, e, k)
    {
      SpanWritten(was, p.segs, spans, e, k);
      RewriteSpan(p, spans[k], e);
    }
    RewrittenAll(was, p.segs, e);
  }

  method TamperApply(c: Ctx, p: Plan)
    modifies p
    ensures p.State() == TamperOp(c, old(p.State()))
    ensures TamperLeaves(c, old(p.State()), p.State())
  {
    TamperEdits(c, p.State());
    var opts, n := Knobs(c.params), |c.payload|;
    if opts == TamperOpts({}, 0) {
      return;
    }
    var idx := p.DataIndices();
    NoDataIdx(p.segs);
    if |idx| == 0 {
      var out := c.tamperHost(c.payload, opts);
      if !LengthAllowed(c, n, |out|) {
        return;
      }
      p.segs := p.segs + [DataSeg(out, 0, c.params)];
      p.drop := true;
      return;
    }
    var spans, ok := SegSpans(p.segs, idx, n);
    if !ok {
      return;
    }
    var src, _ := SegJoinData(p.segs, n);
    var out := c.tamperHost(src, opts);
    if |out| != |src| {
      return;
    }
    SegRewriteData(p, spans, Edit(n, out, 0, 0));
  }

  lemma NoDataIdx(segs: seq<Seg>)
    ensures DataIdx(segs) == [] <==> !HasData(segs)
  {
    var idx := DataIdx(segs);
    if HasData(segs) {
      var i :| 0 <= i < |segs| && IsData(segs[i]);
      assert i in idx;
    }
    if |idx| > 0 {
      assert idx[0] in idx;
      assert IsData(segs[idx[0]]);
    }
  }

  method TlsRecApply(c: Ctx, p: Plan)
    modifies p
    ensures p.State() == TlsRecOp(c, old(p.State()))
    ensures exists cut: nat, out: Bytes :: TlsRecLeaves(c, old(p.State()), p.State(), cut, out)
  {
    ghost var _, _ := TlsRecEdits(c, p.State());
    var n := |c.payload|;
    var pos := FindSplitPos(c.payload, c.info, TlsRecSpec(c.params));
    if pos <= 0 || pos >= n {
      return;
    }
    var record := TLSRecordSplit(c.payload, pos);
    if record.None? {
      return;
    }
    var grow := |record.value| - n;
    if !(grow == 0 || !c.caps.inject) {
      return;
    }
    PlanRecord(c, p, pos, record.value);
  }

  method PlanRecord(c: Ctx, p: Plan, pos: int, out: Bytes)
    requires 0 < pos < |c.payload| <= |out|
    modifies p
    ensures p.State() == RecordPlan(c, old(p.State()), pos, out)
  {
    var n := |c.payload|;
    var idx := p.DataIndices();
    NoDataIdx(p.segs);
    if |idx| == 0 {
      p.segs := p.segs + [DataSeg(out, 0, c.params)];
      p.drop := true;
      return;
    }
    var e := Edit(n, out, pos, |out| - n);
    ghost var was := p.segs;
    assert e.Valid() && HasData(was);
    OverwriteIf(p, idx, c.payload, e);
    assert p.segs == Overwritten(was, c.payload, e);
  }

  /** Writes the edit over the planned segments if they carry exactly `expected`. */
  method OverwriteIf(p: Plan, idx: seq<int>, expected: Bytes, e: Edit)
    requires idx == DataIdx(p.segs) && e.Valid() && e.want == |expected|
    modifies p`segs
    ensures p.segs == Overwritten(old(p.segs), expected, e)
  {
    var spans, ok := SegSpans(p.segs, idx, |expected|);
    if !ok {
      return;
    }
    var src, _ := SegJoinData(p.segs, |expected|);
    if src != expected {
      return;
    }
    SegRewriteData(p, spans, e);
  }

  // ---------- header ops, udplen ----------

  /** Tags every segment that carries the client's window; counts them. */
  method TagWindow(c: Ctx, p: Plan) returns (n: nat)
    modifies p`segs
    ensures p.segs == WsTag(c, old(p.segs))
    ensures n == 0 <==> forall i :: 0 <= i < |old(p.segs)| ==> !CarriesWindow(c, old(p.segs)[i])
  {
    n := 0;
    ghost var was := p.segs;
    for i := 0 to |p.segs|
      invariant |p.segs| == |was|
      invariant forall j :: 0 <= j < |was| ==> p.segs[j] == if j < i then WsTag(c, was)[j] else was[j]
      invariant n == 0 <==> forall j :: 0 <= j < i ==> !CarriesWindow(c, was[j])
    {
      if CarriesWindow(c, p.segs[i]) {
        p.segs := p.segs[i := p.segs[i].(window := WsWindow(c.params), windowScale := WsScale(c.params))];
        n := n + 1;
      }
    }
  }

  method WsSizeApply(c: Ctx, p: Plan)
    modifies p
    ensures p.State() == WsSizeOp(c, old(p.State()))
    ensures WsSizeLeaves(c, old(p.State()), p.State())
  {
    WsSizeMarks(c, p.State());
    if c.params.wsSize <= 0 || !WsActive(c) {
      return;
    }
    var n := TagWindow(c, p);
    if n == 0 && |c.payload| > 0 {
      assert p.segs == old(p.segs);
      p.EnsureData(c);
      n := TagWindow(c, p);
    }
  }

  method IpIdApply(c: Ctx, p: Plan)
    modifies p
    ensures p.State() == IpIdOp(c, old(p.State()))
    ensures IpIdLeaves(c, old(p.State()), p.State())
  {
    IpIdMarks(c, p.State());
    if c.params.ipid == IPIDDefault {
      return;
    }
    p.UpdateSegs((s: Seg) => s.(ipid := c.params.ipid));
  }

  method IpFrag2Apply(c: Ctx, p: Plan)
    modifies p
    ensures p.State() == IpFrag2Op(c, old(p.State()))
    ensures IpFrag2Leaves(c, old(p.State()), p.State())
  {
    IpFrag2Marks(c, p.State());
    if c.synPkt || |c.payload| == 0 {
      return;
    }
    if c.udp {
      if c.ipv6 {
        return;
      }
      p.EnsureDgram(c);
      p.UpdateDgrams((d: Dgram) => if d.kind == SegData then d.(frag := FragPos(c, true, |d.data|)) else d);
      return;
    }
    p.EnsureData(c);
    p.UpdateSegs((s: Seg) => if s.kind == SegData then s.(frag := FragPos(c, false, |c.payload|)) else s);
  }

  /** Sets a header-level bit on every real packet. */
  method DecorateApply(c: Ctx, bit: FoolBit, p: Plan)
    modifies p
    ensures p.State() == Decorate(c, bit, old(p.State()))
  {
    if c.udp {
      p.EnsureDgram(c);
      p.UpdateDgrams((d: Dgram) => if d.kind == SegData then d.(fool := d.fool + {bit}) else d);
      return;
    }
    p.EnsureData(c);
    p.UpdateSegs((s: Seg) => if s.kind == SegData then s.(fool := s.fool + {bit}) else s);
  }

  method Ipv6ExtApply(c: Ctx, p: Plan)
    modifies p
    ensures p.State() == Ipv6ExtOp(c, old(p.State()))
    ensures Ipv6ExtLeaves(c, old(p.State()), p.State())
  {
    Ipv6ExtMarks(c, p.State());
    if c.synPkt || |c.payload| == 0 || !c.ipv6 {
      return;
    }
    DecorateApply(c, HopByHop, p);
  }

  method IpFrag1Apply(c: Ctx, p: Plan)
    modifies p
    ensures p.State() == IpFrag1Op(c, old(p.State()))
    ensures IpFrag1Leaves(c, old(p.State()), p.State())
  {
    IpFrag1Marks(c, p.State());
    if c.synPkt || |c.payload| == 0 {
      return;
    }
    if c.udp && !c.ipv6 {
      p.UpdateDgrams((d: Dgram) => if d.kind == SegFake then d.(frag := FragPos(c, true, |d.data|)) else d);
      return;
    }
    if !c.ipv6 {
      return;
    }
    DecorateApply(c, IPFrag1Bit, p);
  }

  method UdpLenApply(c: Ctx, p: Plan)
    modifies p
    ensures p.State() == UdpLenOp(c, old(p.State()))
    ensures exists at: nat :: UdpLenLeaves(c, old(p.State()), p.State(), at)
  {
    ghost var _ := UdpLenMarks(c, p.State());
    if !c.udp || |c.payload| == 0 {
      return;
    }
    var inc := c.params.udpLenIncrement;
    if inc == 0 {
      inc := 2;
    }
    var data := ResizeDatagram(c.payload, inc, c.params.udpLenPattern);
    for i := 0 to |p.dgrams|
      invariant p.State() == old(p.State()) && FirstDataDgram(p.dgrams) >= i
    {
      if p.dgrams[i].kind == SegData {
        var d := p.dgrams[i].(data := data);
        if d.frag > 0 {
          d := d.(frag := FragPos(c, true, |data|));
        }
        assert FirstDataDgram(p.dgrams) == i;
        p.dgrams := p.dgrams[i := d];
        return;
      }
    }
    p.dgrams := p.dgrams + [Dgram(SegData, data, 0, {}, 0, 0)];
  }

  // ---------- the engine's run ----------

  method ApplyOp(op: Op, c: Ctx, p: Plan)
    modifies p
    ensures p.State() == Apply(op, c, old(p.State()))
  {
    match op {
      case SynData(data) => SynDataApply(c, data, p);
      case Fake(knownOnly) => FakeApply(c, knownOnly, p);
      case RstInject(ack) => RstApply(c, ack, p);
      case Block => BlockApply(p);
      case Multisplit => MultiApply(c, false, p);
      case Multidisorder => MultiApply(c, true, p);
      case Fakedsplit => FakedsplitApply(c, p);
      case Fakeddisorder => FakeddisorderApply(c, p);
      case Hostfakesplit => HostfakesplitApply(c, p);
      case Tamper => TamperApply(c, p);
      case TlsRec => TlsRecApply(c, p);
      case WsSize => WsSizeApply(c, p);
      case IpId => IpIdApply(c, p);
      case IpFrag1 => IpFrag1Apply(c, p);
      case IpFrag2 => IpFrag2Apply(c, p);
      case Ipv6Ext(_) => Ipv6ExtApply(c, p);
      case UdpLen => UdpLenApply(c, p);
    }
  }

  method DegradeOp(op: Op, c: Ctx, p: Plan)
    modifies p
    ensures p.State() == Degrade(op, c, old(p.State()))
  {
    match op {
      case Multisplit => MultiDegradeApply(c, false, p);
      case Multidisorder => MultiDegradeApply(c, true, p);
      case Fakedsplit => SplitDegradeApply(c, p);
      case Fakeddisorder => SplitDegradeApply(c, p);
      case Hostfakesplit => HostfakesplitDegradeApply(c, p);
      case _ =>
    }
  }

  /** Runs a profile's ops in order; ok is false when an unsupported op is an error. */
  method RunOps(ops: seq<CompiledOp>, c: Ctx, policy: Policy) returns (plan: Plan, ok: bool)
    ensures fresh(plan)
    ensures Run(ops, c, policy) == if ok then Some(plan.State()) else None
  {
    plan := new Plan();
    for i := 0 to |ops|
      invariant fresh(plan)
      invariant RunFrom(ops, c, policy, EMPTY_PLAN) == RunFrom(ops[i..], c, policy, plan.State())
    {
      assert ops[i..][1..] == ops[i + 1..];
      var d := c.(params := ResolveTTL(ops[i].params, c.flow.hops));
      if !Covers(c.caps, Requires(ops[i].op)) {
        if policy.FailIt? {
          return plan, false;
        }
        if policy.SkipIt? {
          continue;
        }
        DegradeOp(ops[i].op, d, plan);
        continue;
      }
      ApplyOp(ops[i].op, d, plan);
    }
    if |plan.segs| > 0 || |plan.dgrams| > 0 {
      plan.drop := true;
    }
    ok := true;
  }
}
