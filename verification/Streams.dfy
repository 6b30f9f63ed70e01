/** The stream-level meaning of every op, and the proof that the plan-level ops
    implement it: whatever a plan looks like, it carries that stream. */
module Streams {
  import opened Types
  import opened Positions
  import opened Spans
  import opened Rewriting
  import opened Ops

  /** What a plan does to the application's bytes: nothing planned yet, dropped with
      nothing in their place, or the plan itself delivers `bytes`. */
  datatype Wire = Untouched | Dropped | Stream(bytes: Bytes)

  predicate Sync(segs: seq<Seg>, v: Wire) {
    match v
    case Stream(w) => Holds(segs, w)
    case _ => !HasData(segs)
  }

  // ---------- segment lists that carry the payload ----------

  /** b cuts [0, n) into non-empty stretches. */
  predicate Boundaries(b: seq<int>, n: int) {
    |b| >= 2 && b[0] == 0 && b[|b| - 1] == n && (Increasing(b) || b == [0, 0])
  }

  /** Overlap in front of stretch k when only stretch t has one. */
  function OvlAt(t: nat, ovl: nat, k: int): nat { if k == t then ovl else 0 }

  predicate IsStretch(c: Ctx, segs: seq<Seg>, i: int, b: seq<int>, k: int, ovl: nat)
    requires 0 <= k < |b| - 1
  {
    0 <= i < |segs| && 0 <= b[k] <= b[k + 1] <= |c.payload| && SameBytes(segs[i], RealPart(c, b[k], b[k + 1], ovl))
  }

  /** The data segments of `segs` are the payload's stretches between consecutive
      bounds; stretch t has an overlap of ovl bytes in front of it. */
  predicate Stretches(c: Ctx, segs: seq<Seg>, idx: seq<int>, b: seq<int>, t: nat, ovl: nat) {
    && Boundaries(b, |c.payload|) && |idx| == |b| - 1
    && (forall k :: 0 <= k < |idx| ==> IsStretch(c, segs, idx[k], b, k, OvlAt(t, ovl, k)))
    && (forall i :: 0 <= i < |segs| ==> (i in idx <==> IsData(segs[i])))
    && (ovl == 0 || t == 0
        || (t == 1 && |b| > 2 && ovl < b[1] && forall k :: 1 <= k < |idx| ==> idx[k] < idx[0]))
  }

  lemma StretchAt(c: Ctx, segs: seq<Seg>, idx: seq<int>, b: seq<int>, t: nat, ovl: nat, k: int)
    requires Stretches(c, segs, idx, b, t, ovl) && 0 <= k < |idx|
    ensures 0 <= idx[k] < |segs| && 0 <= b[k] <= b[k + 1] <= |c.payload|
    ensures segs[idx[k]].seqOff == b[k] - OvlAt(t, ovl, k) && segs[idx[k]].End() == b[k + 1]
    ensures segs[idx[k]].data[OvlAt(t, ovl, k)..] == c.payload[b[k]..b[k + 1]]
  {
    assert IsStretch(c, segs, idx[k], b, k, OvlAt(t, ovl, k));
  }

  lemma StretchesSorted(c: Ctx, segs: seq<Seg>, idx: seq<int>, b: seq<int>, t: nat, ovl: nat)
    requires Stretches(c, segs, idx, b, t, ovl)
    ensures SortedIdx(segs, idx)
  {
    forall k | 0 <= k < |idx| ensures 0 <= idx[k] < |segs| {
      StretchAt(c, segs, idx, b, t, ovl, k);
    }
    forall k, l | 0 <= k < l < |idx| ensures Before(segs, idx[k], idx[l]) {
      StretchAt(c, segs, idx, b, t, ovl, k);
      StretchAt(c, segs, idx, b, t, ovl, l);
    }
  }

  lemma StretchCarries(c: Ctx, segs: seq<Seg>, idx: seq<int>, b: seq<int>, t: nat, ovl: nat, k: int)
    requires Stretches(c, segs, idx, b, t, ovl) && SortedIdx(segs, idx) && 0 <= k < |idx|
    ensures From(segs, idx, k) == b[k] && From(segs, idx, k + 1) == b[k + 1]
    ensures Prefix(segs, idx, k) == OvlAt(t, ovl, k)
    ensures SpanCarries(segs, idx, k, c.payload)
  {
    StretchAt(c, segs, idx, b, t, ovl, k);
    if k > 0 { StretchAt(c, segs, idx, b, t, ovl, k - 1); }
  }

  lemma StretchesShape(c: Ctx, segs: seq<Seg>, idx: seq<int>, b: seq<int>, t: nat, ovl: nat)
    requires Stretches(c, segs, idx, b, t, ovl) && SortedIdx(segs, idx)
    ensures Shape(segs, idx)
  {
    forall k | 0 <= k < |idx| ensures Prefix(segs, idx, k) == OvlAt(t, ovl, k) {
      StretchCarries(c, segs, idx, b, t, ovl, k);
    }
    StretchAt(c, segs, idx, b, t, ovl, 0);
    if |idx| > 1 { StretchAt(c, segs, idx, b, t, ovl, 1); }
  }

  lemma StretchesHold(c: Ctx, segs: seq<Seg>, idx: seq<int>, b: seq<int>, t: nat, ovl: nat)
    requires Stretches(c, segs, idx, b, t, ovl)
    ensures Holds(segs, c.payload)
  {
    StretchesSorted(c, segs, idx, b, t, ovl);
    forall k | 0 <= k < |idx| ensures SpanCarries(segs, idx, k, c.payload) {
      StretchCarries(c, segs, idx, b, t, ovl, k);
    }
    StretchCarries(c, segs, idx, b, t, ovl, |idx| - 1);
    StretchesShape(c, segs, idx, b, t, ovl);
    HoldsBy(segs, idx, c.payload);
  }

  lemma WholeHolds(s: Seg)
    requires IsData(s) && s.seqOff == 0
    ensures Holds([s], s.data)
  {
    var segs := [s];
    assert SortedIdx(segs, [0]);
    assert SpanCarries(segs, [0], 0, s.data);
    HoldsBy(segs, [0], s.data);
  }

  /** The data segments are exactly those at i and j. */
  predicate DataAt(segs: seq<Seg>, i: int, j: int) {
    forall k :: 0 <= k < |segs| ==> (IsData(segs[k]) <==> k == i || k == j)
  }

  lemma OnePartHolds(c: Ctx, segs: seq<Seg>, i: int, ovl: nat)
    requires 0 <= i < |segs| && segs[i] == RealPart(c, 0, |c.payload|, ovl)
    requires DataAt(segs, i, i)
    ensures Holds(segs, c.payload)
  {
    StretchesHold(c, segs, [i], [0, |c.payload|], 0, ovl);
  }

  lemma TwoPartsHold(c: Ctx, segs: seq<Seg>, i: int, j: int, cut: nat, t: nat, ovl: nat)
    requires 0 < cut < |c.payload| && 0 <= i < |segs| && 0 <= j < |segs| && i != j
    requires segs[i] == RealPart(c, 0, cut, OvlAt(t, ovl, 0)) && segs[j] == RealPart(c, cut, |c.payload|, OvlAt(t, ovl, 1))
    requires DataAt(segs, i, j)
    requires t == 0 || (t == 1 && (ovl == 0 || (ovl < cut && j < i)))
    ensures Holds(segs, c.payload)
  {
    StretchesHold(c, segs, [i, j], [0, cut, |c.payload|], t, ovl);
  }

  // ---------- plan edits ----------

  lemma NoDataJoin(a: seq<Seg>, b: seq<Seg>)
    ensures HasData(a + b) <==> HasData(a) || HasData(b)
  {
    forall i | 0 <= i < |a| ensures (a + b)[i] == a[i] {}
    forall i | 0 <= i < |b| ensures (a + b)[|a| + i] == b[i] {}
  }

  lemma SyncInsert(segs: seq<Seg>, injected: seq<Seg>, v: Wire)
    requires Sync(segs, v) && !HasData(injected)
    ensures Sync(InsertSegs(segs, injected), v)
  {
    var at := FirstData(segs);
    var a, b := segs[..at], segs[at..];
    assert a + b == segs;
    NoDataJoin(a, injected);
    NoDataJoin(a, b);
    NoDataJoin(a + injected, b);
    if v.Stream? {
      HoldsWithout(a, b, v.bytes);
      HoldsBehind(a + injected, b, v.bytes);
    }
  }

  /** Real bytes appended behind injected segments. */
  lemma SyncAppend(segs: seq<Seg>, s: Seg)
    requires !HasData(segs) && IsData(s) && s.seqOff == 0
    ensures Sync(segs + [s], Stream(s.data))
  {
    WholeHolds(s);
    HoldsBehind(segs, [s], s.data);
  }

  /** Once a plan exists it has to carry the payload itself. */
  function Ensured(c: Ctx, v: Wire): Wire {
    if !v.Stream? && |c.payload| > 0 then Stream(c.payload) else v
  }

  lemma SyncEnsure(c: Ctx, segs: seq<Seg>, v: Wire)
    requires Sync(segs, v)
    ensures Sync(EnsureDataSeg(c, segs), Ensured(c, v))
    ensures |c.payload| > 0 ==> HasData(EnsureDataSeg(c, segs))
  {
    if |c.payload| > 0 && !HasData(segs) {
      SyncAppend(segs, PlainData(c.payload));
    }
  }

  lemma SyncMapped(a: seq<Seg>, b: seq<Seg>, v: Wire)
    requires SameContent(a, b) && Sync(a, v)
    ensures Sync(b, v)
  {
    assert forall i :: 0 <= i < |a| ==> SameBytes(a[i], b[i]);
    if v.Stream? { HoldsSameContent(a, b, v.bytes); }
  }

  // ---------- the split ops ----------

  function Iota(m: nat): (r: seq<int>)
    ensures |r| == m && forall k :: 0 <= k < m ==> r[k] == k
    ensures forall i :: i in r <==> 0 <= i < m
  {
    var r := seq(m, k => k);
    assert forall i {:trigger i in r} :: 0 <= i < m ==> r[i] == i;
    r
  }

  function Countdown(m: nat): (r: seq<int>)
    ensures |r| == m && forall k :: 0 <= k < m ==> r[k] == m - 1 - k
    ensures forall i :: i in r <==> 0 <= i < m
  {
    var r := seq(m, k => m - 1 - k);
    assert forall i {:trigger i in r} :: 0 <= i < m ==> r[m - 1 - i] == i;
    r
  }

  function Bounds(c: Ctx, pos: seq<int>): (b: seq<int>)
    requires Cuts(pos, |c.payload|) && |pos| > 0
    ensures |b| == |pos| + 2 && forall i :: 0 <= i < |b| ==> b[i] == Bound(c, pos, i)
    ensures Boundaries(b, |c.payload|)
  {
    var b := [0] + pos + [|c.payload|];
    assert forall i :: 0 < i <= |pos| ==> b[i] == pos[i - 1];
    assert forall i, j :: 0 <= i < j <= |pos| + 1 ==> b[i] < b[j] by {
      forall i, j | 0 <= i < j <= |pos| + 1 ensures b[i] < b[j] {
        assert 0 < pos[0] < |c.payload|;
        assert b[i] == Bound(c, pos, i) && b[j] == Bound(c, pos, j);
        if 0 < i && j <= |pos| { assert pos[i - 1] < pos[j - 1]; }
      }
    }
    b
  }

  lemma PartIs(c: Ctx, pos: seq<int>, disorder: bool, segs: seq<Seg>, i: int)
    requires Cuts(pos, |c.payload|) && |pos| > 0 && MultiSegs(c, pos, disorder) == Some(segs) && 0 <= i < |segs|
    ensures IsStretch(c, segs, i, Bounds(c, pos), i, OvlAt(Target(disorder), Overlap(c, pos, disorder), i))
    ensures IsStretch(c, Reverse(segs), |segs| - 1 - i, Bounds(c, pos), i,
      OvlAt(Target(disorder), Overlap(c, pos, disorder), i))
  {
    BoundsIncrease(c, pos, i);
    var b := Bounds(c, pos);
    assert b[i] == Bound(c, pos, i) && b[i + 1] == Bound(c, pos, i + 1);
    assert segs[i] == Part(c, pos, i, OvlAt(Target(disorder), Overlap(c, pos, disorder), i));
  }

  lemma MultiHolds(c: Ctx, pos: seq<int>, disorder: bool, segs: seq<Seg>)
    requires Cuts(pos, |c.payload|) && |pos| > 0 && MultiSegs(c, pos, disorder) == Some(segs)
    ensures disorder ==> Holds(Reverse(segs), c.payload)
    ensures !disorder || Overlap(c, pos, disorder) == 0 ==> Holds(segs, c.payload)
    ensures forall i :: 0 <= i < |segs| ==> IsData(segs[i])
  {
    var b, m, ovl, t := Bounds(c, pos), |segs|, Overlap(c, pos, disorder), Target(disorder);
    var up, down := Iota(m), Countdown(m);
    forall k | 0 <= k < m
      ensures IsStretch(c, segs, up[k], b, k, OvlAt(t, ovl, k))
      ensures IsStretch(c, Reverse(segs), down[k], b, k, OvlAt(t, ovl, k))
    {
      PartIs(c, pos, disorder, segs, k);
    }
    assert forall i :: 0 <= i < m ==> IsData(segs[i]) by {
      forall i | 0 <= i < m ensures IsData(segs[i]) { PartIs(c, pos, disorder, segs, i); }
    }
    if !disorder || ovl == 0 {
      StretchesHold(c, segs, up, b, t, ovl);
    }
    if disorder {
      StretchesHold(c, Reverse(segs), down, b, t, ovl);
    }
  }

  /** No segment of the list rides on a SYN. */
  predicate NoSyn(segs: seq<Seg>) {
    forall s :: s in segs ==> s.kind != SegSynData
  }

  /** Where the two real parts stand in an emission table. */
  function Early(order: nat): nat { if order == 0 then 1 else 0 }

  function Late(order: nat): nat { if order == 0 then 4 else if order == 1 then 3 else 2 }

  lemma TablePlaces(order: nat, two: bool, f1: Seg, r1: Seg, f2: Seg, r2: Seg)
    requires f1.kind == f2.kind == SegFake && IsData(r1) && IsData(r2)
    ensures var t := FakedsplitTable(order, two, f1, r1, f2, r2);
      && NoSyn(t) && Early(order) < |t| && t[Early(order)] == r1
      && (if two then Late(order) < |t| && t[Late(order)] == r2 && DataAt(t, Early(order), Late(order))
          else DataAt(t, Early(order), Early(order)))
    ensures var t := FakeddisorderTable(order, two, f1, r1, f2, r2);
      && NoSyn(t) && Early(order) < |t| && t[Early(order)] == r2
      && (if two then Late(order) < |t| && t[Late(order)] == r1 && DataAt(t, Late(order), Early(order))
          else DataAt(t, Early(order), Early(order)))
  {
  }

  lemma FakedsplitHolds(c: Ctx, order: nat, cut: nat, ovl: nat)
    requires cut <= |c.payload| && (cut == 0 ==> |c.payload| == 0)
    ensures Holds(FakedsplitSegs(c, order, cut, ovl), c.payload)
    ensures NoSyn(FakedsplitSegs(c, order, cut, ovl))
  {
    var n, segs := |c.payload|, FakedsplitSegs(c, order, cut, ovl);
    TablePlaces(order, cut < n, Decoy(c, 0, cut), RealPart(c, 0, cut, ovl), Decoy(c, cut, n), RealPart(c, cut, n, 0));
    if cut < n {
      TwoPartsHold(c, segs, Early(order), Late(order), cut, 0, ovl);
    } else {
      OnePartHolds(c, segs, Early(order), ovl);
    }
  }

  lemma FakeddisorderHolds(c: Ctx, order: nat, cut: nat, ovl: nat)
    requires cut <= |c.payload| && (cut == |c.payload| ==> cut == 0) && (ovl == 0 || ovl < cut)
    ensures Holds(FakeddisorderSegs(c, order, cut, ovl), c.payload)
    ensures NoSyn(FakeddisorderSegs(c, order, cut, ovl))
  {
    var n, segs := |c.payload|, FakeddisorderSegs(c, order, cut, ovl);
    TablePlaces(order, cut > 0, Decoy(c, 0, cut), RealPart(c, 0, cut, 0), Decoy(c, cut, n), RealPart(c, cut, n, ovl));
    if cut > 0 {
      TwoPartsHold(c, segs, Late(order), Early(order), cut, 1, ovl);
    } else {
      OnePartHolds(c, segs, Early(order), 0);
    }
  }

  // ---------- hostfakesplit ----------

  lemma ThreePartsHold(c: Ctx, segs: seq<Seg>, i: int, j: int, k: int, p: nat, q: nat)
    requires 0 < p < q < |c.payload| && 0 <= i < |segs| && 0 <= j < |segs| && 0 <= k < |segs|
    requires segs[i] == RealPart(c, 0, p, 0) && segs[j] == RealPart(c, p, q, 0) && segs[k] == RealPart(c, q, |c.payload|, 0)
    requires forall l :: 0 <= l < |segs| ==> (IsData(segs[l]) <==> l == i || l == j || l == k)
    ensures Holds(segs, c.payload)
  {
    var idx, b := [i, j, k], [0, p, q, |c.payload|];
    assert IsStretch(c, segs, idx[0], b, 0, 0) && IsStretch(c, segs, idx[1], b, 1, 0) && IsStretch(c, segs, idx[2], b, 2, 0);
    StretchesHold(c, segs, idx, b, 0, 0);
  }

  lemma FourPartsHold(c: Ctx, segs: seq<Seg>, i: int, j: int, k: int, l: int, p: nat, m: nat, q: nat)
    requires 0 < p < m < q < |c.payload| && 0 <= i < |segs| && 0 <= j < |segs| && 0 <= k < |segs| && 0 <= l < |segs|
    requires segs[i] == RealPart(c, 0, p, 0) && segs[j] == RealPart(c, p, m, 0)
    requires segs[k] == RealPart(c, m, q, 0) && segs[l] == RealPart(c, q, |c.payload|, 0)
    requires forall o :: 0 <= o < |segs| ==> (IsData(segs[o]) <==> o == i || o == j || o == k || o == l)
    ensures Holds(segs, c.payload)
  {
    var idx, b := [i, j, k, l], [0, p, m, q, |c.payload|];
    assert IsStretch(c, segs, idx[0], b, 0, 0) && IsStretch(c, segs, idx[1], b, 1, 0);
    assert IsStretch(c, segs, idx[2], b, 2, 0) && IsStretch(c, segs, idx[3], b, 3, 0);
    StretchesHold(c, segs, idx, b, 0, 0);
  }

  lemma HostTableWhole(late: bool, b: Seg, f: Seg, p: Seg, a: Seg)
    requires f.kind == SegFake && IsData(b) && IsData(p) && IsData(a)
    ensures var t := HostTable(late, b, f, [p], a);
      && NoSyn(t)
      && t == if late then [b, f, a, p] else [b, f, p, f, a]
  {
  }

  lemma HostTableCut(late: bool, b: Seg, f: Seg, p: Seg, q: Seg, a: Seg)
    requires f.kind == SegFake && IsData(b) && IsData(p) && IsData(q) && IsData(a)
    ensures var t := HostTable(late, b, f, [p, q], a);
      && NoSyn(t)
      && t == if late then [b, f, a, p, q] else [b, f, p, q, f, a]
  {
  }

  lemma WholeHostHolds(c: Ctx, host: nat, end: nat, fake: Seg)
    requires 0 < host < end < |c.payload| && fake.kind == SegFake
    ensures Holds(HostfakesplitSegs(c, host, 0, end, fake), c.payload)
    ensures NoSyn(HostfakesplitSegs(c, host, 0, end, fake))
  {
    var late := c.params.altOrder == 1;
    var b, p, a := RealPart(c, 0, host, 0), RealPart(c, host, end, 0), RealPart(c, end, |c.payload|, 0);
    HostTableWhole(late, b, fake, p, a);
    if late { ThreePartsHold(c, [b, fake, a, p], 0, 3, 2, host, end); }
    else { ThreePartsHold(c, [b, fake, p, fake, a], 0, 2, 4, host, end); }
  }

  lemma CutHostHolds(c: Ctx, host: nat, mid: nat, end: nat, fake: Seg)
    requires 0 < host < mid < end < |c.payload| && fake.kind == SegFake
    ensures Holds(HostfakesplitSegs(c, host, mid, end, fake), c.payload)
    ensures NoSyn(HostfakesplitSegs(c, host, mid, end, fake))
  {
    var late := c.params.altOrder == 1;
    var b, a := RealPart(c, 0, host, 0), RealPart(c, end, |c.payload|, 0);
    var p, q := RealPart(c, host, mid, 0), RealPart(c, mid, end, 0);
    HostTableCut(late, b, fake, p, q, a);
    if late { FourPartsHold(c, [b, fake, a, p, q], 0, 3, 4, 2, host, mid, end); }
    else { FourPartsHold(c, [b, fake, p, q, fake, a], 0, 2, 3, 5, host, mid, end); }
  }

  lemma HostfakesplitHolds(c: Ctx, host: nat, mid: nat, end: nat, fake: Seg)
    requires 0 < host < end < |c.payload| && (mid != 0 ==> host < mid < end) && fake.kind == SegFake
    ensures Holds(HostfakesplitSegs(c, host, mid, end, fake), c.payload)
    ensures NoSyn(HostfakesplitSegs(c, host, mid, end, fake))
  {
    if mid != 0 { CutHostHolds(c, host, mid, end, fake); } else { WholeHostHolds(c, host, end, fake); }
  }

  lemma HostDegradeHolds(c: Ctx, host: nat, mid: nat, end: nat)
    requires 0 < host < end < |c.payload| && (mid != 0 ==> host < mid < end)
    ensures var segs := [RealPart(c, 0, host, 0)] + HostParts(c, host, mid, end) + [RealPart(c, end, |c.payload|, 0)];
      Holds(segs, c.payload) && NoSyn(segs)
  {
    var segs := [RealPart(c, 0, host, 0)] + HostParts(c, host, mid, end) + [RealPart(c, end, |c.payload|, 0)];
    if mid != 0 {
      FourPartsHold(c, segs, 0, 1, 2, 3, host, mid, end);
    } else {
      ThreePartsHold(c, segs, 0, 1, 2, host, end);
    }
  }
}
