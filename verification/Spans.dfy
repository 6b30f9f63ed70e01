/** Which stream bytes a plan's real segments carry: the rewriters' reassembly
    walk, stated once as a relation between a segment list and a byte stream. */
module Spans {
  import opened Types

  predicate IsData(s: Seg) { s.kind == SegData }

  predicate HasData(segs: seq<Seg>) {
    exists i :: 0 <= i < |segs| && IsData(segs[i])
  }

  /** Stream order of the data segments: by offset, ties in plan order. */
  predicate Before(segs: seq<Seg>, i: int, j: int)
    requires 0 <= i < |segs| && 0 <= j < |segs|
  {
    segs[i].seqOff < segs[j].seqOff || (segs[i].seqOff == segs[j].seqOff && i < j)
  }

  predicate SortedIdx(segs: seq<Seg>, idx: seq<int>) {
    && (forall k :: 0 <= k < |idx| ==> 0 <= idx[k] < |segs|)
    && (forall k, l :: 0 <= k < l < |idx| ==> Before(segs, idx[k], idx[l]))
  }

  /** idx lists exactly the data segments, in stream order. */
  predicate IsDataIdx(segs: seq<Seg>, idx: seq<int>) {
    && SortedIdx(segs, idx)
    && (forall i :: 0 <= i < |segs| ==> (i in idx <==> IsData(segs[i])))
  }

  function InsertIdx(segs: seq<Seg>, idx: seq<int>, i: int): (r: seq<int>)
    requires SortedIdx(segs, idx) && 0 <= i < |segs| && i !in idx
    ensures SortedIdx(segs, r)
    ensures forall j :: j in r <==> j == i || j in idx
  {
    if |idx| == 0 || Before(segs, i, idx[0]) then [i] + idx
    else
      var rest := InsertIdx(segs, idx[1..], i);
      assert forall j :: j in idx <==> j == idx[0] || j in idx[1..];
      assert forall k :: 0 <= k < |rest| ==> rest[k] in rest;
      assert forall k :: 0 <= k < |rest| ==> Before(segs, idx[0], rest[k]);
      [idx[0]] + rest
  }

  function DataIdxUpTo(segs: seq<Seg>, n: nat): (idx: seq<int>)
    requires n <= |segs|
    ensures SortedIdx(segs, idx)
    ensures forall i :: i in idx <==> 0 <= i < n && IsData(segs[i])
  {
    if n == 0 then []
    else
      var idx := DataIdxUpTo(segs, n - 1);
      if IsData(segs[n - 1]) then InsertIdx(segs, idx, n - 1) else idx
  }

  function DataIdx(segs: seq<Seg>): (idx: seq<int>)
    ensures IsDataIdx(segs, idx)
  {
    DataIdxUpTo(segs, |segs|)
  }

  /** The stream order is unique. */
  lemma {:induction false} IdxUnique(segs: seq<Seg>, a: seq<int>, b: seq<int>)
    requires SortedIdx(segs, a) && SortedIdx(segs, b)
    requires forall i :: i in a <==> i in b
    ensures a == b
  {
    if |a| > 0 { assert a[0] in b; }
    if |b| > 0 { assert b[0] in a; }
    if |a| > 0 {
      var k :| 0 <= k < |b| && b[k] == a[0];
      var l :| 0 <= l < |a| && a[l] == b[0];
      assert a[0] == b[0];
      forall i ensures i in a[1..] <==> i in b[1..] {
        assert i in a <==> i == a[0] || i in a[1..];
        assert i in b <==> i == b[0] || i in b[1..];
      }
      IdxUnique(segs, a[1..], b[1..]);
    }
  }

  /** Where the k-th data segment's own contribution starts: where its predecessor ended. */
  function From(segs: seq<Seg>, idx: seq<int>, k: int): int
    requires SortedIdx(segs, idx) && 0 <= k <= |idx|
  {
    if k == 0 then 0 else segs[idx[k - 1]].End()
  }

  /** Leading bytes of the k-th data segment that its predecessors already covered
      or that lie below the stream. */
  function Prefix(segs: seq<Seg>, idx: seq<int>, k: int): int
    requires SortedIdx(segs, idx) && 0 <= k < |idx|
  {
    From(segs, idx, k) - segs[idx[k]].seqOff
  }

  predicate SpanFits(segs: seq<Seg>, idx: seq<int>, k: int, want: int)
    requires SortedIdx(segs, idx) && 0 <= k < |idx|
  {
    0 <= Prefix(segs, idx, k) <= |segs[idx[k]].data| && segs[idx[k]].End() <= want
  }

  /** The data segments cover [0, want) exactly once, without a hole. */
  predicate Accepts(segs: seq<Seg>, idx: seq<int>, want: int)
    requires SortedIdx(segs, idx)
  {
    && (forall k :: 0 <= k < |idx| ==> SpanFits(segs, idx, k, want))
    && From(segs, idx, |idx|) == want
  }

  lemma {:induction false} FromMonotone(segs: seq<Seg>, idx: seq<int>, want: int, j: int, k: int)
    requires SortedIdx(segs, idx) && 0 <= j <= k <= |idx|
    requires forall l :: 0 <= l < |idx| ==> SpanFits(segs, idx, l, want)
    ensures 0 <= From(segs, idx, j) <= From(segs, idx, k)
    ensures k > 0 ==> From(segs, idx, k) <= want
    decreases k
  {
    if k > 0 {
      assert SpanFits(segs, idx, k - 1, want);
      FromMonotone(segs, idx, want, if j == k then j - 1 else j, k - 1);
    }
  }

  /** The k-th data segment contributes exactly its stretch of w. */
  predicate SpanCarries(segs: seq<Seg>, idx: seq<int>, k: int, w: Bytes)
    requires SortedIdx(segs, idx) && 0 <= k < |idx|
  {
    && SpanFits(segs, idx, k, |w|)
    && 0 <= From(segs, idx, k) <= segs[idx[k]].End()
    && segs[idx[k]].data[Prefix(segs, idx, k)..] == w[From(segs, idx, k)..segs[idx[k]].End()]
  }

  /** Reassembling the plan's data segments yields w. */
  predicate Carries(segs: seq<Seg>, idx: seq<int>, w: Bytes)
    requires SortedIdx(segs, idx)
  {
    && (forall k :: 0 <= k < |idx| ==> SpanCarries(segs, idx, k, w))
    && From(segs, idx, |idx|) == |w|
  }

  /** Where an overlap may sit: under the first segment of the stream, below
      offset 0; or under the second one, which then stays above offset 0 and is
      sent, like every other segment, before the segment that starts the stream. */
  predicate Shape(segs: seq<Seg>, idx: seq<int>)
    requires SortedIdx(segs, idx)
  {
    && (forall k :: 2 <= k < |idx| ==> Prefix(segs, idx, k) == 0)
    && (|idx| > 1 && Prefix(segs, idx, 1) != 0 ==>
          && segs[idx[0]].seqOff == 0
          && segs[idx[1]].seqOff > 0
          && forall k :: 1 <= k < |idx| ==> idx[k] < idx[0])
  }

  /** The plan-level invariant: the data segments reassemble to w and every
      overlap sits where a receiver discards or overwrites it. */
  predicate Holds(segs: seq<Seg>, w: Bytes) {
    var idx := DataIdx(segs);
    HasData(segs) && Carries(segs, idx, w) && Shape(segs, idx)
  }

  lemma HoldsBy(segs: seq<Seg>, idx: seq<int>, w: Bytes)
    requires IsDataIdx(segs, idx) && |idx| > 0
    requires Carries(segs, idx, w) && Shape(segs, idx)
    ensures Holds(segs, w) && DataIdx(segs) == idx
  {
    IdxUnique(segs, idx, DataIdx(segs));
    assert idx[0] in idx;
    assert IsData(segs[idx[0]]);
  }

  /** The carried stream is determined by the plan. */
  lemma CarriesUnique(segs: seq<Seg>, idx: seq<int>, v: Bytes, w: Bytes)
    requires SortedIdx(segs, idx)
    requires Carries(segs, idx, v) && Carries(segs, idx, w)
    ensures v == w
  {
    forall k | 0 <= k < |idx| ensures SpanFits(segs, idx, k, |w|) {
      assert SpanCarries(segs, idx, k, w);
    }
    forall o | 0 <= o < |w| ensures v[o] == w[o] {
      var k := SpanOf(segs, idx, |w|, o, |idx|);
      var f := From(segs, idx, k);
      assert SpanCarries(segs, idx, k, v) && SpanCarries(segs, idx, k, w);
      assert v[f..segs[idx[k]].End()][o - f] == w[f..segs[idx[k]].End()][o - f];
    }
  }

  /** The data segment whose own stretch contains offset o. */
  lemma {:induction false} SpanOf(segs: seq<Seg>, idx: seq<int>, want: int, o: int, n: int) returns (k: int)
    requires SortedIdx(segs, idx) && 0 <= n <= |idx|
    requires forall l :: 0 <= l < |idx| ==> SpanFits(segs, idx, l, want)
    requires 0 <= o < From(segs, idx, n)
    ensures 0 <= k < n && From(segs, idx, k) <= o < segs[idx[k]].End()
    decreases n
  {
    if From(segs, idx, n - 1) <= o {
      k := n - 1;
    } else {
      k := SpanOf(segs, idx, want, o, n - 1);
    }
  }

  /** Two plans of the same length whose segments agree on kind, offset and bytes. */
  predicate SameContent(a: seq<Seg>, b: seq<Seg>) {
    |a| == |b| && forall i :: 0 <= i < |a| ==> SameBytes(a[i], b[i])
  }

  predicate SameBytes(s: Seg, t: Seg) {
    s.kind == t.kind && s.data == t.data && s.seqOff == t.seqOff
  }

  /** The same data segments in the same relative transmit order, at other plan
      positions. */
  predicate SameWalk(a: seq<Seg>, ia: seq<int>, b: seq<Seg>, ib: seq<int>) {
    && |ia| == |ib|
    && (forall k :: 0 <= k < |ia| ==> 0 <= ia[k] < |a| && 0 <= ib[k] < |b| && SameBytes(a[ia[k]], b[ib[k]]))
    && (forall k, l :: 0 <= k < |ia| && 0 <= l < |ia| ==> (ia[k] < ia[l] <==> ib[k] < ib[l]))
  }

  lemma WalkSorted(a: seq<Seg>, ia: seq<int>, b: seq<Seg>, ib: seq<int>)
    requires SortedIdx(a, ia) && SameWalk(a, ia, b, ib)
    ensures SortedIdx(b, ib)
  {
    forall k, l | 0 <= k < l < |ib| ensures Before(b, ib[k], ib[l]) {
      assert Before(a, ia[k], ia[l]);
      assert SameBytes(a[ia[k]], b[ib[k]]) && SameBytes(a[ia[l]], b[ib[l]]);
    }
  }

  lemma WalkCarries(a: seq<Seg>, ia: seq<int>, b: seq<Seg>, ib: seq<int>, w: Bytes)
    requires SortedIdx(a, ia) && SortedIdx(b, ib) && SameWalk(a, ia, b, ib)
    requires Carries(a, ia, w) && Shape(a, ia)
    ensures Carries(b, ib, w) && Shape(b, ib)
  {
    forall k | 0 <= k <= |ib| ensures From(b, ib, k) == From(a, ia, k) {
      if k > 0 { assert SameBytes(a[ia[k - 1]], b[ib[k - 1]]); }
    }
    forall k | 0 <= k < |ib| ensures SpanCarries(b, ib, k, w) && Prefix(b, ib, k) == Prefix(a, ia, k) {
      assert SpanCarries(a, ia, k, w);
      assert SameBytes(a[ia[k]], b[ib[k]]);
    }
  }

  lemma HoldsWalk(a: seq<Seg>, ia: seq<int>, b: seq<Seg>, ib: seq<int>, w: Bytes)
    requires IsDataIdx(a, ia) && SameWalk(a, ia, b, ib) && Holds(a, w)
    requires forall i :: 0 <= i < |b| ==> (i in ib <==> IsData(b[i]))
    ensures Holds(b, w)
  {
    IdxUnique(a, ia, DataIdx(a));
    WalkSorted(a, ia, b, ib);
    WalkCarries(a, ia, b, ib, w);
    var i :| 0 <= i < |a| && IsData(a[i]);
    assert i in ia;
    HoldsBy(b, ib, w);
  }

  /** Header fields play no part in what is carried. */
  lemma HoldsSameContent(a: seq<Seg>, b: seq<Seg>, w: Bytes)
    requires SameContent(a, b) && Holds(a, w)
    ensures Holds(b, w)
  {
    assert forall j :: 0 <= j < |a| ==> SameBytes(a[j], b[j]);
    HoldsWalk(a, DataIdx(a), b, DataIdx(a), w);
  }

  function Shifted(idx: seq<int>, d: int): (r: seq<int>)
    ensures |r| == |idx| && forall k :: 0 <= k < |r| ==> r[k] == idx[k] + d
    ensures forall i :: i in r <==> i - d in idx
  {
    var r := seq(|idx|, k requires 0 <= k < |idx| => idx[k] + d);
    assert forall k :: 0 <= k < |idx| ==> r[k] == idx[k] + d;
    r
  }

  lemma NoDataAt(pre: seq<Seg>, segs: seq<Seg>, i: int)
    requires !HasData(pre) && 0 <= i < |pre + segs|
    ensures IsData((pre + segs)[i]) <==> i >= |pre| && IsData(segs[i - |pre|])
  {
  }

  /** Segments that carry no data may precede the data without any effect. */
  lemma HoldsBehind(pre: seq<Seg>, segs: seq<Seg>, w: Bytes)
    requires !HasData(pre) && Holds(segs, w)
    ensures Holds(pre + segs, w)
  {
    var r := RaisedIdx(pre, segs, DataIdx(segs));
    HoldsWalk(segs, DataIdx(segs), pre + segs, r, w);
  }

  lemma RaisedIdx(pre: seq<Seg>, segs: seq<Seg>, idx: seq<int>) returns (r: seq<int>)
    requires !HasData(pre) && IsDataIdx(segs, idx)
    ensures SameWalk(segs, idx, pre + segs, r)
    ensures forall i :: 0 <= i < |pre + segs| ==> (i in r <==> IsData((pre + segs)[i]))
  {
    RaisedWalk(pre, segs, idx);
    RaisedData(pre, segs, idx);
    r := Shifted(idx, |pre|);
  }

  lemma RaisedWalk(pre: seq<Seg>, segs: seq<Seg>, idx: seq<int>)
    requires IsDataIdx(segs, idx)
    ensures SameWalk(segs, idx, pre + segs, Shifted(idx, |pre|))
  {
    var all, r := pre + segs, Shifted(idx, |pre|);
    forall k | 0 <= k < |idx| ensures 0 <= idx[k] < |segs| && 0 <= r[k] < |all| && SameBytes(segs[idx[k]], all[r[k]]) {
      assert idx[k] in idx;
      assert all[idx[k] + |pre|] == segs[idx[k]];
    }
  }

  lemma RaisedData(pre: seq<Seg>, segs: seq<Seg>, idx: seq<int>)
    requires !HasData(pre) && IsDataIdx(segs, idx)
    ensures forall i :: 0 <= i < |pre + segs| ==> (i in Shifted(idx, |pre|) <==> IsData((pre + segs)[i]))
  {
    forall i | 0 <= i < |pre + segs| ensures i in Shifted(idx, |pre|) <==> IsData((pre + segs)[i]) {
      NoDataAt(pre, segs, i);
      assert forall k :: 0 <= k < |idx| ==> idx[k] in idx;
    }
  }

  /** ... or follow it. */
  lemma HoldsAhead(segs: seq<Seg>, post: seq<Seg>, w: Bytes)
    requires !HasData(post) && Holds(segs, w)
    ensures Holds(segs + post, w)
  {
    var idx := DataIdx(segs);
    assert forall k :: 0 <= k < |idx| ==> idx[k] in idx;
    forall i | |segs| <= i < |segs + post| ensures !IsData((segs + post)[i]) {
      assert (segs + post)[i] == post[i - |segs|];
    }
    HoldsWalk(segs, idx, segs + post, idx, w);
  }

  /** ... and may be taken away again. */
  lemma HoldsWithout(pre: seq<Seg>, segs: seq<Seg>, w: Bytes)
    requires !HasData(pre) && Holds(pre + segs, w)
    ensures Holds(segs, w)
  {
    var all := pre + segs;
    var idx := DataIdx(all);
    var lowered := Lowered(pre, segs, idx);
    HoldsWalk(all, idx, segs, lowered, w);
  }

  ghost function Lowered(pre: seq<Seg>, segs: seq<Seg>, idx: seq<int>): (r: seq<int>)
    requires !HasData(pre) && IsDataIdx(pre + segs, idx)
    ensures SameWalk(pre + segs, idx, segs, r)
    ensures forall i :: 0 <= i < |segs| ==> (i in r <==> IsData(segs[i]))
  {
    var all := pre + segs;
    assert forall k :: 0 <= k < |idx| ==> idx[k] >= |pre| by {
      forall k | 0 <= k < |idx| ensures idx[k] >= |pre| {
        assert idx[k] in idx;
        NoDataAt(pre, segs, idx[k]);
      }
    }
    assert forall i :: 0 <= i < |segs| ==> all[i + |pre|] == segs[i];
    Shifted(idx, -|pre|)
  }
}
