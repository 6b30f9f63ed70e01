/** The server's side: a TCP receiver in the style of section 3.10.7.4 of
    RFC 9293. Bytes below the next expected offset are trimmed, bytes above it are
    held, and a later copy of a byte that is not delivered yet replaces the held one. */
module Receiver {
  import opened Types
  import opened Spans

  datatype State = State(delivered: Bytes, held: map<int, byte>)

  const FRESH := State([], map[])

  /** Hands held bytes to the application as long as the next one is there. */
  function Drain(r: State): (r': State)
    ensures |r'.delivered| !in r'.held
    decreases |r.held|
  {
    var next := |r.delivered|;
    if next in r.held then
      var fewer := r.held - {next};
      assert |fewer| < |r.held| by { assert fewer.Keys == r.held.Keys - {next}; }
      Drain(State(r.delivered + [r.held[next]], fewer))
    else r
  }

  /** Stream offset o is in the segment and not delivered yet. */
  predicate Undelivered(s: Seg, next: nat, o: int) { Max(next, s.seqOff) <= o < s.End() }

  /** The part of a segment that is not delivered yet replaces what is held there. */
  function Store(held: map<int, byte>, s: Seg, next: nat): (m: map<int, byte>)
    ensures forall o :: o in m <==> o in held || Undelivered(s, next, o)
    ensures forall o :: o in m ==> m[o] == if Undelivered(s, next, o) then s.data[o - s.seqOff] else held[o]
  {
    held + map o: int | Max(next, s.seqOff) <= o < s.End() && Undelivered(s, next, o) :: s.data[o - s.seqOff]
  }

  function Max(a: int, b: int): int { if a > b then a else b }

  function Arrive(r: State, s: Seg): State {
    Drain(State(r.delivered, Store(r.held, s, |r.delivered|)))
  }

  /** A plan in transmit order; decoys and resets never reach the server. */
  function Receive(segs: seq<Seg>): State
    decreases |segs|
  {
    if |segs| == 0 then FRESH
    else
      var last := |segs| - 1;
      var r := Receive(segs[..last]);
      if IsData(segs[last]) then Arrive(r, segs[last]) else r
  }

  /** Everything received so far is a true copy of w, at least from offset h on. */
  predicate Faithful(r: State, w: Bytes, h: nat) {
    && r.delivered <= w
    && (forall o :: o in r.held ==> |r.delivered| <= o < |w|)
    && (forall o :: o in r.held && o >= h ==> r.held[o] == w[o])
  }

  predicate Covered(r: State, o: int) {
    0 <= o < |r.delivered| || o in r.held
  }

  lemma {:induction false} DrainFaithful(r: State, w: Bytes)
    requires Faithful(r, w, 0)
    ensures Faithful(Drain(r), w, 0)
    ensures forall o :: Covered(r, o) ==> Covered(Drain(r), o)
    decreases |r.held|
  {
    var next := |r.delivered|;
    if next in r.held {
      var fewer := r.held - {next};
      assert |fewer| < |r.held| by { assert fewer.Keys == r.held.Keys - {next}; }
      var r1 := State(r.delivered + [r.held[next]], fewer);
      assert r1.delivered <= w;
      DrainFaithful(r1, w);
    }
  }

  /** The segment's bytes from stream offset h on are those of w. */
  predicate Agrees(s: Seg, w: Bytes, h: nat) {
    && s.End() <= |w|
    && forall o :: Max(h, s.seqOff) <= o < s.End() ==> s.data[o - s.seqOff] == w[o]
  }

  lemma ArriveFaithful(r: State, s: Seg, w: Bytes)
    requires Faithful(r, w, 0) && Agrees(s, w, 0)
    ensures Faithful(Arrive(r, s), w, 0)
    ensures forall o :: Covered(r, o) || (0 <= o && s.seqOff <= o < s.End()) ==> Covered(Arrive(r, s), o)
  {
    var r1 := State(r.delivered, Store(r.held, s, |r.delivered|));
    DrainFaithful(r1, w);
    assert forall o :: Covered(r, o) || (0 <= o && s.seqOff <= o < s.End()) ==> Covered(r1, o);
  }

  /** While the head of the stream is missing nothing is delivered, so junk below
      h can only be held. */
  lemma ArriveHeadless(r: State, s: Seg, w: Bytes, h: nat)
    requires Faithful(r, w, h) && r.delivered == [] && 0 !in r.held
    requires Agrees(s, w, h) && s.seqOff > 0
    ensures Faithful(Arrive(r, s), w, h) && Arrive(r, s).delivered == [] && 0 !in Arrive(r, s).held
    ensures forall o :: Covered(r, o) || s.seqOff <= o < s.End() ==> Covered(Arrive(r, s), o)
  {
    assert Arrive(r, s) == State([], Store(r.held, s, 0));
  }

  /** The arriving head overwrites whatever was held below h. */
  lemma ArriveHead(r: State, s: Seg, w: Bytes, h: nat)
    requires Faithful(r, w, h) && r.delivered == []
    requires Agrees(s, w, 0) && s.seqOff <= 0 && h <= s.End()
    ensures Faithful(Arrive(r, s), w, 0)
    ensures forall o :: Covered(r, o) || 0 <= o < s.End() ==> Covered(Arrive(r, s), o)
  {
    var r1 := State([], Store(r.held, s, 0));
    assert Faithful(r1, w, 0);
    DrainFaithful(r1, w);
    assert forall o :: Covered(r, o) || 0 <= o < s.End() ==> Covered(r1, o);
  }

  /** A segment's own stretch agrees with the carried stream. */
  lemma SpanAgrees(segs: seq<Seg>, idx: seq<int>, k: int, w: Bytes)
    requires SortedIdx(segs, idx) && 0 <= k < |idx| && SpanCarries(segs, idx, k, w)
    ensures Agrees(segs[idx[k]], w, From(segs, idx, k))
  {
    var s, f, p := segs[idx[k]], From(segs, idx, k), Prefix(segs, idx, k);
    forall o | Max(f, s.seqOff) <= o < s.End() ensures s.data[o - s.seqOff] == w[o] {
      assert s.data[p..][o - f] == w[f..s.End()][o - f];
    }
  }

  /** Bytes a data segment among the first m plan segments brings. */
  predicate Brought(segs: seq<Seg>, m: int, o: int)
    requires 0 <= m <= |segs|
  {
    exists i :: 0 <= i < m && IsData(segs[i]) && segs[i].seqOff <= o < segs[i].End()
  }

  /** No overlap anywhere above offset 0: every moment of the run is faithful. */
  lemma {:induction false} FaithfulRun(segs: seq<Seg>, w: Bytes, m: int)
    requires 0 <= m <= |segs|
    requires forall i :: 0 <= i < m && IsData(segs[i]) ==> Agrees(segs[i], w, 0)
    ensures Faithful(Receive(segs[..m]), w, 0)
    ensures forall o :: 0 <= o && Brought(segs, m, o) ==> Covered(Receive(segs[..m]), o)
    decreases m
  {
    if m > 0 {
      assert segs[..m][..m - 1] == segs[..m - 1];
      FaithfulRun(segs, w, m - 1);
      if IsData(segs[m - 1]) {
        ArriveFaithful(Receive(segs[..m - 1]), segs[m - 1], w);
      }
      BroughtStep(segs, m);
    }
  }

  lemma BroughtStep(segs: seq<Seg>, m: int)
    requires 0 < m <= |segs|
    ensures forall o :: Brought(segs, m, o) <==>
      Brought(segs, m - 1, o) || (IsData(segs[m - 1]) && segs[m - 1].seqOff <= o < segs[m - 1].End())
  {
    forall o | Brought(segs, m, o)
      ensures Brought(segs, m - 1, o) || (IsData(segs[m - 1]) && segs[m - 1].seqOff <= o < segs[m - 1].End())
    {
      var i :| 0 <= i < m && IsData(segs[i]) && segs[i].seqOff <= o < segs[i].End();
    }
  }

  /** Before the head arrives nothing is delivered. */
  lemma {:induction false} HeadlessRun(segs: seq<Seg>, w: Bytes, h: nat, m: int)
    requires 0 <= m <= |segs|
    requires forall i :: 0 <= i < m && IsData(segs[i]) ==> Agrees(segs[i], w, h) && segs[i].seqOff > 0
    ensures var r := Receive(segs[..m]); Faithful(r, w, h) && r.delivered == [] && 0 !in r.held
    ensures forall o :: Brought(segs, m, o) ==> Covered(Receive(segs[..m]), o)
    decreases m
  {
    if m > 0 {
      assert segs[..m][..m - 1] == segs[..m - 1];
      HeadlessRun(segs, w, h, m - 1);
      if IsData(segs[m - 1]) {
        ArriveHeadless(Receive(segs[..m - 1]), segs[m - 1], w, h);
      }
      BroughtStep(segs, m);
    }
  }

  /** The head is the last data segment: once it is in, the run is faithful. */
  lemma {:induction false} HeadRun(segs: seq<Seg>, w: Bytes, h: nat, head: int, m: int)
    requires 0 <= head < m <= |segs|
    requires forall i :: 0 <= i < head && IsData(segs[i]) ==> Agrees(segs[i], w, h) && segs[i].seqOff > 0
    requires IsData(segs[head]) && Agrees(segs[head], w, 0) && segs[head].seqOff <= 0 && h <= segs[head].End()
    requires forall i :: head < i < |segs| ==> !IsData(segs[i])
    ensures Faithful(Receive(segs[..m]), w, 0)
    ensures forall o :: 0 <= o && Brought(segs, m, o) ==> Covered(Receive(segs[..m]), o)
    decreases m
  {
    assert segs[..m][..m - 1] == segs[..m - 1];
    BroughtStep(segs, m);
    if m - 1 == head {
      HeadlessRun(segs, w, h, head);
      ArriveHead(Receive(segs[..head]), segs[head], w, h);
    } else {
      HeadRun(segs, w, h, head, m - 1);
    }
  }

  /** A drained, faithful receiver that holds every byte has delivered them all. */
  lemma AllDelivered(r: State, w: Bytes)
    requires Faithful(r, w, 0) && |r.delivered| !in r.held
    requires forall o :: 0 <= o < |w| ==> Covered(r, o)
    ensures r.delivered == w
  {
    assert !Covered(r, |r.delivered|);
  }

  lemma {:induction false} ReceiveDrained(segs: seq<Seg>)
    ensures var r := Receive(segs); |r.delivered| !in r.held
    decreases |segs|
  {
    if |segs| > 0 {
      ReceiveDrained(segs[..|segs| - 1]);
    }
  }

  lemma EveryByteBrought(segs: seq<Seg>, idx: seq<int>, w: Bytes)
    requires IsDataIdx(segs, idx) && Carries(segs, idx, w)
    ensures forall o :: 0 <= o < |w| ==> Brought(segs, |segs|, o)
  {
    forall k | 0 <= k < |idx| ensures SpanFits(segs, idx, k, |w|) {
      assert SpanCarries(segs, idx, k, w);
    }
    forall o | 0 <= o < |w| ensures Brought(segs, |segs|, o) {
      var k := SpanOf(segs, idx, |w|, o, |idx|);
      assert idx[k] in idx;
      assert SpanFits(segs, idx, k, |w|);
      assert IsData(segs[idx[k]]) && segs[idx[k]].seqOff <= o < segs[idx[k]].End();
    }
  }

  lemma OverlapFreeAgrees(segs: seq<Seg>, idx: seq<int>, w: Bytes)
    requires IsDataIdx(segs, idx) && Carries(segs, idx, w) && Shape(segs, idx)
    requires |idx| > 1 ==> Prefix(segs, idx, 1) == 0
    ensures forall i :: 0 <= i < |segs| && IsData(segs[i]) ==> Agrees(segs[i], w, 0)
  {
    forall i | 0 <= i < |segs| && IsData(segs[i]) ensures Agrees(segs[i], w, 0) {
      var k :| 0 <= k < |idx| && idx[k] == i;
      assert SpanCarries(segs, idx, k, w);
      SpanAgrees(segs, idx, k, w);
      if k > 0 { assert Prefix(segs, idx, k) == 0; }
    }
  }

  lemma HeadLastAgrees(segs: seq<Seg>, idx: seq<int>, w: Bytes)
    requires IsDataIdx(segs, idx) && Carries(segs, idx, w) && Shape(segs, idx)
    requires |idx| > 1 && Prefix(segs, idx, 1) != 0
    ensures IsData(segs[idx[0]]) && Agrees(segs[idx[0]], w, 0)
    ensures forall i :: 0 <= i < |segs| && IsData(segs[i]) && i != idx[0] ==>
      i < idx[0] && Agrees(segs[i], w, segs[idx[0]].End()) && segs[i].seqOff > 0
  {
    assert SpanCarries(segs, idx, 0, w) && idx[0] in idx;
    SpanAgrees(segs, idx, 0, w);
    forall i | 0 <= i < |segs| && IsData(segs[i]) && i != idx[0]
      ensures i < idx[0] && Agrees(segs[i], w, segs[idx[0]].End()) && segs[i].seqOff > 0
    {
      var k :| 0 <= k < |idx| && idx[k] == i;
      assert SpanCarries(segs, idx, k, w);
      SpanAgrees(segs, idx, k, w);
      if k > 1 {
        assert Before(segs, idx[1], idx[k]);
        assert Prefix(segs, idx, k) == 0;
      }
    }
  }

  /** Main result: a plan that holds w delivers exactly w, whatever its overlaps,
      decoys and transmit order; and at no moment has the application been handed
      anything but the next bytes of w. */
  lemma Delivery(segs: seq<Seg>, w: Bytes)
    requires Holds(segs, w)
    ensures Receive(segs).delivered == w
    ensures forall m :: 0 <= m <= |segs| ==> Receive(segs[..m]).delivered <= w
  {
    var idx := DataIdx(segs);
    EveryByteBrought(segs, idx, w);
    ReceiveDrained(segs);
    assert segs[..|segs|] == segs;
    if |idx| > 1 && Prefix(segs, idx, 1) != 0 {
      HeadLastAgrees(segs, idx, w);
      var head, h := idx[0], segs[idx[0]].End();
      HeadRun(segs, w, h, head, |segs|);
      forall m | 0 <= m <= |segs| ensures Receive(segs[..m]).delivered <= w {
        if m <= head { HeadlessRun(segs, w, h, m); } else { HeadRun(segs, w, h, head, m); }
      }
    } else {
      OverlapFreeAgrees(segs, idx, w);
      FaithfulRun(segs, w, |segs|);
      forall m | 0 <= m <= |segs| ensures Receive(segs[..m]).delivered <= w {
        FaithfulRun(segs, w, m);
      }
    }
    AllDelivered(Receive(segs), w);
  }
}
