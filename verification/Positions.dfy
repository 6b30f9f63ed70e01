/** Split positions: resolving a marker plus offset against a payload, the sorted
    cut list of the multi-position ops and the single cut of the faked-split ops. */
module Positions {
  import opened Types

  /** More than this many configured positions are ignored. */
  const MAX_SPLITS := 64

  function Clamp(pos: int, n: nat): (r: nat)
    ensures r <= n
    ensures 0 <= pos <= n ==> r == pos
  {
    if pos < 0 then 0 else if pos > n then n else pos
  }

  /** Byte offset of one split position, clamped to the payload; 0 when the
      protocol does not have the marker. */
  function FindSplitPos(payload: Bytes, info: L7Info, spec: PosSpec): (r: nat)
    ensures r <= |payload|
  {
    var n, off := |payload|, spec.offset;
    match spec.marker
    case MarkerAbs => Clamp(if off < 0 then n + off else off, n)
    case MarkerMethod => if info.proto != {Http} then 0 else Clamp(info.methodOff + off, n)
    case MarkerHost => if info.hostOff <= 0 then 0 else Clamp(info.hostOff + off, n)
    case MarkerEndHost => if info.hostOff <= 0 then 0 else Clamp(info.hostOff + info.hostLen + off, n)
    case MarkerSLD => if info.sldOff <= 0 then 0 else Clamp(info.sldOff + off, n)
    case MarkerEndSLD => if info.sldOff <= 0 then 0 else Clamp(info.sldOff + info.sldLen + off, n)
    case MarkerMidSLD => if info.sldOff <= 0 then 0 else Clamp(info.sldOff + HalfTowardZero(info.sldLen) + off, n)
    case MarkerSNIExt => if info.sniExtOff <= 0 then 0 else Clamp(info.sniExtOff + off, n)
  }

  /** Integer division by two, truncated toward zero. */
  function HalfTowardZero(x: int): int {
    if x >= 0 then x / 2 else -((-x) / 2)
  }

  /** The point of [0, n] nearest to t. */
  predicate Nearest(t: int, n: nat, r: int) {
    0 <= r <= n && (0 <= t <= n ==> r == t) && (t < 0 ==> r == 0) && (t > n ==> r == n)
  }

  /** An absolute position counts from the start, or from the end when negative; a marker
      counts from its own place, and a payload without it gives 0. A place is missing
      when its offset is not positive, the method's only outside plain HTTP. */
  ghost predicate IsPlace(payload: Bytes, info: L7Info, spec: PosSpec, r: int) {
    var n, off, i := |payload|, spec.offset, info;
    match spec.marker
    case MarkerAbs => if off >= 0 then Nearest(off, n, r) else Nearest(n + off, n, r)
    case MarkerMethod => if i.proto == {Http} then Nearest(i.methodOff + off, n, r) else r == 0
    case MarkerHost => if i.hostOff > 0 then Nearest(i.hostOff + off, n, r) else r == 0
    case MarkerEndHost => if i.hostOff > 0 then Nearest(i.hostOff + i.hostLen + off, n, r) else r == 0
    case MarkerSLD => if i.sldOff > 0 then Nearest(i.sldOff + off, n, r) else r == 0
    case MarkerEndSLD => if i.sldOff > 0 then Nearest(i.sldOff + i.sldLen + off, n, r) else r == 0
    case MarkerMidSLD =>
      if i.sldOff <= 0 then r == 0
      else exists m :: IsHalf(i.sldLen, m) && Nearest(i.sldOff + m + off, n, r)
    case MarkerSNIExt => if i.sniExtOff > 0 then Nearest(i.sniExtOff + off, n, r) else r == 0
  }

  /** m is half of x, an odd x losing its last unit. */
  predicate IsHalf(x: int, m: int) { if x >= 0 then 0 <= x - 2 * m <= 1 else 0 <= 2 * m - x <= 1 }

  lemma HalfIs(x: int, m: int)
    ensures IsHalf(x, m) <==> m == HalfTowardZero(x)
  {
  }

  lemma MidPlace(payload: Bytes, info: L7Info, spec: PosSpec, r: int)
    requires spec.marker == MarkerMidSLD && info.sldOff > 0
    ensures r == FindSplitPos(payload, info, spec) <==> IsPlace(payload, info, spec, r)
  {
    HalfIs(info.sldLen, HalfTowardZero(info.sldLen));
    if m :| IsHalf(info.sldLen, m) && Nearest(info.sldOff + m + spec.offset, |payload|, r) {
      HalfIs(info.sldLen, m);
    }
  }

  /** Every position resolves to the place its marker and offset name. */
  lemma ResolvesToPlace(payload: Bytes, info: L7Info, spec: PosSpec, r: int)
    ensures r == FindSplitPos(payload, info, spec) <==> IsPlace(payload, info, spec, r)
  {
    if spec.marker == MarkerMidSLD && info.sldOff > 0 { MidPlace(payload, info, spec, r); }
  }

  /** The configured list, the default list, or the first MAX_SPLITS entries. */
  function SplitSpecs(p: OpParams): (r: seq<PosSpec>)
    ensures 1 <= |r| <= 64
    ensures if p.splitPos == [] then r == [PosSpec(MarkerAbs, 2)] else r <= p.splitPos && (|p.splitPos| <= 64 ==> r == p.splitPos)
    ensures |p.splitPos| > 64 ==> |r| == 64
  {
    if |p.splitPos| == 0 then [PosSpec(MarkerAbs, 2)]
    else if |p.splitPos| > MAX_SPLITS then p.splitPos[..MAX_SPLITS]
    else p.splitPos
  }

  predicate Increasing(xs: seq<int>) {
    forall i, j :: 0 <= i < j < |xs| ==> xs[i] < xs[j]
  }

  /** A cut list: strictly increasing and strictly inside a payload of n bytes. */
  predicate Cuts(pos: seq<int>, n: int) {
    Increasing(pos) && forall i :: 0 <= i < |pos| ==> 0 < pos[i] < n
  }

  /** Adds x to an increasing list, keeping it increasing and free of duplicates. */
  function InsertPos(xs: seq<int>, x: int): (r: seq<int>)
    requires Increasing(xs)
    ensures Increasing(r)
    ensures forall y :: y in r <==> y == x || y in xs
  {
    if |xs| == 0 || x < xs[0] then [x] + xs
    else if x == xs[0] then xs
    else
      var rest := InsertPos(xs[1..], x);
      assert forall y :: y in xs <==> y == xs[0] || y in xs[1..];
      assert forall i :: 0 <= i < |rest| ==> rest[i] in rest;
      [xs[0]] + rest
  }

  predicate UsableCut(c: Ctx, spec: PosSpec, p: int) {
    FindSplitPos(c.payload, c.info, spec) == p && 0 < p < |c.payload|
  }

  predicate SomeCut(c: Ctx, specs: seq<PosSpec>, p: int) {
    exists i :: 0 <= i < |specs| && UsableCut(c, specs[i], p)
  }

  lemma SomeCutSnoc(c: Ctx, specs: seq<PosSpec>, p: int)
    requires |specs| > 0
    ensures SomeCut(c, specs, p) <==> SomeCut(c, specs[..|specs| - 1], p) || UsableCut(c, specs[|specs| - 1], p)
  {
    var front := specs[..|specs| - 1];
    if SomeCut(c, front, p) {
      var i :| 0 <= i < |front| && UsableCut(c, front[i], p);
      assert UsableCut(c, specs[i], p);
    }
    if SomeCut(c, specs, p) {
      var i :| 0 <= i < |specs| && UsableCut(c, specs[i], p);
      assert i < |front| ==> front[i] == specs[i];
    }
  }

  lemma InsertCut(xs: seq<int>, x: int, n: int)
    requires Cuts(xs, n) && 0 < x < n
    ensures Cuts(InsertPos(xs, x), n)
  {
    var r := InsertPos(xs, x);
    assert forall i :: 0 <= i < |r| ==> r[i] in r;
    assert forall i :: 0 <= i < |xs| ==> xs[i] in xs;
  }

  /** Every configured position strictly inside the payload, sorted, once each. */
  function MultiPos(c: Ctx, specs: seq<PosSpec>): (r: seq<int>)
    ensures Cuts(r, |c.payload|)
    ensures forall p :: p in r <==> SomeCut(c, specs, p)
  {
    if |specs| == 0 then [] else
      var last := |specs| - 1;
      var rest := MultiPos(c, specs[..last]);
      var p := FindSplitPos(c.payload, c.info, specs[last]);
      assert forall q :: SomeCut(c, specs, q) <==> q in rest || UsableCut(c, specs[last], q) by {
        forall q ensures SomeCut(c, specs, q) <==> q in rest || UsableCut(c, specs[last], q) {
          SomeCutSnoc(c, specs, q);
        }
      }
      if 0 < p < |c.payload| then
        InsertCut(rest, p, |c.payload|);
        InsertPos(rest, p)
      else rest
  }

  method ResolveMultiPos(c: Ctx, specs: seq<PosSpec>) returns (out: seq<int>)
    ensures out == MultiPos(c, specs)
  {
    out := [];
    for i := 0 to |specs|
      invariant out == MultiPos(c, specs[..i])
    {
      assert specs[..i + 1][..i] == specs[..i];
      var pos := FindSplitPos(c.payload, c.info, specs[i]);
      if pos <= 0 || pos >= |c.payload| {
        continue;
      }
      out := InsertPos(out, pos);
    }
    assert specs[..|specs|] == specs;
  }

  /** The first position of one marker class that resolves to something. */
  function FirstPos(c: Ctx, specs: seq<PosSpec>, absolute: bool): (r: nat)
    ensures r <= |c.payload|
    decreases |specs|
  {
    if |specs| == 0 then 0 else
      var p := FindSplitPos(c.payload, c.info, specs[0]);
      if specs[0].marker.MarkerAbs? == absolute && p != 0 then p else FirstPos(c, specs[1..], absolute)
  }

  /** Relative markers first, absolute ones second, position 1 as a last resort. */
  function ChosenPos(c: Ctx, specs: seq<PosSpec>): nat {
    var rel := FirstPos(c, specs, false);
    if rel != 0 then rel else
      var abs := FirstPos(c, specs, true);
      if abs != 0 then abs else 1
  }

  /** The one cut of the faked-split ops, 0 for "no cut". */
  function SinglePos(c: Ctx, specs: seq<PosSpec>): (r: nat)
    ensures r == 0 || r < |c.payload|
  {
    var pos := ChosenPos(c, specs);
    if pos >= |c.payload| then 0 else pos
  }

  /** Entry i is the first of its marker class that resolves to something. */
  ghost predicate LeadsAt(c: Ctx, specs: seq<PosSpec>, absolute: bool, i: nat)
    requires i < |specs|
  {
    && specs[i].marker.MarkerAbs? == absolute && !IsPlace(c.payload, c.info, specs[i], 0)
    && forall j :: 0 <= j < i && specs[j].marker.MarkerAbs? == absolute ==> IsPlace(c.payload, c.info, specs[j], 0)
  }

  ghost predicate NoneLeads(c: Ctx, specs: seq<PosSpec>, absolute: bool) {
    forall j :: 0 <= j < |specs| && specs[j].marker.MarkerAbs? == absolute ==> IsPlace(c.payload, c.info, specs[j], 0)
  }

  ghost predicate Names(c: Ctx, specs: seq<PosSpec>, absolute: bool, i: nat, p: nat)
    requires i < |specs|
  {
    LeadsAt(c, specs, absolute, i) && IsPlace(c.payload, c.info, specs[i], p)
  }

  /** p is the place the first relative entry that has one names, or, without any, the
      first absolute entry; 1 when no entry names a place. */
  ghost predicate Chosen(c: Ctx, specs: seq<PosSpec>, p: nat) {
    if exists i :: 0 <= i < |specs| && LeadsAt(c, specs, false, i) then
      exists i :: 0 <= i < |specs| && Names(c, specs, false, i, p)
    else if exists i :: 0 <= i < |specs| && LeadsAt(c, specs, true, i) then
      exists i :: 0 <= i < |specs| && Names(c, specs, true, i, p)
    else p == 1
  }

  lemma {:induction false} FirstLeads(c: Ctx, specs: seq<PosSpec>, absolute: bool)
    ensures var p := FirstPos(c, specs, absolute);
      if p == 0 then NoneLeads(c, specs, absolute)
      else exists i :: 0 <= i < |specs| && Names(c, specs, absolute, i, p)
    decreases |specs|
  {
    if |specs| > 0 {
      var p := FindSplitPos(c.payload, c.info, specs[0]);
      ResolvesToPlace(c.payload, c.info, specs[0], p);
      ResolvesToPlace(c.payload, c.info, specs[0], 0);
      if specs[0].marker.MarkerAbs? == absolute && p != 0 {
        assert Names(c, specs, absolute, 0, p);
      } else {
        var q := FirstPos(c, specs[1..], absolute);
        FirstLeads(c, specs[1..], absolute);
        forall j | 1 <= j < |specs| ensures specs[j] == specs[1..][j - 1] {}
        if q != 0 {
          var i :| 0 <= i < |specs[1..]| && Names(c, specs[1..], absolute, i, q);
          assert Names(c, specs, absolute, i + 1, q);
        }
      }
    }
  }

  lemma PlaceUnique(c: Ctx, spec: PosSpec, p: nat, q: nat)
    requires IsPlace(c.payload, c.info, spec, p) && IsPlace(c.payload, c.info, spec, q)
    ensures p == q
  {
    ResolvesToPlace(c.payload, c.info, spec, p);
    ResolvesToPlace(c.payload, c.info, spec, q);
  }

  lemma ChosenUnique(c: Ctx, specs: seq<PosSpec>, p: nat, q: nat)
    requires Chosen(c, specs, p) && Chosen(c, specs, q)
    ensures p == q
  {
    forall i, j, absolute | 0 <= i < |specs| && 0 <= j < |specs| && Names(c, specs, absolute, i, p) && Names(c, specs, absolute, j, q)
      ensures p == q
    {
      PlaceUnique(c, specs[i], p, q);
    }
  }

  /** The single cut is the chosen place when that lies inside the payload, else none. */
  lemma SingleCutExactly(c: Ctx, specs: seq<PosSpec>) returns (p: nat)
    ensures Chosen(c, specs, p) && forall q: nat :: Chosen(c, specs, q) ==> q == p
    ensures SinglePos(c, specs) == if p < |c.payload| then p else 0
  {
    FirstLeads(c, specs, false);
    FirstLeads(c, specs, true);
    p := ChosenPos(c, specs);
    forall i, absolute | 0 <= i < |specs| && LeadsAt(c, specs, absolute, i) ensures !NoneLeads(c, specs, absolute) {}
    assert Chosen(c, specs, p);
    forall q: nat | Chosen(c, specs, q) ensures q == p {
      ChosenUnique(c, specs, p, q);
    }
  }

  method ResolveSinglePos(c: Ctx, specs: seq<PosSpec>) returns (pos: nat)
    ensures pos == SinglePos(c, specs)
  {
    pos := 0;
    var i := 0;
    while i < |specs| && pos == 0
      invariant 0 <= i <= |specs|
      invariant FirstPos(c, specs, false) == if pos != 0 then pos else FirstPos(c, specs[i..], false)
    {
      if !specs[i].marker.MarkerAbs? {
        pos := FindSplitPos(c.payload, c.info, specs[i]);
      }
      i := i + 1;
    }
    if pos == 0 {
      i := 0;
      while i < |specs| && pos == 0
        invariant 0 <= i <= |specs|
        invariant FirstPos(c, specs, true) == if pos != 0 then pos else FirstPos(c, specs[i..], true)
      {
        if specs[i].marker.MarkerAbs? {
          pos := FindSplitPos(c.payload, c.info, specs[i]);
        }
        i := i + 1;
      }
    }
    if pos == 0 {
      pos := 1;
    }
    if pos >= |c.payload| {
      return 0;
    }
  }

  /** There is no cut exactly when the payload is shorter than two bytes or the
      chosen position was clamped to its end: a long payload can go uncut too. */
  lemma NoCutExactly(c: Ctx, specs: seq<PosSpec>)
    ensures SinglePos(c, specs) == 0 <==> |c.payload| <= 1 || ChosenPos(c, specs) == |c.payload|
  {
    assert ChosenPos(c, specs) != 0;
    assert ChosenPos(c, specs) == 1 || ChosenPos(c, specs) <= |c.payload|;
  }

  /** A ten-byte payload with a single configured position past its end is not cut. */
  lemma LongPayloadUncut(c: Ctx)
    requires |c.payload| == 10
    ensures SinglePos(c, [PosSpec(MarkerAbs, 20)]) == 0
  {
    var specs := [PosSpec(MarkerAbs, 20)];
    assert specs[1..] == [];
    assert FirstPos(c, specs[1..], false) == 0;
    assert FindSplitPos(c.payload, c.info, specs[0]) == 10;
  }
}
