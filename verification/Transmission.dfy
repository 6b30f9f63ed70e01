/** What the split and decoy ops put on the wire, segment by segment and in order: byte
    ranges, overlaps and decoy bytes, stated on the plan alone. */
module Transmission {
  import opened Types
  import opened Positions
  import opened Spans
  import opened Ops
  import opened Streams
  import opened Headers

  /** The real segments of a plan, or the others, in plan order. */
  function Kept(segs: seq<Seg>, data: bool): seq<Seg> {
    if |segs| == 0 then [] else (if (segs[0].kind == SegData) == data then [segs[0]] else []) + Kept(segs[1..], data)
  }

  lemma {:induction false} KeptJoin(a: seq<Seg>, b: seq<Seg>, data: bool)
    ensures Kept(a + b, data) == Kept(a, data) + Kept(b, data)
    decreases |a|
  {
    if |a| == 0 {
      assert a + b == b;
    } else {
      var head := if (a[0].kind == SegData) == data then [a[0]] else [];
      assert (a + b)[0] == a[0] && (a + b)[1..] == a[1..] + b;
      KeptJoin(a[1..], b, data);
      assert head + (Kept(a[1..], data) + Kept(b, data)) == (head + Kept(a[1..], data)) + Kept(b, data);
    }
  }

  lemma {:induction false} NonDataKept(segs: seq<Seg>)
    ensures NonData(segs) == Kept(segs, false)
    decreases |segs|
  {
    if |segs| > 0 {
      var init, last := segs[..|segs| - 1], segs[|segs| - 1];
      NonDataKept(init);
      KeptJoin(init, [last], false);
      assert init + [last] == segs && [last][1..] == [];
    }
  }

  // ---------- single segments ----------

  function Tile(pattern: Bytes, i: nat): byte { if |pattern| == 0 then 0 else pattern[i % |pattern|] }

  /** Real bytes [from, to) of the payload behind `ovl` bytes of the overlap pattern. */
  predicate IsReal(c: Ctx, s: Seg, from: nat, to: nat, ovl: nat, ttl: int) {
    && s.kind == SegData && from <= to <= |c.payload| && |s.data| == ovl + (to - from) && s.seqOff == from - ovl
    && (forall j :: 0 <= j < ovl ==> s.data[j] == Tile(c.params.seqovlPattern, j))
    && s.data[ovl..] == c.payload[from..to]
    && s.ttl == ttl && s.fool == {} && s.repeats == 1 && s.ipid == c.params.ipid
    && s.flags == {} && s.frag == 0 && s.window == 0 && s.windowScale == 0
  }

  /** The header of a decoy: the op's own TTL and fooling, sent at least once. */
  predicate IsDecoy(c: Ctx, s: Seg) {
    && s.kind == SegFake && s.ttl == c.params.ttl && s.fool == c.params.fool && s.ipid == c.params.ipid
    && (if c.params.repeats < 1 then s.repeats == 1 else s.repeats == c.params.repeats)
    && s.flags == {} && s.frag == 0 && s.window == 0 && s.windowScale == 0
  }

  /** A decoy for [from, to): the fake pattern as if laid over the whole payload. */
  predicate IsPatternDecoy(c: Ctx, s: Seg, from: nat, to: nat) {
    && IsDecoy(c, s) && s.seqOff == from && from <= to && |s.data| == to - from
    && forall j :: 0 <= j < to - from ==> s.data[j] == Tile(c.params.pattern, from + j)
  }

  predicate Letter(b: byte) { 97 <= b <= 122 }

  predicate LetterOrDigit(b: byte) { Letter(b) || 48 <= b <= 57 }

  const DOT_BYTE: byte := 46

  predicate KnownTld(t: Bytes) {
    t in {[99, 111, 109], [111, 114, 103], [110, 101, 116], [101, 100, 117], [103, 111, 118], [98, 105, 122]}
  }

  /** A fake hostname: the template cut from the left or grown to the left behind a dot,
      or random characters that end in a known top-level domain from seven bytes on. */
  predicate IsFakeHost(h: Bytes, template: Bytes) {
    var n, t := |h|, |template|;
    if t > 0 && n <= t then h == template[t - n..]
    else if t > 0 then
      && h[n - t..] == template && h[n - t - 1] == DOT_BYTE
      && forall j :: 0 <= j < n - t - 1 ==> if j == 0 then Letter(h[j]) else LetterOrDigit(h[j])
    else
      && (n >= 7 ==> h[n - 4] == DOT_BYTE && KnownTld(h[n - 3..]))
      && forall j :: 0 <= j < (if n >= 7 then n - 4 else n) ==> if j == 0 then Letter(h[j]) else LetterOrDigit(h[j])
  }

  predicate IsHostDecoy(c: Ctx, s: Seg, from: nat, to: nat) {
    IsDecoy(c, s) && s.seqOff == from && from < to && |s.data| == to - from && IsFakeHost(s.data, c.params.hostTemplate)
  }

  lemma RealPartIs(c: Ctx, from: nat, to: nat, ovl: nat)
    requires from <= to <= |c.payload|
    ensures IsReal(c, RealPart(c, from, to, ovl), from, to, ovl, 0)
  {
    var s := RealPart(c, from, to, ovl);
    assert s.data[ovl..] == c.payload[from..to];
  }

  lemma DecoyIs(c: Ctx, from: nat, to: nat)
    requires from <= to <= |c.payload|
    ensures IsPatternDecoy(c, Decoy(c, from, to), from, to)
  {
  }

  lemma AlphabetIs(r: byte)
    ensures Letter(OneOf(ALPHA, r)) && LetterOrDigit(OneOf(ALNUM, r))
  {
  }

  lemma TldIs(r: byte)
    ensures KnownTld([TldByte(r, 0), TldByte(r, 1), TldByte(r, 2)])
  {
    assert TLDS[r as int % 6] in TLDS;
  }

  /** One generated character, by its place. */
  lemma FakeByteIs(size: nat, template: Bytes, random: nat -> byte, j: nat)
    requires j < size
    ensures var b, t := FakeHostByte(size, template, random, j), |template|;
      if t > 0 && size <= t then b == template[t - size + j]
      else if t > 0 then
        if j >= size - t then b == template[j - (size - t)]
        else if j == size - t - 1 then b == DOT_BYTE
        else if j == 0 then Letter(b) else LetterOrDigit(b)
      else if size >= 7 && j == size - 4 then b == DOT_BYTE
      else (size >= 7 && j > size - 4) || if j == 0 then Letter(b) else LetterOrDigit(b)
  {
    AlphabetIs(random(0));
    AlphabetIs(random(j));
  }

  lemma TemplateHostIs(h: Bytes, template: Bytes, random: nat -> byte)
    requires |template| > 0 && forall j :: 0 <= j < |h| ==> h[j] == FakeHostByte(|h|, template, random, j)
    ensures IsFakeHost(h, template)
  {
    var n, t := |h|, |template|;
    forall j | 0 <= j < n ensures h[j] == FakeHostByte(n, template, random, j) { FakeByteIs(n, template, random, j); }
    if n <= t {
      forall j | 0 <= j < n ensures h[j] == template[t - n..][j] { FakeByteIs(n, template, random, j); }
      assert h == template[t - n..];
    } else {
      forall j | 0 <= j < t ensures h[n - t..][j] == template[j] { FakeByteIs(n, template, random, n - t + j); }
      assert h[n - t..] == template;
      FakeByteIs(n, template, random, n - t - 1);
      forall j | 0 <= j < n - t - 1 ensures if j == 0 then Letter(h[j]) else LetterOrDigit(h[j]) {
        FakeByteIs(n, template, random, j);
      }
    }
  }

  lemma RandomHostIs(h: Bytes, random: nat -> byte)
    requires forall j :: 0 <= j < |h| ==> h[j] == FakeHostByte(|h|, [], random, j)
    ensures IsFakeHost(h, [])
  {
    var n := |h|;
    forall j | 0 <= j < (if n >= 7 then n - 4 else n) ensures if j == 0 then Letter(h[j]) else LetterOrDigit(h[j]) {
      FakeByteIs(n, [], random, j);
    }
    if n >= 7 {
      FakeByteIs(n, [], random, n - 4);
      TldIs(random(n));
      assert h[n - 3] == TldByte(random(n), 0) && h[n - 2] == TldByte(random(n), 1) && h[n - 1] == TldByte(random(n), 2);
      assert h[n - 3..] == [h[n - 3], h[n - 2], h[n - 1]];
    }
  }

  lemma FakeHostIs(size: nat, template: Bytes, random: nat -> byte)
    ensures IsFakeHost(FakeHost(size, template, random), template)
  {
    var h := FakeHost(size, template, random);
    if |template| > 0 { TemplateHostIs(h, template, random); } else { RandomHostIs(h, random); }
  }

  lemma HostDecoyIs(c: Ctx, from: nat, to: nat)
    requires from < to
    ensures IsHostDecoy(c, HostDecoy(c, from, to), from, to)
  {
    FakeHostIs(to - from, c.params.hostTemplate, c.random);
  }

  // ---------- multisplit, multidisorder ----------

  /** Where piece i starts, and piece i - 1 ends. */
  function Edge(c: Ctx, pos: seq<int>, i: nat): int
    requires i <= |pos| + 1
  {
    if i == 0 then 0 else if i <= |pos| then pos[i - 1] else |c.payload|
  }

  /** The overlap in force: it takes control over sequence numbers, and a disordered one
      must end below the first cut. */
  function OverlapUsed(c: Ctx, pos: seq<int>, disorder: bool): nat
    requires |pos| > 0
  {
    if c.params.seqovl > 0 && c.caps.seqNo && (disorder ==> c.params.seqovl < pos[0]) then c.params.seqovl else 0
  }

  /** The op does nothing: no cut resolves, or the overlapped piece is over 9316 bytes. */
  predicate SplitIdle(c: Ctx, pos: seq<int>, disorder: bool) {
    |pos| == 0 ||
    (var t := if disorder then 1 else 0;
     OverlapUsed(c, pos, disorder) > 0 && OverlapUsed(c, pos, disorder) + Edge(c, pos, t + 1) - Edge(c, pos, t) > 9316)
  }

  predicate PieceAt(c: Ctx, pos: seq<int>, s: Seg, i: nat, ovl: nat, ttl: int)
    requires i <= |pos|
  {
    0 <= Edge(c, pos, i) < Edge(c, pos, i + 1) && IsReal(c, s, Edge(c, pos, i), Edge(c, pos, i + 1), ovl, ttl)
  }

  /** The k-th piece sent, counted from the start of the payload. */
  function Nth(disorder: bool, last: nat, k: nat): nat
    requires k <= last
  {
    if disorder then last - k else k
  }

  /** All pieces between the cuts, first to last or last to first. The overlap sits on
      the piece at the start of the payload, or, disordered, on the one at the first cut. */
  predicate Pieces(c: Ctx, pos: seq<int>, disorder: bool, ovl: nat, segs: seq<Seg>) {
    && |segs| == |pos| + 1
    && forall k :: 0 <= k < |segs| ==>
         PieceAt(c, pos, segs[k], Nth(disorder, |pos|, k),
                 if Nth(disorder, |pos|, k) == (if disorder then 1 else 0) then ovl else 0, 0)
  }

  /** The injected segments stay in front, in order, and the pieces follow them. */
  predicate SplitLeaves(c: Ctx, disorder: bool, before: PlanState, after: PlanState) {
    var pos, kept := MultiPos(c, SplitSpecs(c.params)), Kept(before.segs, false);
    if SplitIdle(c, pos, disorder) then after == before
    else
      && after.drop && after.dgrams == before.dgrams && |kept| <= |after.segs| && after.segs[..|kept|] == kept
      && Pieces(c, pos, disorder, OverlapUsed(c, pos, disorder), after.segs[|kept|..])
  }

  lemma PartIs(c: Ctx, pos: seq<int>, i: nat, ovl: nat)
    requires Cuts(pos, |c.payload|) && 0 < |pos| && i <= |pos|
    ensures PieceAt(c, pos, Part(c, pos, i, ovl), i, ovl, 0)
  {
    BoundsIncrease(c, pos, i);
    RealPartIs(c, Bound(c, pos, i), Bound(c, pos, i + 1), ovl);
  }

  lemma PartsArePieces(c: Ctx, pos: seq<int>, disorder: bool)
    requires Cuts(pos, |c.payload|) && |pos| > 0 && MultiSegs(c, pos, disorder).Some?
    ensures var parts := MultiSegs(c, pos, disorder).value;
      Pieces(c, pos, disorder, Overlap(c, pos, disorder), if disorder then Reverse(parts) else parts)
  {
    var parts := MultiSegs(c, pos, disorder).value;
    var sent := if disorder then Reverse(parts) else parts;
    forall k | 0 <= k < |sent|
      ensures var i := Nth(disorder, |pos|, k);
        PieceAt(c, pos, sent[k], i, if i == (if disorder then 1 else 0) then Overlap(c, pos, disorder) else 0, 0)
    {
      var i := Nth(disorder, |pos|, k);
      PartIs(c, pos, i, if i == Target(disorder) then Overlap(c, pos, disorder) else 0);
      assert sent[k] == parts[i];
    }
  }

  lemma MultiLeaves(c: Ctx, disorder: bool, st: PlanState)
    ensures SplitLeaves(c, disorder, st, MultiOp(c, disorder, st))
  {
    var pos, kept := MultiPos(c, SplitSpecs(c.params)), Kept(st.segs, false);
    NonDataKept(st.segs);
    if !SplitIdle(c, pos, disorder) {
      PartsArePieces(c, pos, disorder);
      var parts := MultiSegs(c, pos, disorder).value;
      var sent := if disorder then Reverse(parts) else parts;
      assert (kept + sent)[..|kept|] == kept && (kept + sent)[|kept|..] == sent;
    }
  }

  lemma PieceEnds(c: Ctx, pos: seq<int>, disorder: bool, ovl: nat, segs: seq<Seg>, k: nat)
    requires Pieces(c, pos, disorder, ovl, segs) && k < |segs|
    ensures segs[k].kind == SegData && segs[k].End() == Edge(c, pos, Nth(disorder, |pos|, k) + 1)
  {
  }

  lemma CutEnds(pos: seq<int>, n: int, disorder: bool, ends: seq<int>)
    requires Cuts(pos, n) && |ends| == |pos| + 1
    requires forall k :: 0 <= k < |ends| ==> ends[k] == (pos + [n])[Nth(disorder, |pos|, k)]
    ensures forall i, j :: 0 <= i < j < |ends| ==> if disorder then ends[i] > ends[j] else ends[i] < ends[j]
    ensures forall e :: e in ends <==> e == n || e in pos
  {
    forall e | e == n || e in pos ensures e in ends {
      assert e in pos + [n];
      var m :| 0 <= m < |pos + [n]| && (pos + [n])[m] == e;
      assert ends[Nth(disorder, |pos|, m)] == e;
    }
  }

  /** In transmit order the real ends strictly fall for multidisorder and strictly rise
      for multisplit, and they are exactly the resolved cuts and the payload's end. */
  lemma EndsInOrder(c: Ctx, disorder: bool, ovl: nat, segs: seq<Seg>) returns (ends: seq<int>)
    requires Pieces(c, MultiPos(c, SplitSpecs(c.params)), disorder, ovl, segs)
    ensures |ends| == |segs| && forall i :: 0 <= i < |segs| ==> segs[i].kind == SegData && segs[i].End() == ends[i]
    ensures forall i, j :: 0 <= i < j < |ends| ==> if disorder then ends[i] > ends[j] else ends[i] < ends[j]
    ensures forall e :: e in ends <==> e == |c.payload| || SomeCut(c, SplitSpecs(c.params), e)
  {
    var pos, n := MultiPos(c, SplitSpecs(c.params)), |c.payload|;
    ends := seq(|segs|, k requires 0 <= k < |segs| => segs[k].End());
    forall k | 0 <= k < |segs| ensures segs[k].kind == SegData && ends[k] == (pos + [n])[Nth(disorder, |pos|, k)] {
      PieceEnds(c, pos, disorder, ovl, segs, k);
    }
    CutEnds(pos, n, disorder, ends);
  }

  /** The relay fallback: the same pieces first to last, nothing else, no overlap; an
      emulated disorder gives the first one a TTL of 1. */
  predicate RelaySplitLeaves(c: Ctx, disorder: bool, before: PlanState, after: PlanState) {
    var pos := MultiPos(c, SplitSpecs(c.params));
    if |pos| == 0 then after == before
    else
      && after.drop && after.dgrams == before.dgrams && |after.segs| == |pos| + 1
      && forall i :: 0 <= i <= |pos| ==> PieceAt(c, pos, after.segs[i], i, 0, if disorder && i == 0 then 1 else 0)
  }

  lemma MultiDegradeLeaves(c: Ctx, disorder: bool, st: PlanState)
    ensures RelaySplitLeaves(c, disorder, st, MultiDegrade(c, disorder, st))
  {
    var pos, d := MultiPos(c, SplitSpecs(c.params)), WithoutSeq(c);
    if |pos| > 0 {
      var parts, after := MultiSegs(d, pos, disorder).value, MultiDegrade(c, disorder, st).segs;
      forall i | 0 <= i <= |pos| ensures PieceAt(c, pos, after[i], i, 0, if disorder && i == 0 then 1 else 0) {
        PartIs(d, pos, i, 0);
        assert parts[i] == Part(d, pos, i, 0);
      }
    }
  }

  // ---------- fakedsplit, fakeddisorder, hostfakesplit ----------

  datatype Piece = RealPiece(from: nat, to: nat, ovl: nat) | DecoyPiece(from: nat, to: nat) | HostPiece(from: nat, to: nat)

  predicate IsPiece(c: Ctx, s: Seg, p: Piece) {
    match p
    case RealPiece(from, to, ovl) => IsReal(c, s, from, to, ovl, 0)
    case DecoyPiece(from, to) => IsPatternDecoy(c, s, from, to)
    case HostPiece(from, to) => IsHostDecoy(c, s, from, to)
  }

  predicate Scripted(c: Ctx, segs: seq<Seg>, script: seq<Piece>) {
    |segs| == |script| && forall k :: 0 <= k < |segs| ==> IsPiece(c, segs[k], script[k])
  }

  function When(sent: bool, p: Piece): seq<Piece> { if sent then [p] else [] }

  /** The part sent first, with its decoys, then the other one with its own: the decoy in
      front of the first is dropped from order 1 on, the one behind it from order 2 on,
      the last one in order 3; the decoy in front of the second part always goes out. */
  function FakedScript(order: nat, real1: Piece, decoy1: Piece, two: bool, real2: Piece, decoy2: Piece): seq<Piece> {
    When(order == 0, decoy1) + [real1] + When(order <= 1, decoy1)
    + if two then [decoy2, real2] + When(order <= 2, decoy2) else []
  }

  /** Two bits of altorder: the lowest with a cut, the next pair but one without. */
  function OrderOf(altOrder: int, two: bool): nat { if two then altOrder % 4 else altOrder / 8 % 4 }

  /** The take-over: injected segments kept in front, the original claimed. */
  predicate Replaced(before: PlanState, after: PlanState, c: Ctx, script: seq<Piece>) {
    var kept := Kept(before.segs, false);
    && after.drop && after.dgrams == before.dgrams && |kept| <= |after.segs| && after.segs[..|kept|] == kept
    && Scripted(c, after.segs[|kept|..], script)
  }

  /** A cancelled split: injected segments, and the payload in one piece. */
  predicate SentWhole(before: PlanState, after: PlanState, c: Ctx) {
    var kept := Kept(before.segs, false);
    && after.drop == before.drop && after.dgrams == before.dgrams
    && after.segs == kept + if |c.payload| == 0 then [] else [Seg(SegData, c.payload, 0, 0, {}, 0, {}, IPIDDefault, 0, 0, 0)]
  }

  /** fakedsplit: nothing over 9216 bytes; otherwise the parts in stream order, the
      overlap on the first one while there is a second, cancelled over 9316 bytes. */
  predicate FakedsplitLeaves(c: Ctx, before: PlanState, after: PlanState) {
    var n, sp := |c.payload|, SinglePos(c, SplitSpecs(c.params));
    var two, cut := sp > 0, if sp > 0 then sp else n;
    var ovl := if two && c.caps.seqNo && c.params.seqovl > 0 then c.params.seqovl else 0;
    if n > 9216 then after == before
    else if ovl > 0 && ovl + cut > 9316 then SentWhole(before, after, c)
    else Replaced(before, after, c,
           FakedScript(OrderOf(c.params.altOrder, two), RealPiece(0, cut, ovl), DecoyPiece(0, cut),
                       two, RealPiece(cut, n, 0), DecoyPiece(cut, n)))
  }

  /** fakeddisorder: the second part first, and the overlap on it, below the cut. */
  predicate FakeddisorderLeaves(c: Ctx, before: PlanState, after: PlanState) {
    var n, sp := |c.payload|, SinglePos(c, SplitSpecs(c.params));
    var ovl := if c.caps.seqNo && 0 < c.params.seqovl < sp then c.params.seqovl else 0;
    if n > 9216 then after == before
    else if ovl > 0 && ovl + (n - sp) > 9316 then SentWhole(before, after, c)
    else Replaced(before, after, c,
           FakedScript(OrderOf(c.params.altOrder, sp > 0), RealPiece(sp, n, ovl), DecoyPiece(sp, n),
                       sp > 0, RealPiece(0, sp, 0), DecoyPiece(0, sp)))
  }

  /** The extra cut inside the hostname, when the configured one lands strictly inside. */
  predicate IsMidHost(c: Ctx, host: nat, end: nat, mid: nat) {
    match c.params.midHost
    case None => mid == 0
    case Some(spec) =>
      var m := FindSplitPos(c.payload, c.info, spec);
      mid == if host < m < end then m else 0
  }

  function HostReals(host: nat, mid: nat, end: nat): seq<Piece> {
    if mid > 0 then [RealPiece(host, mid, 0), RealPiece(mid, end, 0)] else [RealPiece(host, end, 0)]
  }

  /** hostfakesplit: with a hostname strictly inside the payload, what is in front of it,
      a fake host over its bytes, and the real host and the rest in either order, with
      the fake once more in between unless the rest goes first. */
  predicate HostfakesplitLeaves(c: Ctx, before: PlanState, after: PlanState) {
    var pos, n := MultiPos(c, [PosSpec(MarkerHost, 0), PosSpec(MarkerEndHost, 0)]), |c.payload|;
    if |pos| != 2 then after == before
    else
      0 < pos[0] < pos[1] < n &&
      exists mid: nat | mid <= n :: IsMidHost(c, pos[0], pos[1], mid) && Replaced(before, after, c, HostScript(c, pos[0], mid, pos[1]))
  }

  function HostScript(c: Ctx, host: nat, mid: nat, end: nat): seq<Piece> {
    var n, fake := |c.payload|, HostPiece(host, end);
    [RealPiece(0, host, 0), fake] +
    if c.params.altOrder == 1 then [RealPiece(end, n, 0)] + HostReals(host, mid, end)
    else HostReals(host, mid, end) + [fake, RealPiece(end, n, 0)]
  }

  lemma TakenOver(st: PlanState, segs: seq<Seg>, c: Ctx, script: seq<Piece>)
    requires Scripted(c, segs, script)
    ensures Replaced(st, TakeOver(st, segs), c, script)
  {
    var kept := Kept(st.segs, false);
    NonDataKept(st.segs);
    assert (kept + segs)[..|kept|] == kept && (kept + segs)[|kept|..] == segs;
  }

  lemma CancelledWhole(c: Ctx, st: PlanState)
    ensures SentWhole(st, Cancelled(c, st), c)
  {
    NonDataKept(st.segs);
  }

  lemma FakedTableScripted(c: Ctx, order: nat, two: bool, d1: Seg, r1: Seg, d2: Seg, r2: Seg, pd1: Piece, pr1: Piece, pd2: Piece, pr2: Piece)
    requires IsPiece(c, d1, pd1) && IsPiece(c, r1, pr1) && (two ==> IsPiece(c, d2, pd2) && IsPiece(c, r2, pr2))
    ensures Scripted(c, FakedsplitTable(order, two, d1, r1, d2, r2), FakedScript(order, pr1, pd1, two, pr2, pd2))
    ensures Scripted(c, FakeddisorderTable(order, two, d2, r2, d1, r1), FakedScript(order, pr1, pd1, two, pr2, pd2))
  {
  }

  lemma FakedsplitTransmits(c: Ctx, st: PlanState)
    ensures FakedsplitLeaves(c, st, FakedsplitOp(c, st))
  {
    var n, sp := |c.payload|, SinglePos(c, SplitSpecs(c.params));
    var two, cut := sp > 0, if sp > 0 then sp else n;
    var ovl := if two && c.caps.seqNo && c.params.seqovl > 0 then c.params.seqovl else 0;
    var order := OrderOf(c.params.altOrder, two);
    if n <= 9216 {
      if ovl > 0 && ovl + cut > 9316 {
        CancelledWhole(c, st);
      } else {
        RealPartIs(c, 0, cut, ovl);
        RealPartIs(c, cut, n, 0);
        DecoyIs(c, 0, cut);
        DecoyIs(c, cut, n);
        FakedTableScripted(c, order, two, Decoy(c, 0, cut), RealPart(c, 0, cut, ovl), Decoy(c, cut, n), RealPart(c, cut, n, 0),
          DecoyPiece(0, cut), RealPiece(0, cut, ovl), DecoyPiece(cut, n), RealPiece(cut, n, 0));
        TakenOver(st, FakedsplitSegs(c, order, cut, ovl), c,
          FakedScript(order, RealPiece(0, cut, ovl), DecoyPiece(0, cut), two, RealPiece(cut, n, 0), DecoyPiece(cut, n)));
      }
    }
  }

  lemma FakeddisorderTransmits(c: Ctx, st: PlanState)
    ensures FakeddisorderLeaves(c, st, FakeddisorderOp(c, st))
  {
    var n, sp := |c.payload|, SinglePos(c, SplitSpecs(c.params));
    var ovl := if c.caps.seqNo && 0 < c.params.seqovl < sp then c.params.seqovl else 0;
    var order := OrderOf(c.params.altOrder, sp > 0);
    if n <= 9216 {
      if ovl > 0 && ovl + (n - sp) > 9316 {
        CancelledWhole(c, st);
      } else {
        RealPartIs(c, sp, n, ovl);
        RealPartIs(c, 0, sp, 0);
        DecoyIs(c, sp, n);
        DecoyIs(c, 0, sp);
        FakedTableScripted(c, order, sp > 0, Decoy(c, sp, n), RealPart(c, sp, n, ovl), Decoy(c, 0, sp), RealPart(c, 0, sp, 0),
          DecoyPiece(sp, n), RealPiece(sp, n, ovl), DecoyPiece(0, sp), RealPiece(0, sp, 0));
        TakenOver(st, FakeddisorderSegs(c, order, sp, ovl), c,
          FakedScript(order, RealPiece(sp, n, ovl), DecoyPiece(sp, n), sp > 0, RealPiece(0, sp, 0), DecoyPiece(0, sp)));
      }
    }
  }

  lemma HostScripted(c: Ctx, host: nat, mid: nat, end: nat)
    requires 0 < host < end < |c.payload| && (mid != 0 ==> host < mid < end)
    ensures Scripted(c, HostfakesplitSegs(c, host, mid, end, HostDecoy(c, host, end)), HostScript(c, host, mid, end))
  {
    HostDecoyIs(c, host, end);
    RealPartIs(c, 0, host, 0);
    RealPartIs(c, host, end, 0);
    RealPartIs(c, end, |c.payload|, 0);
    if mid != 0 {
      RealPartIs(c, host, mid, 0);
      RealPartIs(c, mid, end, 0);
    }
  }

  lemma HostfakesplitTransmits(c: Ctx, st: PlanState)
    ensures HostfakesplitLeaves(c, st, HostfakesplitOp(c, st))
  {
    var pos := MultiPos(c, HOST_SPECS);
    if |pos| == 2 {
      assert pos[0] < pos[1];
      var mid := MidHost(c, pos[0], pos[1]);
      HostScripted(c, pos[0], mid, pos[1]);
      TakenOver(st, HostfakesplitSegs(c, pos[0], mid, pos[1], HostDecoy(c, pos[0], pos[1])), c, HostScript(c, pos[0], mid, pos[1]));
      assert IsMidHost(c, pos[0], pos[1], mid);
    }
  }

  /** The relay fallbacks: nothing but plain parts in stream order, cut where the op
      would have cut. */
  predicate RelayParts(c: Ctx, before: PlanState, after: PlanState, script: seq<Piece>) {
    if |script| == 0 then after == before
    else after.drop && after.dgrams == before.dgrams && Scripted(c, after.segs, script)
  }

  predicate FakedRelayLeaves(c: Ctx, before: PlanState, after: PlanState) {
    var n, sp := |c.payload|, SinglePos(c, SplitSpecs(c.params));
    RelayParts(c, before, after, if sp == 0 then [] else [RealPiece(0, sp, 0), RealPiece(sp, n, 0)])
  }

  predicate HostRelayLeaves(c: Ctx, before: PlanState, after: PlanState, mid: nat) {
    var n, pos := |c.payload|, MultiPos(c, [PosSpec(MarkerHost, 0), PosSpec(MarkerEndHost, 0)]);
    if |pos| != 2 then after == before
    else
      && 0 < pos[0] < pos[1] < n && IsMidHost(c, pos[0], pos[1], mid)
      && RelayParts(c, before, after, [RealPiece(0, pos[0], 0)] + HostReals(pos[0], mid, pos[1]) + [RealPiece(pos[1], n, 0)])
  }

  lemma FakedDegradeTransmits(c: Ctx, st: PlanState)
    ensures FakedRelayLeaves(c, st, SplitDegrade(c, st))
  {
    var n, sp := |c.payload|, SinglePos(c, SplitSpecs(c.params));
    RealPartIs(c, 0, sp, 0);
    RealPartIs(c, sp, n, 0);
  }

  lemma HostDegradeTransmits(c: Ctx, st: PlanState) returns (mid: nat)
    ensures HostRelayLeaves(c, st, HostfakesplitDegrade(c, st), mid)
  {
    var n, pos := |c.payload|, MultiPos(c, HOST_SPECS);
    mid := 0;
    if |pos| == 2 {
      assert pos[0] < pos[1];
      mid := MidHost(c, pos[0], pos[1]);
      RealPartIs(c, 0, pos[0], 0);
      RealPartIs(c, pos[0], pos[1], 0);
      RealPartIs(c, pos[1], n, 0);
      if mid != 0 {
        RealPartIs(c, pos[0], mid, 0);
        RealPartIs(c, mid, pos[1], 0);
      }
    }
  }

  // ---------- fake ----------

  function NonEmpty(blobs: seq<Bytes>): seq<Bytes> {
    if |blobs| == 0 then [] else (if |blobs[0]| > 0 then [blobs[0]] else []) + NonEmpty(blobs[1..])
  }

  lemma {:induction false} NonEmptyJoin(a: seq<Bytes>, b: seq<Bytes>)
    ensures NonEmpty(a + b) == NonEmpty(a) + NonEmpty(b)
    decreases |a|
  {
    if |a| == 0 {
      assert a + b == b;
    } else {
      var head := if |a[0]| > 0 then [a[0]] else [];
      assert (a + b)[0] == a[0] && (a + b)[1..] == a[1..] + b;
      NonEmptyJoin(a[1..], b);
      assert head + (NonEmpty(a[1..]) + NonEmpty(b)) == (head + NonEmpty(a[1..])) + NonEmpty(b);
    }
  }

  /** The packet itself, or else the flow, is recognised as exactly this class. */
  predicate RecognisedAs(c: Ctx, l7: L7) {
    if c.info.proto in {{}, {Unrecognised}} then c.flow.l7 == l7 else c.info.proto == l7
  }

  predicate NothingRecognised(c: Ctx) { c.info.proto in {{}, {Unrecognised}} && c.flow.l7 in {{}, {Unrecognised}} }

  /** The family of decoys for the packet's class. */
  predicate FamilyOf(c: Ctx, k: FakeKind) {
    match k
    case FakeQuic => c.udp && RecognisedAs(c, {Quic})
    case FakeDiscord => c.udp && RecognisedAs(c, {Discord})
    case FakeStun => c.udp && RecognisedAs(c, {Stun})
    case FakeUnknownUDP => c.udp && !RecognisedAs(c, {Quic}) && !RecognisedAs(c, {Discord}) && !RecognisedAs(c, {Stun})
    case FakeTls => !c.udp && RecognisedAs(c, {Tls})
    case FakeHttp => !c.udp && RecognisedAs(c, {Http})
    case FakeUnknown => !c.udp && !RecognisedAs(c, {Tls}) && !RecognisedAs(c, {Http})
  }

  lemma FamilyUnique(c: Ctx, j: FakeKind, k: FakeKind)
    requires FamilyOf(c, j) && FamilyOf(c, k)
    ensures j == k
  {
  }

  predicate ClampedRepeats(p: OpParams, repeats: int) {
    1 <= repeats <= 1024 && (1 <= p.repeats <= 1024 ==> repeats == p.repeats)
    && (p.repeats < 1 ==> repeats == 1) && (p.repeats > 1024 ==> repeats == 1024)
  }

  /** A decoy with this blob's bytes, over the payload's own sequence number. */
  predicate IsBlobSeg(c: Ctx, k: FakeKind, blob: Bytes, s: Seg) {
    && s.kind == SegFake && s.seqOff == 0 && s.data == (if k == FakeTls then c.modTls(blob, c.params.ownFakes) else blob)
    && s.ttl == c.params.ttl && s.fool == c.params.fool && ClampedRepeats(c.params, s.repeats) && s.ipid == c.params.ipid
    && s.flags == {} && s.frag == 0 && s.window == 0 && s.windowScale == 0
  }

  predicate IsBlobDgram(c: Ctx, blob: Bytes, d: Dgram) {
    && d.kind == SegFake && d.data == blob && d.ttl == c.params.ttl && d.fool == c.params.fool
    && ClampedRepeats(c.params, d.repeats) && d.frag == 0
  }

  /** The plan so far, with the payload behind it when it has no real segment. */
  function Completed(c: Ctx, segs: seq<Seg>): seq<Seg> {
    if exists i :: 0 <= i < |segs| && segs[i].kind == SegData then segs
    else segs + [Seg(SegData, c.payload, 0, 0, {}, 0, {}, IPIDDefault, 0, 0, 0)]
  }

  function CompletedDgrams(c: Ctx, ds: seq<Dgram>): seq<Dgram> {
    if exists i :: 0 <= i < |ds| && ds[i].kind == SegData then ds else ds + [Dgram(SegData, c.payload, 0, {}, 0, 0)]
  }

  /** One decoy per non-empty blob, in list order, right in front of the first real one. */
  predicate BlobsInFront(c: Ctx, k: FakeKind, plan: seq<Seg>, after: seq<Seg>, at: nat) {
    var blobs := NonEmpty(c.fakes(k, c.params.ownFakes));
    && at < |plan| && plan[at].kind == SegData && (forall i :: 0 <= i < at ==> plan[i].kind != SegData)
    && |after| == |plan| + |blobs| && after[..at] == plan[..at] && after[at + |blobs|..] == plan[at..]
    && forall i :: 0 <= i < |blobs| ==> IsBlobSeg(c, k, blobs[i], after[at + i])
  }

  predicate BlobsInFrontDgrams(c: Ctx, k: FakeKind, plan: seq<Dgram>, after: seq<Dgram>, at: nat) {
    var blobs := NonEmpty(c.fakes(k, c.params.ownFakes));
    && at < |plan| && plan[at].kind == SegData && (forall i :: 0 <= i < at ==> plan[i].kind != SegData)
    && |after| == |plan| + |blobs| && after[..at] == plan[..at] && after[at + |blobs|..] == plan[at..]
    && forall i :: 0 <= i < |blobs| ==> IsBlobDgram(c, blobs[i], after[at + i])
  }

  /** fake: nothing on a SYN, without a payload, or, for the cautious form, when nothing is
      recognised; otherwise the decoys of the packet's family. */
  ghost predicate FakeLeaves(c: Ctx, knownOnly: bool, before: PlanState, after: PlanState) {
    if c.synPkt || c.payload == [] || (knownOnly && NothingRecognised(c)) then after == before
    else exists k, at | FamilyOf(c, k) && 0 <= at ::
      && after.drop == before.drop
      && if c.udp
         then after.segs == before.segs && BlobsInFrontDgrams(c, k, CompletedDgrams(c, before.dgrams), after.dgrams, at)
         else after.dgrams == before.dgrams && BlobsInFront(c, k, Completed(c, before.segs), after.segs, at)
  }

  lemma {:induction false} FakeSegsAre(c: Ctx, k: FakeKind, blobs: seq<Bytes>)
    ensures var d, b := FakeSegs(c, k, blobs), NonEmpty(blobs);
      |d| == |b| && forall i :: 0 <= i < |b| ==> IsBlobSeg(c, k, b[i], d[i])
    decreases |blobs|
  {
    if |blobs| > 0 {
      var init, last := blobs[..|blobs| - 1], blobs[|blobs| - 1];
      FakeSegsAre(c, k, init);
      NonEmptyJoin(init, [last]);
      assert init + [last] == blobs && [last][1..] == [];
    }
  }

  lemma {:induction false} FakeDgramsAre(c: Ctx, blobs: seq<Bytes>)
    ensures var d, b := FakeDgrams(c, blobs), NonEmpty(blobs);
      |d| == |b| && forall i :: 0 <= i < |b| ==> IsBlobDgram(c, b[i], d[i])
    decreases |blobs|
  {
    if |blobs| > 0 {
      var init, last := blobs[..|blobs| - 1], blobs[|blobs| - 1];
      FakeDgramsAre(c, init);
      NonEmptyJoin(init, [last]);
      assert init + [last] == blobs && [last][1..] == [];
    }
  }

  lemma InsertedInFront(c: Ctx, segs: seq<Seg>, d: seq<Seg>)
    requires |c.payload| > 0 && !HasData(d)
    ensures var e, at, r := Completed(c, segs), FirstData(segs), EnsureDataSeg(c, InsertSegs(segs, d));
      && at < |e| && IsData(e[at]) && !HasData(e[..at]) && r == e[..at] + d + e[at..]
  {
    var at := FirstData(segs);
    EnsuredAt(c, segs);
    NoDataJoin(segs[..at] + d, segs[at..]);
    NoDataJoin(segs[..at], d);
    NoDataJoin(segs[..at], segs[at..]);
    assert segs[..at] + segs[at..] == segs;
  }

  lemma FirstDgramAt(c: Ctx, ds: seq<Dgram>)
    requires |c.payload| > 0
    ensures var e, at := CompletedDgrams(c, ds), FirstDataDgram(ds);
      at < |e| && e[at].kind == SegData && (forall i :: 0 <= i < at ==> e[i].kind != SegData) && e[..at] == ds[..at]
  {
  }

  lemma DgramsInserted(c: Ctx, ds: seq<Dgram>, d: seq<Dgram>)
    requires |c.payload| > 0 && !HasDataDgram(d)
    ensures var e, at, r := CompletedDgrams(c, ds), FirstDataDgram(ds), EnsureDataDgram(c, InsertDgrams(ds, d));
      r == e[..at] + d + e[at..]
  {
    var at, r := FirstDataDgram(ds), InsertDgrams(ds, d);
    FirstDgramAt(c, ds);
    if at < |ds| {
      assert r[at + |d|].kind == SegData;
    } else {
      assert r == ds + d;
      assert forall i :: 0 <= i < |r| ==> r[i] == if i < |ds| then ds[i] else d[i - |ds|];
    }
  }

  lemma BlobsPlaced(c: Ctx, k: FakeKind, plan: seq<Seg>, d: seq<Seg>, after: seq<Seg>, at: nat)
    requires at < |plan| && IsData(plan[at]) && !HasData(plan[..at]) && after == plan[..at] + d + plan[at..]
    requires d == FakeSegs(c, k, c.fakes(k, c.params.ownFakes))
    ensures BlobsInFront(c, k, plan, after, at)
  {
    FakeSegsAre(c, k, c.fakes(k, c.params.ownFakes));
    forall i | 0 <= i < at ensures plan[i].kind != SegData { assert plan[..at][i] == plan[i]; }
    assert after[..at] == plan[..at] && after[at + |d|..] == plan[at..];
    forall i | 0 <= i < |d| ensures after[at + i] == d[i] {}
  }

  lemma BlobDgramsPlaced(c: Ctx, k: FakeKind, plan: seq<Dgram>, d: seq<Dgram>, after: seq<Dgram>, at: nat)
    requires at < |plan| && plan[at].kind == SegData && (forall i :: 0 <= i < at ==> plan[i].kind != SegData)
    requires after == plan[..at] + d + plan[at..] && d == FakeDgrams(c, c.fakes(k, c.params.ownFakes))
    ensures BlobsInFrontDgrams(c, k, plan, after, at)
  {
    FakeDgramsAre(c, c.fakes(k, c.params.ownFakes));
    assert after[..at] == plan[..at] && after[at + |d|..] == plan[at..];
    forall i | 0 <= i < |d| ensures after[at + i] == d[i] {}
  }

  lemma FamilyIs(c: Ctx)
    ensures FamilyOf(c, KindOfFake(KnownL7(c), c.udp))
    ensures KnownL7(c) == {Unrecognised} <==> NothingRecognised(c)
  {
  }

  lemma FakeSent(c: Ctx, k: FakeKind, st: PlanState)
    requires |c.payload| > 0
    ensures BlobsInFront(c, k, Completed(c, st.segs),
              EnsureDataSeg(c, InsertSegs(st.segs, FakeSegs(c, k, c.fakes(k, c.params.ownFakes)))), FirstData(st.segs))
  {
    var d, at := FakeSegs(c, k, c.fakes(k, c.params.ownFakes)), FirstData(st.segs);
    InsertedInFront(c, st.segs, d);
    BlobsPlaced(c, k, Completed(c, st.segs), d, EnsureDataSeg(c, InsertSegs(st.segs, d)), at);
  }

  lemma FakeDgramsSent(c: Ctx, k: FakeKind, st: PlanState)
    requires |c.payload| > 0
    ensures BlobsInFrontDgrams(c, k, CompletedDgrams(c, st.dgrams),
              EnsureDataDgram(c, InsertDgrams(st.dgrams, FakeDgrams(c, c.fakes(k, c.params.ownFakes)))), FirstDataDgram(st.dgrams))
  {
    var d, at := FakeDgrams(c, c.fakes(k, c.params.ownFakes)), FirstDataDgram(st.dgrams);
    FirstDgramAt(c, st.dgrams);
    DgramsInserted(c, st.dgrams, d);
    BlobDgramsPlaced(c, k, CompletedDgrams(c, st.dgrams), d, EnsureDataDgram(c, InsertDgrams(st.dgrams, d)), at);
  }

  lemma FakeTransmits(c: Ctx, knownOnly: bool, st: PlanState)
    ensures FakeLeaves(c, knownOnly, st, FakeOp(c, knownOnly, st))
  {
    FamilyIs(c);
    if !(c.synPkt || c.payload == [] || (knownOnly && NothingRecognised(c))) {
      var k := KindOfFake(KnownL7(c), c.udp);
      if c.udp { FakeDgramsSent(c, k, st); } else { FakeSent(c, k, st); }
    }
  }
}
