/** Reassembling the planned payload, and writing an edited payload back into the
    planned segments without moving an overlap or opening a hole. */
module Rewriting {
  import opened Types
  import opened Spans

  predicate AllFit(segs: seq<Seg>, idx: seq<int>, want: int)
    requires SortedIdx(segs, idx)
  {
    forall k :: 0 <= k < |idx| ==> SpanFits(segs, idx, k, want)
  }

  /** The payload the first n data segments contribute. */
  function JoinUpTo(segs: seq<Seg>, idx: seq<int>, n: nat, want: int): (w: Bytes)
    requires SortedIdx(segs, idx) && n <= |idx| && AllFit(segs, idx, want)
    ensures |w| == From(segs, idx, n)
  {
    if n == 0 then [] else
      assert SpanFits(segs, idx, n - 1, want);
      JoinUpTo(segs, idx, n - 1, want) + segs[idx[n - 1]].data[Prefix(segs, idx, n - 1)..]
  }

  predicate Joinable(segs: seq<Seg>, want: int) {
    Accepts(segs, DataIdx(segs), want)
  }

  /** What the plan's data segments reassemble to. */
  function Joined(segs: seq<Seg>, want: int): (w: Bytes)
    requires Joinable(segs, want)
    ensures |w| == want
  {
    JoinUpTo(segs, DataIdx(segs), |DataIdx(segs)|, want)
  }

  lemma {:induction false} JoinPrefix(segs: seq<Seg>, idx: seq<int>, want: int, m: nat, n: nat)
    requires SortedIdx(segs, idx) && m <= n <= |idx| && AllFit(segs, idx, want)
    ensures JoinUpTo(segs, idx, m, want) <= JoinUpTo(segs, idx, n, want)
    decreases n
  {
    if m < n {
      JoinPrefix(segs, idx, want, m, n - 1);
    }
  }

  /** The reassembly walk accepts a plan exactly when the plan carries a stream of
      that length, and that stream is what joining returns. */
  lemma JoinedIsCarried(segs: seq<Seg>, want: nat)
    ensures Joinable(segs, want) <==> exists w :: |w| == want && Carries(segs, DataIdx(segs), w)
    ensures forall w :: |w| == want && Carries(segs, DataIdx(segs), w) ==> Joined(segs, want) == w
  {
    var idx := DataIdx(segs);
    if Joinable(segs, want) {
      var w := Joined(segs, want);
      forall k | 0 <= k < |idx| ensures SpanCarries(segs, idx, k, w) {
        JoinPrefix(segs, idx, want, k + 1, |idx|);
        FromMonotone(segs, idx, want, k, k + 1);
        var f, e := From(segs, idx, k), segs[idx[k]].End();
        assert w[..e] == JoinUpTo(segs, idx, k + 1, want);
        assert w[f..e] == w[..e][f..];
      }
      assert Carries(segs, idx, w);
      forall v | |v| == want && Carries(segs, idx, v) ensures w == v {
        CarriesUnique(segs, idx, w, v);
      }
    }
    forall w | |w| == want && Carries(segs, idx, w) ensures Joinable(segs, want) {
      forall k | 0 <= k < |idx| ensures SpanFits(segs, idx, k, want) {
        assert SpanCarries(segs, idx, k, w);
      }
    }
  }

  /** Offsets at or after pos move by grow when grow bytes are inserted at pos. */
  function Move(pos: int, grow: int, off: int): int {
    if off < pos then off else off + grow
  }

  /** The edits this program makes: same length, or grow bytes inserted at pos. */
  datatype Edit = Edit(want: nat, edited: Bytes, pos: int, grow: int) {
    predicate Valid() {
      0 <= grow && |edited| == want + grow && (grow > 0 ==> 0 < pos < want)
    }

    function Moved(off: int): int { Move(pos, grow, off) }
  }

  predicate Editable(segs: seq<Seg>, e: Edit) {
    Joinable(segs, e.want) && e.Valid()
  }

  lemma EditFits(segs: seq<Seg>, e: Edit, k: int)
    requires Editable(segs, e) && 0 <= k < |DataIdx(segs)|
    ensures var idx := DataIdx(segs);
      && 0 <= Prefix(segs, idx, k) <= |segs[idx[k]].data|
      && 0 <= From(segs, idx, k) <= segs[idx[k]].End() <= e.want
      && 0 <= e.Moved(From(segs, idx, k)) <= e.Moved(segs[idx[k]].End()) <= |e.edited|
  {
    assert SpanFits(segs, DataIdx(segs), k, e.want);
    FromMonotone(segs, DataIdx(segs), e.want, k, k + 1);
  }

  /** One data segment after the edit: its overlap as before, then its stretch of
      the new payload. */
  function NewSeg(segs: seq<Seg>, e: Edit, k: int): Seg
    requires Editable(segs, e) && 0 <= k < |DataIdx(segs)|
  {
    EditFits(segs, e, k);
    var idx := DataIdx(segs);
    var s, prefix := segs[idx[k]], Prefix(segs, idx, k);
    var nf, nt := e.Moved(From(segs, idx, k)), e.Moved(s.End());
    s.(data := s.data[..prefix] + e.edited[nf..nt], seqOff := nf - prefix)
  }

  function IndexOf(idx: seq<int>, i: int): (k: int)
    requires i in idx
    ensures 0 <= k < |idx| && idx[k] == i
  {
    if idx[0] == i then 0 else 1 + IndexOf(idx[1..], i)
  }

  /** The whole plan after the edit. */
  function Rewritten(segs: seq<Seg>, e: Edit): (r: seq<Seg>)
    requires Editable(segs, e)
    ensures |r| == |segs|
  {
    seq(|segs|, i requires 0 <= i < |segs| =>
      if IsData(segs[i]) then NewSeg(segs, e, IndexOf(DataIdx(segs), i)) else segs[i])
  }

  lemma RewriteAt(segs: seq<Seg>, e: Edit, k: int)
    requires Editable(segs, e) && 0 <= k < |DataIdx(segs)|
    ensures Rewritten(segs, e)[DataIdx(segs)[k]] == NewSeg(segs, e, k)
  {
    var idx := DataIdx(segs);
    var l := IndexOf(idx, idx[k]);
    assert idx[k] in idx;
    assert k < l ==> Before(segs, idx[k], idx[l]);
    assert l < k ==> Before(segs, idx[l], idx[k]);
  }

  /** What the edit does to the k-th data segment: the overlap stays, bytes and all;
      the stretch moves and takes the new bytes. */
  predicate Edited(segs: seq<Seg>, r: seq<Seg>, e: Edit, k: int)
    requires |r| == |segs| && 0 <= k < |DataIdx(segs)|
  {
    var idx := DataIdx(segs);
    var s, t, f, p := segs[idx[k]], r[idx[k]], From(segs, idx, k), Prefix(segs, idx, k);
    && IsData(t) && t == s.(data := t.data, seqOff := t.seqOff) && 0 <= p <= |s.data| && p <= |t.data|
    && 0 <= f <= s.End() <= e.want && 0 <= e.Moved(f) <= e.Moved(s.End()) <= |e.edited|
    && t.seqOff == e.Moved(f) - p && t.End() == e.Moved(s.End())
    && t.data[..p] == s.data[..p] && t.data[p..] == e.edited[e.Moved(f)..e.Moved(s.End())]
  }

  predicate IsEdited(segs: seq<Seg>, r: seq<Seg>, e: Edit) {
    && |r| == |segs|
    && (forall k :: 0 <= k < |DataIdx(segs)| ==> Edited(segs, r, e, k))
    && (forall i :: 0 <= i < |segs| && !IsData(segs[i]) ==> r[i] == segs[i])
  }

  lemma NewSegEdited(segs: seq<Seg>, r: seq<Seg>, e: Edit, k: int)
    requires Editable(segs, e) && 0 <= k < |DataIdx(segs)| && |r| == |segs|
    requires r[DataIdx(segs)[k]] == NewSeg(segs, e, k)
    ensures Edited(segs, r, e, k)
  {
    EditFits(segs, e, k);
    assert IsData(segs[DataIdx(segs)[k]]) by { assert DataIdx(segs)[k] in DataIdx(segs); }
  }

  lemma RewrittenIsEdited(segs: seq<Seg>, e: Edit)
    requires Editable(segs, e)
    ensures IsEdited(segs, Rewritten(segs, e), e)
  {
    forall k | 0 <= k < |DataIdx(segs)| ensures Edited(segs, Rewritten(segs, e), e, k) {
      RewriteAt(segs, e, k);
      NewSegEdited(segs, Rewritten(segs, e), e, k);
    }
  }

  /** Stream order survives the edit. */
  lemma EditKeepsOrder(segs: seq<Seg>, r: seq<Seg>, e: Edit)
    requires Editable(segs, e) && IsEdited(segs, r, e)
    ensures IsDataIdx(r, DataIdx(segs)) && DataIdx(r) == DataIdx(segs)
  {
    var idx := DataIdx(segs);
    forall k, l | 0 <= k < l < |idx| ensures Before(r, idx[k], idx[l]) {
      assert Edited(segs, r, e, k) && Edited(segs, r, e, l);
      assert Before(segs, idx[k], idx[l]);
      FromMonotone(segs, idx, e.want, k, l);
    }
    forall i | 0 <= i < |r| ensures i in idx <==> IsData(r[i]) {
      if i in idx { assert Edited(segs, r, e, IndexOf(idx, i)); }
    }
    IdxUnique(r, idx, DataIdx(r));
  }

  /** Segment k of the edited plan: same overlap, and its own stretch of the new payload. */
  lemma EditedStretch(segs: seq<Seg>, r: seq<Seg>, e: Edit, k: int)
    requires Editable(segs, e) && IsEdited(segs, r, e) && 0 <= k < |DataIdx(segs)|
    requires SortedIdx(r, DataIdx(segs))
    ensures From(r, DataIdx(segs), k) == e.Moved(From(segs, DataIdx(segs), k))
    ensures Prefix(r, DataIdx(segs), k) == Prefix(segs, DataIdx(segs), k)
    ensures SpanCarries(r, DataIdx(segs), k, e.edited)
  {
    assert Edited(segs, r, e, k);
    if k > 0 { assert Edited(segs, r, e, k - 1); }
  }

  lemma EditedCarries(segs: seq<Seg>, r: seq<Seg>, e: Edit)
    requires Editable(segs, e) && IsEdited(segs, r, e)
    ensures DataIdx(r) == DataIdx(segs) && Carries(r, DataIdx(segs), e.edited)
    ensures forall k :: 0 <= k < |DataIdx(segs)| ==> Prefix(r, DataIdx(segs), k) == Prefix(segs, DataIdx(segs), k)
  {
    var idx := DataIdx(segs);
    EditKeepsOrder(segs, r, e);
    forall k | 0 <= k < |idx|
      ensures SpanCarries(r, idx, k, e.edited) && Prefix(r, idx, k) == Prefix(segs, idx, k)
    {
      EditedStretch(segs, r, e, k);
    }
    if |idx| > 0 { assert Edited(segs, r, e, |idx| - 1); }
  }

  /** Main result: writing an edited payload back and reassembling gives the edited
      payload; every overlap keeps its bytes and its place. */
  lemma RewriteThenJoin(segs: seq<Seg>, e: Edit)
    requires Editable(segs, e)
    ensures var r := Rewritten(segs, e);
      && Joinable(r, |e.edited|) && Joined(r, |e.edited|) == e.edited
      && DataIdx(r) == DataIdx(segs)
      && (forall k :: 0 <= k < |DataIdx(segs)| ==> Prefix(r, DataIdx(segs), k) == Prefix(segs, DataIdx(segs), k))
    ensures IsEdited(segs, Rewritten(segs, e), e)
  {
    var r := Rewritten(segs, e);
    RewrittenIsEdited(segs, e);
    EditedCarries(segs, r, e);
    JoinedIsCarried(r, |e.edited|);
  }

  lemma EditedShape(segs: seq<Seg>, r: seq<Seg>, e: Edit)
    requires Editable(segs, e) && IsEdited(segs, r, e) && Shape(segs, DataIdx(segs))
    ensures SortedIdx(r, DataIdx(segs)) && Shape(r, DataIdx(segs))
  {
    var idx := DataIdx(segs);
    EditedCarries(segs, r, e);
    if |idx| > 1 {
      assert Edited(segs, r, e, 0) && Edited(segs, r, e, 1);
    }
  }

  /** A plan a receiver decodes correctly stays one after the edit. */
  lemma RewriteHolds(segs: seq<Seg>, w: Bytes, e: Edit)
    requires Holds(segs, w) && e.want == |w| && e.Valid()
    ensures Editable(segs, e) && Joined(segs, |w|) == w
    ensures Holds(Rewritten(segs, e), e.edited)
  {
    JoinedIsCarried(segs, |w|);
    var r := Rewritten(segs, e);
    RewrittenIsEdited(segs, e);
    EditedCarries(segs, r, e);
    EditedShape(segs, r, e);
    var i :| 0 <= i < |segs| && IsData(segs[i]);
    assert i in DataIdx(segs);
    HoldsBy(r, DataIdx(segs), e.edited);
  }

  const TLS_HEADER := 5

  /** Re-wraps one complete TLS record as two, cut at payload offset pos. */
  function TLSRecordSplit(payload: Bytes, pos: int): (r: Option<Bytes>)
    ensures r.Some? ==> |r.value| == |payload| + TLS_HEADER && TLS_HEADER < pos < |payload|
  {
    if |payload| < TLS_HEADER + 2 then None
    else if payload[0] < 20 || payload[0] > 24 || payload[1] != 3 then None
    else if BigEndian(payload[3], payload[4]) + TLS_HEADER != |payload| then None
    else
      var cut := pos - TLS_HEADER;
      if cut <= 0 || cut >= |payload| - TLS_HEADER then None
      else Some(RecordHeader(payload, cut) + payload[TLS_HEADER..pos]
                + RecordHeader(payload, |payload| - pos) + payload[pos..])
  }

  function BigEndian(hi: byte, lo: byte): int { hi as int * 256 + lo as int }

  function RecordHeader(payload: Bytes, length: nat): (h: Bytes)
    requires |payload| >= TLS_HEADER
    ensures |h| == TLS_HEADER
  {
    [payload[0], payload[1], payload[2], (length / 256 % 256) as byte, (length % 256) as byte]
  }

  /** The bodies of the complete TLS records a byte string consists of, or None. */
  function RecordBodies(b: Bytes): Option<Bytes>
    decreases |b|
  {
    if |b| == 0 then Some([])
    else if |b| < TLS_HEADER then None
    else
      var end := TLS_HEADER + BigEndian(b[3], b[4]);
      if end > |b| then None
      else match RecordBodies(b[end..])
        case None => None
        case Some(rest) => Some(b[TLS_HEADER..end] + rest)
  }

  /** A splittable payload is one complete record. */
  lemma WholeRecord(payload: Bytes)
    requires |payload| >= TLS_HEADER && BigEndian(payload[3], payload[4]) + TLS_HEADER == |payload|
    ensures RecordBodies(payload) == Some(payload[TLS_HEADER..])
  {
    OneRecord(payload[..TLS_HEADER], payload[TLS_HEADER..], []);
    assert payload[..TLS_HEADER] + payload[TLS_HEADER..] + [] == payload;
    assert payload[TLS_HEADER..] + [] == payload[TLS_HEADER..];
  }

  /** Re-wrapping changes the record layer only: both results parse as complete
      records, and the bodies join to the same bytes. */
  lemma RecordSplitKeepsBody(payload: Bytes, pos: int)
    requires TLSRecordSplit(payload, pos).Some?
    ensures RecordBodies(payload) == Some(payload[TLS_HEADER..])
    ensures RecordBodies(TLSRecordSplit(payload, pos).value) == Some(payload[TLS_HEADER..])
  {
    WholeRecord(payload);
    SplitParses(payload, payload[TLS_HEADER..pos], payload[pos..], TLSRecordSplit(payload, pos).value);
    assert payload[TLS_HEADER..pos] + payload[pos..] == payload[TLS_HEADER..];
  }

  lemma SplitParses(payload: Bytes, a: Bytes, b: Bytes, out: Bytes)
    requires |payload| >= TLS_HEADER && |a| < 0x1_0000 && |b| < 0x1_0000
    requires out == RecordHeader(payload, |a|) + a + RecordHeader(payload, |b|) + b
    ensures RecordBodies(out) == Some(a + b)
  {
    TwoRecords(payload, a, b);
    assert out == RecordHeader(payload, |a|) + a + (RecordHeader(payload, |b|) + b + []);
  }

  lemma TwoRecords(payload: Bytes, a: Bytes, b: Bytes)
    requires |payload| >= TLS_HEADER && |a| < 0x1_0000 && |b| < 0x1_0000
    ensures RecordBodies(RecordHeader(payload, |a|) + a + (RecordHeader(payload, |b|) + b + [])) == Some(a + b)
  {
    HeaderLength(payload, |a|);
    HeaderLength(payload, |b|);
    OneRecord(RecordHeader(payload, |b|), b, []);
    OneRecord(RecordHeader(payload, |a|), a, RecordHeader(payload, |b|) + b + []);
    assert b + [] == b;
  }

  lemma HeaderLength(payload: Bytes, n: nat)
    requires |payload| >= TLS_HEADER && n < 0x1_0000
    ensures BigEndian(RecordHeader(payload, n)[3], RecordHeader(payload, n)[4]) == n
  {
    assert n / 256 < 256;
  }

  lemma OneRecord(h: Bytes, body: Bytes, rest: Bytes)
    requires |h| == TLS_HEADER && BigEndian(h[3], h[4]) == |body|
    ensures RecordBodies(h + body + rest) ==
      match RecordBodies(rest) case None => None case Some(t) => Some(body + t)
  {
    var b := h + body + rest;
    assert b[TLS_HEADER + |body|..] == rest;
    assert b[TLS_HEADER..TLS_HEADER + |body|] == body;
  }
}
