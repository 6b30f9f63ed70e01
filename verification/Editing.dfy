/** What the two payload editors, tamper and tlsrec, leave on a plan, stated on the plan
    before and after alone. */
module Editing {
  import opened Types
  import opened Positions
  import opened Spans
  import opened Rewriting
  import opened Ops

  // ---------- the split record ----------

  /** One complete TLS record, and a cut strictly inside its body. */
  predicate Splittable(payload: Bytes, cut: int) {
    && |payload| >= 7 && 20 <= payload[0] <= 24 && payload[1] == 3
    && 256 * (payload[3] as int) + payload[4] as int == |payload| - 5
    && 5 < cut < |payload|
  }

  /** A record: the old type and version, the body's length, the body. */
  predicate IsRecord(payload: Bytes, record: Bytes, body: Bytes)
    requires |payload| >= 3
  {
    && |record| == 5 + |body| && record[..3] == payload[..3] && record[5..] == body
    && 256 * (record[3] as int) + record[4] as int == |body|
  }

  /** Two records: what is in front of the cut, and what is behind it. */
  predicate IsSplitRecord(payload: Bytes, cut: int, out: Bytes)
    requires 5 <= cut <= |payload|
  {
    |out| == |payload| + 5 && IsRecord(payload, out[..cut], payload[5..cut]) && IsRecord(payload, out[cut..], payload[cut..])
  }

  lemma RecordIs(payload: Bytes, body: Bytes)
    requires |payload| >= 5 && |body| < 0x1_0000
    ensures IsRecord(payload, RecordHeader(payload, |body|) + body, body)
  {
    var h := RecordHeader(payload, |body|);
    HeaderLength(payload, |body|);
    assert (h + body)[..3] == h[..3] == payload[..3];
  }

  lemma SplitExactly(payload: Bytes, cut: int)
    ensures TLSRecordSplit(payload, cut).Some? <==> Splittable(payload, cut)
    ensures Splittable(payload, cut) ==> IsSplitRecord(payload, cut, TLSRecordSplit(payload, cut).value)
  {
    if Splittable(payload, cut) {
      var a, b, out := payload[5..cut], payload[cut..], TLSRecordSplit(payload, cut).value;
      RecordIs(payload, a);
      RecordIs(payload, b);
      assert out == (RecordHeader(payload, |a|) + a) + (RecordHeader(payload, |b|) + b);
      assert out[..cut] == RecordHeader(payload, |a|) + a && out[cut..] == RecordHeader(payload, |b|) + b;
    }
  }

  // ---------- written over a plan ----------

  /** A real segment changes its bytes and its place only; it ends where it did, moved by
      `grow` from `cut` on. */
  predicate Moved(s: Seg, t: Seg, cut: int, grow: nat) {
    t == s.(data := t.data, seqOff := t.seqOff) && t.End() == if s.End() < cut then s.End() else s.End() + grow
  }

  /** The plan reassembles to `out` now; injected segments stay as they are. */
  predicate WrittenOver(segs: seq<Seg>, r: seq<Seg>, out: Bytes, cut: int, grow: nat) {
    && |r| == |segs| && Joinable(r, |out|) && Joined(r, |out|) == out
    && forall i :: 0 <= i < |segs| ==> if segs[i].kind == SegData then Moved(segs[i], r[i], cut, grow) else r[i] == segs[i]
  }

  lemma RewrittenIsWrittenOver(segs: seq<Seg>, e: Edit)
    requires Editable(segs, e)
    ensures WrittenOver(segs, Rewritten(segs, e), e.edited, e.pos, e.grow)
  {
    var r := Rewritten(segs, e);
    RewriteThenJoin(segs, e);
    forall i | 0 <= i < |segs| && segs[i].kind == SegData ensures Moved(segs[i], r[i], e.pos, e.grow) {
      assert Edited(segs, r, e, IndexOf(DataIdx(segs), i));
    }
  }

  /** The edited payload in one real segment behind what is planned. */
  predicate SentAlone(c: Ctx, before: PlanState, after: PlanState, out: Bytes) {
    && after.drop && after.dgrams == before.dgrams
    && after.segs == before.segs + [Seg(SegData, out, 0, 0, {}, 1, {}, c.params.ipid, 0, 0, 0)]
  }

  predicate SentOver(before: PlanState, after: PlanState, out: Bytes, cut: int, grow: nat) {
    after.drop == before.drop && after.dgrams == before.dgrams && WrittenOver(before.segs, after.segs, out, cut, grow)
  }

  predicate NothingReal(segs: seq<Seg>) { forall i :: 0 <= i < |segs| ==> segs[i].kind != SegData }

  /** tamper: nothing without a knob; alone it sends the rewritten payload, of another
      length only on a relay; over planned segments it writes the rewritten bytes of what
      they carry, if they tile the payload and the length stays. */
  predicate TamperLeaves(c: Ctx, before: PlanState, after: PlanState) {
    var t, n := c.params.tamper, |c.payload|;
    var opts := if t.hostPad > 0 then t else TamperOpts(t.knobs, 0);
    if t.knobs == {} && t.hostPad <= 0 then after == before
    else if NothingReal(before.segs) then
      var out := c.tamperHost(c.payload, opts);
      if |out| != n && c.caps.inject then after == before else SentAlone(c, before, after, out)
    else if !Joinable(before.segs, n) then after == before
    else
      var out := c.tamperHost(Joined(before.segs, n), opts);
      if |out| != n then after == before else SentOver(before, after, out, 0, 0)
  }

  lemma TamperEdits(c: Ctx, st: PlanState)
    ensures TamperLeaves(c, st, TamperOp(c, st))
  {
    var n := |c.payload|;
    assert NothingReal(st.segs) <==> !HasData(st.segs);
    if HasData(st.segs) && Joinable(st.segs, n) {
      var out := c.tamperHost(Joined(st.segs, n), Knobs(c.params));
      if |out| == n { RewrittenIsWrittenOver(st.segs, Edit(n, out, 0, 0)); }
    }
  }

  /** The position tlsrec cuts at: the first configured one, or one byte into the SNI. */
  ghost predicate RecordCut(c: Ctx, cut: nat) {
    IsPlace(c.payload, c.info, if c.params.splitPos != [] then c.params.splitPos[0] else PosSpec(MarkerSNIExt, 1), cut)
  }

  /** tlsrec: nothing on a transport that injects, or without a record to cut there; alone
      it sends the split record; over planned segments it writes it where they carry the
      payload itself. */
  ghost predicate TlsRecLeaves(c: Ctx, before: PlanState, after: PlanState, cut: nat, out: Bytes) {
    var n := |c.payload|;
    RecordCut(c, cut) &&
    if !Splittable(c.payload, cut) || c.caps.inject then after == before
    else
      && IsSplitRecord(c.payload, cut, out)
      && if NothingReal(before.segs) then SentAlone(c, before, after, out)
         else if !Joinable(before.segs, n) || Joined(before.segs, n) != c.payload then after == before
         else SentOver(before, after, out, cut, 5)
  }

  lemma TlsRecEdits(c: Ctx, st: PlanState) returns (cut: nat, out: Bytes)
    ensures TlsRecLeaves(c, st, TlsRecOp(c, st), cut, out)
  {
    var n := |c.payload|;
    cut, out := FindSplitPos(c.payload, c.info, TlsRecSpec(c.params)), [];
    ResolvesToPlace(c.payload, c.info, TlsRecSpec(c.params), cut);
    SplitExactly(c.payload, cut);
    if Splittable(c.payload, cut) {
      out := TLSRecordSplit(c.payload, cut).value;
      assert NothingReal(st.segs) <==> !HasData(st.segs);
      if HasData(st.segs) && Joinable(st.segs, n) && Joined(st.segs, n) == c.payload {
        RewrittenIsWrittenOver(st.segs, Edit(n, out, cut, 5));
      }
    }
  }
}
