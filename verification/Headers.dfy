/** What the injecting and the header-level ops do to a plan, whatever is in it: a reset
    goes out right before the real bytes; header ops mark what they are meant for, the
    receiver does not see them, and doing one twice is doing it once. */
module Headers {
  import opened Types
  import opened Spans
  import opened Receiver
  import opened Ops
  import opened Streams
  import opened StreamMeaning

  // ---------- rst ----------

  function PutIn(segs: seq<Seg>, at: nat, s: Seg): seq<Seg>
    requires at <= |segs|
  {
    segs[..at] + [s] + segs[at..]
  }

  /** The first real segment of a plan that is completed with the payload. */
  lemma EnsuredAt(c: Ctx, segs: seq<Seg>)
    requires |c.payload| > 0
    ensures var e, at := EnsureDataSeg(c, segs), FirstData(segs);
      at < |e| && IsData(e[at]) && !HasData(e[..at]) && e[..at] == segs[..at]
  {
    var at := FirstData(segs);
    assert segs[..|segs|] == segs;
    assert at < |segs| <==> HasData(segs);
  }

  lemma RstPutIn(c: Ctx, segs: seq<Seg>, s: Seg)
    requires |c.payload| > 0 && !IsData(s)
    ensures EnsureDataSeg(c, InsertSegs(segs, [s])) == PutIn(EnsureDataSeg(c, segs), FirstData(segs), s)
  {
    var at := FirstData(segs);
    EnsuredAt(c, segs);
    NoDataJoin(segs[..at] + [s], segs[at..]);
    NoDataJoin(segs[..at], [s]);
    NoDataJoin(segs[..at], segs[at..]);
    assert segs[..at] + segs[at..] == segs;
    assert !HasData([s]);
  }

  /** Where the op fires, the plan is the one that sends the payload plainly, with one
      reset put in immediately before the first real segment; the server reads the same. */
  lemma RstJustBeforeData(c: Ctx, ack: bool, st: PlanState)
    requires Plans(RstInject(ack), c)
    ensures var r, e, at, rst := RstOp(c, ack, st).segs, EnsureDataSeg(c, st.segs), FirstData(st.segs), RstSeg(c, ack);
      && at < |e| && IsData(e[at]) && !HasData(e[..at])
      && r == PutIn(e, at, rst) && rst.kind == SegRST && rst.data == []
      && Receive(r) == Receive(e)
  {
    EnsuredAt(c, st.segs);
    RstPutIn(c, st.segs, RstSeg(c, ack));
    ReceiveWithout(EnsureDataSeg(c, st.segs), FirstData(st.segs), RstSeg(c, ack));
  }

  lemma {:induction false} ReceiveWithout(segs: seq<Seg>, at: nat, s: Seg)
    requires at <= |segs| && !IsData(s)
    ensures Receive(PutIn(segs, at, s)) == Receive(segs)
    decreases |segs|
  {
    var r := PutIn(segs, at, s);
    if at == |segs| {
      assert r[..|r| - 1] == segs;
    } else {
      var front := segs[..|segs| - 1];
      assert r[..|r| - 1] == PutIn(front, at, s);
      ReceiveWithout(front, at, s);
    }
  }

  // ---------- header ops ----------

  predicate HeaderOp(op: Op) { op.IpId? || op.IpFrag1? || op.IpFrag2? || op.Ipv6Ext? }

  /** What a header op marks: the plan so far, with the payload put in where it fires. */
  function Subject(op: Op, c: Ctx, segs: seq<Seg>): seq<Seg> {
    if Plans(op, c) then EnsureDataSeg(c, segs) else segs
  }

  lemma ArriveSame(r: State, s: Seg, t: Seg)
    requires SameBytes(s, t)
    ensures Arrive(r, s) == Arrive(r, t)
  {
    assert Store(r.held, s, |r.delivered|) == Store(r.held, t, |r.delivered|);
  }

  lemma {:induction false} ReceiveSame(a: seq<Seg>, b: seq<Seg>)
    requires SameContent(a, b)
    ensures Receive(a) == Receive(b)
    decreases |a|
  {
    if |a| > 0 {
      var k := |a| - 1;
      assert SameBytes(a[k], b[k]);
      assert forall i :: 0 <= i < k ==> SameBytes(a[i], b[i]);
      ReceiveSame(a[..k], b[..k]);
      ArriveSame(Receive(a[..k]), a[k], b[k]);
    }
  }

  /** A header op changes no byte of a plan, nor whether it replaces the packet. */
  lemma HeaderOpsInvisible(op: Op, c: Ctx, st: PlanState)
    requires HeaderOp(op)
    ensures var r := Apply(op, c, st);
      && SameContent(Subject(op, c, st.segs), r.segs)
      && Receive(r.segs) == Receive(Subject(op, c, st.segs))
      && r.drop == st.drop
  {
    var r := Apply(op, c, st).segs;
    assert forall i :: 0 <= i < |r| ==> SameBytes(Subject(op, c, st.segs)[i], r[i]);
    ReceiveSame(Subject(op, c, st.segs), r);
  }

  predicate SameKindsOf(a: seq<Seg>, b: seq<Seg>) {
    |a| == |b| && forall i :: 0 <= i < |a| ==> a[i].kind == b[i].kind
  }

  lemma StaysEnsured(c: Ctx, a: seq<Seg>, b: seq<Seg>)
    requires SameKindsOf(EnsureDataSeg(c, a), b)
    ensures EnsureDataSeg(c, b) == b
  {
    var e := EnsureDataSeg(c, a);
    if |c.payload| > 0 {
      var i :| 0 <= i < |e| && (IsData(e[i]) || i == |e| - 1) && IsData(e[i]);
      assert IsData(b[i]);
    }
  }

  lemma StaysEnsuredDgram(c: Ctx, a: seq<Dgram>, b: seq<Dgram>)
    requires var e := EnsureDataDgram(c, a); |e| == |b| && forall i :: 0 <= i < |e| ==> e[i].kind == b[i].kind
    ensures EnsureDataDgram(c, b) == b
  {
    var e := EnsureDataDgram(c, a);
    if |c.payload| > 0 {
      assert HasDataDgram(e) by { if !HasDataDgram(a) { assert e[|e| - 1].kind == SegData; } }
      var i :| 0 <= i < |e| && e[i].kind == SegData;
      assert b[i].kind == SegData;
    }
  }

  lemma DecorateTwice(c: Ctx, bit: FoolBit, st: PlanState)
    ensures Decorate(c, bit, Decorate(c, bit, st)) == Decorate(c, bit, st)
  {
    var a := Decorate(c, bit, st);
    if c.udp {
      StaysEnsuredDgram(c, st.dgrams, a.dgrams);
      assert forall i :: 0 <= i < |a.dgrams| ==> Decorate(c, bit, a).dgrams[i] == a.dgrams[i];
    } else {
      StaysEnsured(c, st.segs, a.segs);
      assert forall i :: 0 <= i < |a.segs| ==> Decorate(c, bit, a).segs[i] == a.segs[i];
    }
  }

  lemma Frag2Twice(c: Ctx, st: PlanState)
    ensures IpFrag2Op(c, IpFrag2Op(c, st)) == IpFrag2Op(c, st)
  {
    var a := IpFrag2Op(c, st);
    if c.synPkt || |c.payload| == 0 || (c.udp && c.ipv6) {
    } else if c.udp {
      StaysEnsuredDgram(c, st.dgrams, a.dgrams);
      assert forall i :: 0 <= i < |a.dgrams| ==> IpFrag2Op(c, a).dgrams[i] == a.dgrams[i];
    } else {
      StaysEnsured(c, st.segs, a.segs);
      assert forall i :: 0 <= i < |a.segs| ==> IpFrag2Op(c, a).segs[i] == a.segs[i];
    }
  }

  /** Doing it again changes nothing. */
  lemma HeaderOpsIdempotent(op: Op, c: Ctx, st: PlanState)
    requires HeaderOp(op)
    ensures Apply(op, c, Apply(op, c, st)) == Apply(op, c, st)
  {
    match op {
      case IpId =>
        var a := IpIdOp(c, st);
        assert forall i :: 0 <= i < |a.segs| ==> IpIdOp(c, a).segs[i] == a.segs[i];
      case IpFrag2 => Frag2Twice(c, st);
      case IpFrag1 =>
        if c.synPkt || |c.payload| == 0 || (!c.udp && !c.ipv6) {
        } else if !c.ipv6 {
          var a := IpFrag1Op(c, st);
          assert forall i :: 0 <= i < |a.dgrams| ==> IpFrag1Op(c, a).dgrams[i] == a.dgrams[i];
        } else {
          DecorateTwice(c, IPFrag1Bit, st);
        }
      case Ipv6Ext(_) => DecorateTwice(c, HopByHop, st);
    }
  }

  /** What a header op leaves on a segment: the mark on the real ones it is meant for,
      the configured identification on every one. */
  predicate Marked(op: Op, c: Ctx, s: Seg) {
    match op
    case IpId => c.params.ipid == IPIDDefault || s.ipid == c.params.ipid
    case IpFrag2 => IsData(s) ==> s.frag >= 8 && s.frag % 8 == 0
    case IpFrag1 => IsData(s) ==> IPFrag1Bit in s.fool
    case _ => IsData(s) ==> HopByHop in s.fool
  }

  /** Nothing of the segment but the op's own field differs. */
  predicate OnlyMark(op: Op, s: Seg, t: Seg) {
    match op
    case IpId => t == s.(ipid := t.ipid)
    case IpFrag2 => t == s.(frag := t.frag) && (IsData(s) || t == s)
    case _ => t == s.(fool := t.fool) && s.fool <= t.fool && (IsData(s) || t == s)
  }

  /** A header op that fires on a TCP packet leaves real bytes in the plan, marks every
      segment it is meant for, the payload itself included, and touches nothing else. */
  lemma HeaderOpsReachAll(op: Op, c: Ctx, st: PlanState)
    requires HeaderOp(op) && !c.udp && (op.IpId? || Plans(op, c))
    ensures var e, r := Subject(op, c, st.segs), Apply(op, c, st).segs;
      && |r| == |e| && (!op.IpId? ==> HasData(r))
      && forall i :: 0 <= i < |r| ==> Marked(op, c, r[i]) && OnlyMark(op, e[i], r[i])
  {
    var e, r := Subject(op, c, st.segs), Apply(op, c, st).segs;
    if !op.IpId? {
      StaysEnsured(c, st.segs, r);
    }
  }
}
