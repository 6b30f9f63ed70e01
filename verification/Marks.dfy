/** What the small ops leave on a plan, field by field, stated on the plan before and
    after alone: rst, syndata, wssize, ip_id, the fragment and extension-header marks
    and udplen. */
module Marks {
  import opened Types
  import opened Spans
  import opened Ops
  import opened Headers
  import opened Transmission

  // ---------- rst, syndata ----------

  /** One reset, without bytes, right in front of the first real segment of the plan that
      sends the payload. */
  predicate RstLeaves(c: Ctx, ack: bool, before: PlanState, after: PlanState, at: nat) {
    if c.synPkt || c.udp || c.payload == [] then after == before
    else
      var plan := Completed(c, before.segs);
      && after.drop == before.drop && after.dgrams == before.dgrams
      && at < |plan| && plan[at].kind == SegData && (forall i :: 0 <= i < at ==> plan[i].kind != SegData)
      && |after.segs| == |plan| + 1 && after.segs[..at] == plan[..at] && after.segs[at + 1..] == plan[at..]
      && IsReset(c, ack, after.segs[at])
  }

  predicate IsReset(c: Ctx, ack: bool, s: Seg) {
    && s.kind == SegRST && s.data == [] && s.seqOff == 0 && s.ttl == c.params.ttl && s.fool == c.params.fool
    && ClampedRepeats(c.params, s.repeats) && Rst in s.flags && (Ack in s.flags <==> ack) && Syn !in s.flags
    && s.ipid == c.params.ipid && s.frag == 0 && s.window == 0 && s.windowScale == 0
  }

  lemma PutInSlices(segs: seq<Seg>, at: nat, s: Seg, r: seq<Seg>)
    requires at <= |segs| && r == PutIn(segs, at, s)
    ensures |r| == |segs| + 1 && r[..at] == segs[..at] && r[at] == s && r[at + 1..] == segs[at..]
  {
  }

  lemma FirstReal(c: Ctx, segs: seq<Seg>)
    requires c.payload != []
    ensures var plan, at := Completed(c, segs), FirstData(segs);
      plan == EnsureDataSeg(c, segs) && at < |plan| && plan[at].kind == SegData && forall i :: 0 <= i < at ==> plan[i].kind != SegData
  {
    var plan, at := EnsureDataSeg(c, segs), FirstData(segs);
    EnsuredAt(c, segs);
    forall i | 0 <= i < at ensures plan[i].kind != SegData { assert plan[..at][i] == plan[i]; }
  }

  lemma RstMarks(c: Ctx, ack: bool, st: PlanState) returns (at: nat)
    ensures RstLeaves(c, ack, st, RstOp(c, ack, st), at)
  {
    at := FirstData(st.segs);
    if !(c.synPkt || c.udp || c.payload == []) {
      var s := RstSeg(c, ack);
      FirstReal(c, st.segs);
      RstPutIn(c, st.segs, s);
      PutInSlices(EnsureDataSeg(c, st.segs), at, s, RstOp(c, ack, st).segs);
      assert IsReset(c, ack, s);
    }
  }

  /** A SYN without data is sent once more with some: the configured bytes or sixteen zeros. */
  predicate SynDataLeaves(c: Ctx, configured: Bytes, before: PlanState, after: PlanState) {
    if c.synPkt && !c.udp && c.payload == [] then
      && after.drop == before.drop && after.dgrams == before.dgrams
      && |after.segs| == |before.segs| + 1 && after.segs[..|before.segs|] == before.segs
      && IsSynData(c, configured, after.segs[|before.segs|])
    else after == before
  }

  predicate IsSynData(c: Ctx, configured: Bytes, s: Seg) {
    && s.kind == SegSynData && s.seqOff == 0 && s.ttl == 0 && s.fool == {} && s.flags == {Syn}
    && (if configured == [] then s.data == [0, 0, 0, 0, 0, 0, 0, 0, 0, 0, 0, 0, 0, 0, 0, 0] else s.data == configured)
    && ClampedRepeats(c.params, s.repeats) && s.ipid == c.params.ipid && s.frag == 0 && s.window == 0 && s.windowScale == 0
  }

  lemma SynDataMarks(c: Ctx, configured: Bytes, st: PlanState)
    ensures SynDataLeaves(c, configured, st, SynDataOp(c, configured, st))
  {
    assert FillPattern(16, [], 0) == [0, 0, 0, 0, 0, 0, 0, 0, 0, 0, 0, 0, 0, 0, 0, 0];
  }

  // ---------- wssize ----------

  /** The rewrite is on, and its own cutoff not passed. */
  predicate Rewrites(c: Ctx) {
    var p, f := c.params, c.flow;
    && p.wsSize > 0
    && match p.wsCutoffKind
       case Unbounded => true
       case PacketCount => f.pkts <= p.wsCutoff
       case DataCount => f.dataPkts <= p.wsCutoff
       case RelSeq => (if f.haveISN && f.lastSeq != 0 then (f.lastSeq - f.isn) % 0x1_0000_0000 else 0) <= p.wsCutoff
  }

  /** Real bytes carry the client's window, and a SYN with data while it is the SYN. */
  predicate Carries(c: Ctx, s: Seg) { s.kind == SegData || (c.synPkt && s.kind == SegSynData) }

  /** Both values cut down to their fields. */
  predicate Windowed(p: OpParams, s: Seg, t: Seg) {
    && t == s.(window := t.window, windowScale := t.windowScale)
    && (p.wsSize <= 0xFFFF ==> t.window == p.wsSize) && (p.wsSize > 0xFFFF ==> t.window == 0xFFFF)
    && (0 <= p.wsScale <= 0xFF ==> t.windowScale == p.wsScale)
    && (p.wsScale < 0 ==> t.windowScale == 0) && (p.wsScale > 0xFF ==> t.windowScale == 0xFF)
  }

  /** The payload joins the plan only when nothing in it carries a window. */
  predicate WsSizeLeaves(c: Ctx, before: PlanState, after: PlanState) {
    if !Rewrites(c) then after == before
    else
      var some := exists i :: 0 <= i < |before.segs| && Carries(c, before.segs[i]);
      var plan := if some || c.payload == [] then before.segs else Completed(c, before.segs);
      && after.drop == before.drop && after.dgrams == before.dgrams && |after.segs| == |plan|
      && forall i :: 0 <= i < |plan| ==>
           if Carries(c, plan[i]) then Windowed(c.params, plan[i], after.segs[i]) else after.segs[i] == plan[i]
  }

  lemma TagMarks(c: Ctx, segs: seq<Seg>)
    requires c.params.wsSize > 0
    ensures var r := WsTag(c, segs);
      |r| == |segs| && forall i :: 0 <= i < |segs| ==>
        if Carries(c, segs[i]) then Windowed(c.params, segs[i], r[i]) else r[i] == segs[i]
  {
  }

  lemma WsSizeMarks(c: Ctx, st: PlanState)
    ensures WsSizeLeaves(c, st, WsSizeOp(c, st))
  {
    assert Rewrites(c) <==> c.params.wsSize > 0 && WsActive(c);
    if Rewrites(c) {
      var some := exists i :: 0 <= i < |st.segs| && Carries(c, st.segs[i]);
      assert some <==> exists i :: 0 <= i < |st.segs| && CarriesWindow(c, st.segs[i]) by {
        forall i | 0 <= i < |st.segs| ensures Carries(c, st.segs[i]) <==> CarriesWindow(c, st.segs[i]) {}
      }
      var plan := if some || c.payload == [] then st.segs else Completed(c, st.segs);
      TagMarks(c, plan);
      assert WsSizeOp(c, st) == st.(segs := WsTag(c, plan));
    }
  }

  // ---------- ip_id, fragments, extension headers ----------

  /** The configured mode on every segment. */
  predicate IpIdLeaves(c: Ctx, before: PlanState, after: PlanState) {
    if c.params.ipid == IPIDDefault then after == before
    else
      && after.drop == before.drop && after.dgrams == before.dgrams && |after.segs| == |before.segs|
      && forall i :: 0 <= i < |before.segs| ==> after.segs[i] == before.segs[i].(ipid := c.params.ipid)
  }

  lemma IpIdMarks(c: Ctx, st: PlanState)
    ensures IpIdLeaves(c, st, IpIdOp(c, st))
  {
  }

  /** The position asked for: the protocol's own, else the other one's, else 8 or 32. */
  function AskedFor(p: OpParams, udp: bool): int {
    if udp && p.fragPosUDP > 0 then p.fragPosUDP
    else if p.fragPosTCP > 0 then p.fragPosTCP
    else if p.fragPosUDP > 0 then p.fragPosUDP
    else if udp then 8 else 32
  }

  /** The last multiple of eight not above it, when that is inside the packet and not
      its very start; 8 or 24 otherwise. */
  predicate IsFragPos(p: OpParams, udp: bool, size: nat, pos: int) {
    var asked := AskedFor(p, udp);
    && pos % 8 == 0
    && if asked >= 8 && asked - asked % 8 < size + (if udp then 8 else 20) then pos <= asked < pos + 8
       else pos == if udp then 8 else 24
  }

  lemma FragPosIs(c: Ctx, udp: bool, size: nat)
    ensures IsFragPos(c.params, udp, size, FragPos(c, udp, size))
  {
  }

  datatype Mark = Fragmented | Fooled(bit: FoolBit)

  predicate MarkedSeg(c: Ctx, m: Mark, s: Seg, t: Seg) {
    match m
    case Fragmented => t == s.(frag := t.frag) && IsFragPos(c.params, false, |c.payload|, t.frag)
    case Fooled(bit) => t == s.(fool := s.fool + {bit})
  }

  predicate MarkedDgram(c: Ctx, m: Mark, s: Dgram, t: Dgram) {
    match m
    case Fragmented => t == s.(frag := t.frag) && IsFragPos(c.params, true, |s.data|, t.frag)
    case Fooled(bit) => t == s.(fool := s.fool + {bit})
  }

  /** The payload joins the plan, and every unit of the given kind gets the mark. */
  predicate MarksAll(c: Ctx, m: Mark, before: PlanState, after: PlanState) {
    if c.udp then
      var plan := CompletedDgrams(c, before.dgrams);
      && after.segs == before.segs && after.drop == before.drop && |after.dgrams| == |plan|
      && forall i :: 0 <= i < |plan| ==>
           if plan[i].kind == SegData then MarkedDgram(c, m, plan[i], after.dgrams[i]) else after.dgrams[i] == plan[i]
    else
      var plan := Completed(c, before.segs);
      && after.dgrams == before.dgrams && after.drop == before.drop && |after.segs| == |plan|
      && forall i :: 0 <= i < |plan| ==>
           if plan[i].kind == SegData then MarkedSeg(c, m, plan[i], after.segs[i]) else after.segs[i] == plan[i]
  }

  lemma CompletedIs(c: Ctx, st: PlanState)
    requires c.payload != []
    ensures EnsureDataSeg(c, st.segs) == Completed(c, st.segs)
    ensures EnsureDataDgram(c, st.dgrams) == CompletedDgrams(c, st.dgrams)
  {
  }

  lemma DecorateMarks(c: Ctx, bit: FoolBit, st: PlanState)
    requires c.payload != []
    ensures MarksAll(c, Fooled(bit), st, Decorate(c, bit, st))
  {
    CompletedIs(c, st);
  }

  predicate IpFrag2Leaves(c: Ctx, before: PlanState, after: PlanState) {
    if c.synPkt || c.payload == [] || (c.udp && c.ipv6) then after == before else MarksAll(c, Fragmented, before, after)
  }

  lemma IpFrag2Marks(c: Ctx, st: PlanState)
    ensures IpFrag2Leaves(c, st, IpFrag2Op(c, st))
  {
    if !(c.synPkt || c.payload == [] || (c.udp && c.ipv6)) {
      var after := IpFrag2Op(c, st);
      CompletedIs(c, st);
      if c.udp {
        var plan := CompletedDgrams(c, st.dgrams);
        forall i | 0 <= i < |plan| && plan[i].kind == SegData ensures MarkedDgram(c, Fragmented, plan[i], after.dgrams[i]) {
          FragPosIs(c, true, |plan[i].data|);
        }
      } else {
        FragPosIs(c, false, |c.payload|);
      }
    }
  }

  predicate Ipv6ExtLeaves(c: Ctx, before: PlanState, after: PlanState) {
    if c.synPkt || c.payload == [] || !c.ipv6 then after == before else MarksAll(c, Fooled(HopByHop), before, after)
  }

  lemma Ipv6ExtMarks(c: Ctx, st: PlanState)
    ensures Ipv6ExtLeaves(c, st, Ipv6ExtOp(c, st))
  {
    if c.payload != [] { DecorateMarks(c, HopByHop, st); }
  }

  /** ipfrag1 marks real packets on IPv6, and on IPv4 only the decoy datagrams there are. */
  predicate IpFrag1Leaves(c: Ctx, before: PlanState, after: PlanState) {
    if c.synPkt || c.payload == [] || (!c.udp && !c.ipv6) then after == before
    else if c.ipv6 then MarksAll(c, Fooled(IPFrag1Bit), before, after)
    else
      && after.segs == before.segs && after.drop == before.drop && |after.dgrams| == |before.dgrams|
      && forall i :: 0 <= i < |before.dgrams| ==>
           if before.dgrams[i].kind == SegFake then MarkedDgram(c, Fragmented, before.dgrams[i], after.dgrams[i])
           else after.dgrams[i] == before.dgrams[i]
  }

  lemma IpFrag1Marks(c: Ctx, st: PlanState)
    ensures IpFrag1Leaves(c, st, IpFrag1Op(c, st))
  {
    if !(c.synPkt || c.payload == [] || (!c.udp && !c.ipv6)) {
      if c.ipv6 {
        DecorateMarks(c, IPFrag1Bit, st);
      } else {
        forall i | 0 <= i < |st.dgrams| && st.dgrams[i].kind == SegFake
          ensures MarkedDgram(c, Fragmented, st.dgrams[i], IpFrag1Op(c, st).dgrams[i])
        {
          FragPosIs(c, true, |st.dgrams[i].data|);
        }
      }
    }
  }

  // ---------- udplen ----------

  /** The payload, cut or grown with the repeated pattern, within 1 and 65535 bytes. */
  predicate IsResized(p: OpParams, payload: Bytes, data: Bytes) {
    var asked := |payload| + if p.udpLenIncrement == 0 then 2 else p.udpLenIncrement;
    && 1 <= |data| <= 0xFFFF && (1 <= asked <= 0xFFFF ==> |data| == asked)
    && (asked < 1 ==> |data| == 1) && (asked > 0xFFFF ==> |data| == 0xFFFF)
    && forall j :: 0 <= j < |data| ==> data[j] == if j < |payload| then payload[j] else Tile(p.udpLenPattern, j - |payload|)
  }

  /** The first real datagram, or a new one, carries the resized payload; a fragment
      position on it is worked out again. */
  predicate UdpLenLeaves(c: Ctx, before: PlanState, after: PlanState, at: nat) {
    if !c.udp || c.payload == [] then after == before
    else
      var plan := CompletedDgrams(c, before.dgrams);
      && after.segs == before.segs && after.drop == before.drop && |after.dgrams| == |plan|
      && at < |plan| && plan[at].kind == SegData && (forall i :: 0 <= i < at ==> plan[i].kind != SegData)
      && (forall i :: 0 <= i < |plan| && i != at ==> after.dgrams[i] == plan[i])
      && var s, t := plan[at], after.dgrams[at];
         && t == s.(data := t.data, frag := t.frag) && IsResized(c.params, c.payload, t.data)
         && if s.frag > 0 then IsFragPos(c.params, true, |t.data|, t.frag) else t.frag == s.frag
  }

  lemma ResizedIs(c: Ctx)
    requires c.payload != []
    ensures IsResized(c.params, c.payload, Resize(c.payload, Increment(c.params), c.params.udpLenPattern))
  {
  }

  lemma UdpLenMarks(c: Ctx, st: PlanState) returns (at: nat)
    ensures UdpLenLeaves(c, st, UdpLenOp(c, st), at)
  {
    at := FirstDataDgram(st.dgrams);
    if c.udp && c.payload != [] {
      ResizedIs(c);
      FirstDgramAt(c, st.dgrams);
      FragPosIs(c, true, |Resize(c.payload, Increment(c.params), c.params.udpLenPattern)|);
    }
  }
}
