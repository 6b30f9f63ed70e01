/** What leaves the machine for a plan on the packet-level transport. It builds all of a
    plan or refuses it and forwards the application's own packet. */
module Transport {
  import opened Types
  import opened Spans
  import opened Rewriting
  import opened Receiver
  import opened Ops
  import opened Streams
  import opened StreamMeaning
  import opened Chains
  import opened Edges

  /** What is sent: planned segments or datagrams, and whether the original goes out. */
  datatype Fate = Fate(segs: seq<Seg>, dgrams: seq<Dgram>, original: bool)

  const FORWARDED := Fate([], [], true)

  /** TCP segments for a datagram, datagrams for a segment, or real segments that do not
      tile the payload. */
  predicate Refused(c: Ctx, plan: PlanState) {
    || (plan.segs != [] && c.udp)
    || (HasData(plan.segs) && !Joinable(plan.segs, |c.payload|))
    || (plan.dgrams != [] && !c.udp)
  }

  function Emitted(c: Ctx, plan: PlanState): Fate {
    if Refused(c, plan) then FORWARDED else Fate(plan.segs, plan.dgrams, !plan.drop)
  }

  // ---------- TCP ----------

  /** The last line of defence never fires: no list on any TCP packet, SYNs included,
      makes a plan the transport refuses. */
  lemma TcpPlansAccepted(ops: seq<CompiledOp>, c: Ctx, policy: Policy)
    requires !c.udp && c.caps.inject && Run(ops, c, policy).Some?
    ensures !Refused(c, Run(ops, c, policy).value)
  {
    RunMeans(ops, c, policy, EMPTY_PLAN, Untouched);
    DgramsOnlyOnUdp(ops, c, policy, EMPTY_PLAN);
    SameLength(ops, c, policy, Untouched);
    var plan, v := Run(ops, c, policy).value, ChainMeaning(ops, c, policy, Untouched);
    SyncHasData(plan.segs, v);
    if v.Stream? { JoinableAt(plan.segs, v.bytes, |c.payload|); }
  }

  /** What the server reads of a data packet on an established connection. */
  function WireStream(c: Ctx, fate: Fate): Bytes {
    if fate.original then c.payload else Receive(fate.segs).delivered
  }

  /** So what ChainDelivers says of the plan holds of the wire. */
  lemma WireDelivers(ops: seq<CompiledOp>, c: Ctx, policy: Policy)
    requires TcpData(c) && c.caps.inject && Run(ops, c, policy).Some?
    ensures WireStream(c, Emitted(c, Run(ops, c, policy).value)) ==
            WireBytes(ChainMeaning(ops, c, policy, Untouched), c.payload)
  {
    TcpPlansAccepted(ops, c, policy);
    ChainDelivers(ops, c, policy);
  }

  /** A SYN leaves the machine with the original, or with a planned SYN: real segments
      never carry the flag. */
  predicate SynLeaves(fate: Fate) { fate.original || HasSyn(fate.segs) }

  /** Main result for SYNs, with or without data: exactly the lists that keep the SYN
      from leaving the machine. */
  lemma SynFateExactly(ops: seq<CompiledOp>, c: Ctx, policy: Policy)
    requires c.synPkt && !c.udp && c.caps.inject && Run(ops, c, policy).Some?
    ensures !SynLeaves(Emitted(c, Run(ops, c, policy).value)) <==>
      if |c.payload| > 0 then Any(ops, c, Blocks) || Any(ops, c, SegmentPlanner(policy))
      else (Any(ops, c, Blocks) || Any(ops, c, ReplacesSyn)) && !Any(AfterBlock(ops, c), c, PlansSyn)
  {
    TcpPlansAccepted(ops, c, policy);
    if |c.payload| > 0 { SynWithDataLostExactly(ops, c, policy); } else { SynLostExactly(ops, c, policy); }
  }

  // ---------- UDP ----------

  /** Main result for UDP. The plan is refused, and the application's own datagram goes
      out, exactly when some op behind the last block plans a TCP segment: whatever the
      others did to the datagram is undone. Otherwise the datagram ops decide, and the
      datagram is lost exactly when some op blocks and none behind it plans anything. */
  lemma DatagramFateExactly(ops: seq<CompiledOp>, c: Ctx, policy: Policy)
    requires UdpData(c) && Run(ops, c, policy).Some?
    ensures var plan, post := Run(ops, c, policy).value, AfterBlock(ops, c);
      var fate, tcp, udp := Emitted(c, plan), Any(post, c, SegmentPlanner(policy)), Any(post, c, PlansDatagram);
      && (Refused(c, plan) <==> tcp)
      && (tcp ==> fate == FORWARDED)
      && (!tcp && udp ==> !fate.original && fate.segs == [] && DgramSync(fate.dgrams, DgramChain(ops, c, Untouched)))
      && (!fate.original && !HasDataDgram(fate.dgrams) <==> Any(ops, c, Blocks) && !tcp && !udp)
      && (fate == FORWARDED <==> tcp || (!Any(ops, c, Blocks) && !udp))
      && (udp ==> DgramChain(ops, c, Untouched).Stream?)
  {
    DatagramPlanExactly(ops, c, policy);
    DgramListPlans(ops, c);
    var plan := Run(ops, c, policy).value;
    assert HasDataDgram([]) == false;
    if plan.segs == [] { assert !HasData(plan.segs); }
  }

  /** udplen alone resizes the datagram. */
  lemma UdpLenAlone(u: CompiledOp, c: Ctx, policy: Policy)
    requires UdpData(c) && c.caps == FULL_CAPS && u.op == UdpLen
    ensures Run([u], c, policy).Some?
    ensures var fate := Emitted(c, Run([u], c, policy).value);
      !fate.original && DgramSync(fate.dgrams, Stream(Resize(c.payload, Increment(u.params), u.params.udpLenPattern)))
  {
    AlwaysRuns([u], c, policy, EMPTY_PLAN);
    AfterBlockIsSuffix([u], c);
    DatagramFateExactly([u], c, policy);
    assert PlansDatagram(c, [u][0]) && !PlansSegment(c, policy, [u][0]);
    assert [u][1..] == [] && DgramChain([], c, DgramStep(c, u, Untouched)) == DgramStep(c, u, Untouched);
    assert Increment(For(c, u).params) == Increment(u.params);
  }

  /** Beside any op that plans a segment it does nothing, in front of it or behind it. */
  lemma UdpLenUndoneBySegment(u: CompiledOp, s: CompiledOp, ops: seq<CompiledOp>, c: Ctx, policy: Policy)
    requires UdpData(c) && c.caps == FULL_CAPS && u.op == UdpLen && PlansSegment(c, policy, s)
    requires ops == [u, s] || ops == [s, u]
    ensures Run(ops, c, policy).Some? && Emitted(c, Run(ops, c, policy).value) == FORWARDED
  {
    AlwaysRuns(ops, c, policy, EMPTY_PLAN);
    AfterBlockIsSuffix(ops, c);
    DatagramFateExactly(ops, c, policy);
    assert SegmentPlanner(policy)(c, ops[0]) || SegmentPlanner(policy)(c, ops[1]);
  }

  // ---------- fragmentation ----------

  /** An IPv4 segment is cut in two exactly when its mark, rounded down, is inside what
      follows the IP header; otherwise it goes out whole. `header` is the TCP header's
      length, options included. */
  predicate Fragmented(s: Seg, header: nat) {
    s.frag > 0 && 8 <= s.frag - s.frag % 8 < header + |s.data|
  }

  /** ipfrag2 marks every real segment with one position, chosen for the whole payload:
      a segment is fragmented exactly when it alone reaches past it. */
  lemma FragmentedExactly(c: Ctx, st: PlanState, header: nat, i: nat)
    requires Plans(IpFrag2, c) && i < |IpFrag2Op(c, st).segs|
    ensures var s := IpFrag2Op(c, st).segs[i];
      IsData(s) ==> (Fragmented(s, header) <==> FragPos(c, false, |c.payload|) < header + |s.data|)
  {
    FragPosInside(c, false, |c.payload|);
  }

  /** The payload sent whole with a plain header is cut when it has more than four bytes. */
  lemma WholePayloadFragmented(c: Ctx, s: Seg)
    requires |s.data| == |c.payload| > 4 && s.frag == FragPos(c, false, |c.payload|)
    ensures Fragmented(s, HeaderLen(false))
  {
    FragPosInside(c, false, |c.payload|);
  }

  /** The first part of a split is not, when it is short: two bytes behind the default mark. */
  lemma ShortPartGoesWhole(c: Ctx, s: Seg)
    requires |s.data| == 2 && |c.payload| > 12 && s.frag == FragPos(c, false, |c.payload|)
    requires c.params.fragPosTCP == 0 && c.params.fragPosUDP == 0
    ensures !Fragmented(s, HeaderLen(false))
  {
  }
}
