/** Running a profile's op list, and what the server receives whatever the list. */
module Chains {
  import opened Types
  import opened AutoTTL
  import opened Positions
  import opened Spans
  import opened Rewriting
  import opened Receiver
  import opened Ops
  import opened Streams
  import opened StreamMeaning

  datatype CompiledOp = CompiledOp(op: Op, params: OpParams)

  /** What happens to an op the transport cannot honour. */
  datatype Policy = DegradeIt | SkipIt | FailIt

  predicate Covers(have: Caps, need: Caps) {
    && (need.inject ==> have.inject) && (need.seqNo ==> have.seqNo) && (need.dropOriginal ==> have.dropOriginal)
    && (need.perPacketTTL ==> have.perPacketTTL) && (need.fooling ==> have.fooling) && (need.ipid ==> have.ipid)
    && (need.udp ==> have.udp) && (need.ipv6ExtHdr ==> have.ipv6ExtHdr) && (need.frag ==> have.frag)
    && (need.segment ==> have.segment) && (need.tlsRec ==> have.tlsRec)
  }

  /** The context one op of the list sees: its own parameters, autottl resolved. */
  function For(c: Ctx, co: CompiledOp): Ctx { c.(params := ResolveTTL(co.params, c.flow.hops)) }

  predicate Applied(c: Ctx, co: CompiledOp) { Covers(c.caps, Requires(co.op)) }

  function Step(c: Ctx, co: CompiledOp, policy: Policy, st: PlanState): Option<PlanState> {
    if Applied(c, co) then Some(Apply(co.op, For(c, co), st))
    else match policy
      case FailIt => None
      case SkipIt => Some(st)
      case DegradeIt => Some(Degrade(co.op, For(c, co), st))
  }

  function RunFrom(ops: seq<CompiledOp>, c: Ctx, policy: Policy, st: PlanState): Option<PlanState> {
    if |ops| == 0 then Some(st)
    else match Step(c, ops[0], policy, st)
      case None => None
      case Some(st') => RunFrom(ops[1..], c, policy, st')
  }

  /** A plan that emits anything replaces the original packet. */
  function Finish(st: PlanState): PlanState {
    if |st.segs| > 0 || |st.dgrams| > 0 then st.(drop := true) else st
  }

  /** The plan for one packet; None when an unsupported op is an error. */
  function Run(ops: seq<CompiledOp>, c: Ctx, policy: Policy): Option<PlanState> {
    match RunFrom(ops, c, policy, EMPTY_PLAN)
    case None => None
    case Some(st) => Some(Finish(st))
  }

  // ---------- the same list, on streams ----------

  function StepMeaning(c: Ctx, co: CompiledOp, policy: Policy, v: Wire): Wire {
    if Applied(c, co) then Meaning(co.op, For(c, co), v)
    else if policy == DegradeIt then DegradeMeaning(co.op, For(c, co), v)
    else v
  }

  function ChainMeaning(ops: seq<CompiledOp>, c: Ctx, policy: Policy, v: Wire): Wire {
    if |ops| == 0 then v else ChainMeaning(ops[1..], c, policy, StepMeaning(c, ops[0], policy, v))
  }

  lemma StepMeans(c: Ctx, co: CompiledOp, policy: Policy, st: PlanState, v: Wire)
    requires Good(c, st, v)
    ensures var r := Step(c, co, policy, st); r.Some? ==> Good(c, r.value, StepMeaning(c, co, policy, v))
  {
    var d := For(c, co);
    assert Good(d, st, v);
    if Applied(c, co) {
      ApplyMeans(co.op, d, st, v);
      assert Good(d, Apply(co.op, d, st), Meaning(co.op, d, v));
    } else {
      DegradeMeans(co.op, d, st, v);
      assert Good(d, Degrade(co.op, d, st), DegradeMeaning(co.op, d, v));
    }
  }

  /** The plan-level run implements the stream-level one. */
  lemma {:induction false} RunMeans(ops: seq<CompiledOp>, c: Ctx, policy: Policy, st: PlanState, v: Wire)
    requires Good(c, st, v)
    ensures var r := RunFrom(ops, c, policy, st); r.Some? ==> Good(c, r.value, ChainMeaning(ops, c, policy, v))
    decreases |ops|
  {
    if |ops| > 0 {
      StepMeans(c, ops[0], policy, st, v);
      match Step(c, ops[0], policy, st) {
        case None =>
        case Some(st') => RunMeans(ops[1..], c, policy, st', StepMeaning(c, ops[0], policy, v));
      }
    }
  }

  // ---------- what the server receives ----------

  /** The TCP stream the server's application reads: the plan's, or the original packet's. */
  function ServerStream(plan: PlanState, payload: Bytes): Bytes {
    if plan.drop then Receive(plan.segs).delivered else payload
  }

  function WireBytes(v: Wire, payload: Bytes): Bytes {
    match v case Untouched => payload case Dropped => [] case Stream(w) => w
  }

  /** A TCP packet with a payload on an established connection. */
  predicate TcpData(c: Ctx) { !c.udp && !c.synPkt && |c.payload| > 0 }

  /** Main result: for every op list, every transport and every policy, the server
      reads exactly the stream the list means; the plan replaces the original packet
      exactly when the list means something else than leaving it alone; a plan that
      carries a stream has real segments that tile it once, any other plan is empty;
      and nothing else is ever handed to the application. */
  lemma ChainDelivers(ops: seq<CompiledOp>, c: Ctx, policy: Policy)
    requires TcpData(c) && Run(ops, c, policy).Some?
    ensures var plan, v := Run(ops, c, policy).value, ChainMeaning(ops, c, policy, Untouched);
      && ServerStream(plan, c.payload) == WireBytes(v, c.payload)
      && (plan.drop <==> !v.Untouched?)
      && plan.dgrams == [] && (!v.Stream? ==> plan.segs == [])
      && (v.Stream? ==>
            var w := v.bytes;
            && HasData(plan.segs) && Joinable(plan.segs, |w|) && Joined(plan.segs, |w|) == w
            && (forall m :: 0 <= m <= |plan.segs| ==> Receive(plan.segs[..m]).delivered <= w))
  {
    RunMeans(ops, c, policy, EMPTY_PLAN, Untouched);
    DgramsOnlyOnUdp(ops, c, policy, EMPTY_PLAN);
    var plan, v := Run(ops, c, policy).value, ChainMeaning(ops, c, policy, Untouched);
    match v {
      case Stream(w) =>
        Delivery(plan.segs, w);
        JoinableAt(plan.segs, w, |w|);
      case _ => assert plan.segs == [];
    }
  }

  lemma {:induction false} DgramsOnlyOnUdp(ops: seq<CompiledOp>, c: Ctx, policy: Policy, st: PlanState)
    requires !c.udp && st.dgrams == []
    ensures var r := RunFrom(ops, c, policy, st); r.Some? ==> r.value.dgrams == []
    decreases |ops|
  {
    if |ops| > 0 {
      match Step(c, ops[0], policy, st) {
        case None =>
        case Some(st') =>
          StepNoDgrams(c, ops[0], policy, st);
          DgramsOnlyOnUdp(ops[1..], c, policy, st');
      }
    }
  }

  lemma ApplyNoDgrams(op: Op, c: Ctx, st: PlanState)
    requires !c.udp && st.dgrams == []
    ensures Apply(op, c, st).dgrams == []
  {
    match op {
      case IpFrag1 =>
      case IpFrag2 =>
      case UdpLen =>
      case Fake(_) =>
      case Tamper =>
      case TlsRec =>
      case _ =>
    }
  }

  lemma StepNoDgrams(c: Ctx, co: CompiledOp, policy: Policy, st: PlanState)
    requires !c.udp && st.dgrams == []
    ensures var r := Step(c, co, policy, st); r.Some? ==> r.value.dgrams == []
  {
    ApplyNoDgrams(co.op, For(c, co), st);
    DegradeKeepsDgrams(co.op, For(c, co), st);
  }

  lemma DegradeKeepsDgrams(op: Op, c: Ctx, st: PlanState)
    ensures Degrade(op, c, st).dgrams == st.dgrams
  {
  }

  // ---------- which ops plan something, which drop everything ----------

  /** The ops of a list that satisfy p. */
  predicate Any(ops: seq<CompiledOp>, c: Ctx, p: (Ctx, CompiledOp) -> bool) {
    exists i :: 0 <= i < |ops| && p(c, ops[i])
  }

  lemma AnyHead(ops: seq<CompiledOp>, c: Ctx, p: (Ctx, CompiledOp) -> bool)
    requires |ops| > 0
    ensures Any(ops, c, p) <==> p(c, ops[0]) || Any(ops[1..], c, p)
  {
    if Any(ops, c, p) {
      var i :| 0 <= i < |ops| && p(c, ops[i]);
      if i > 0 { assert ops[1..][i - 1] == ops[i]; }
    }
    if Any(ops[1..], c, p) {
      var i :| 0 <= i < |ops[1..]| && p(c, ops[1..][i]);
      assert ops[i + 1] == ops[1..][i];
    }
  }

  predicate Blocks(c: Ctx, co: CompiledOp) { co.op.Block? && Applied(c, co) }

  /** The op plans a TCP segment where none is planned yet. */
  predicate PlansSegment(c: Ctx, policy: Policy, co: CompiledOp) {
    if Applied(c, co) then Plans(co.op, For(c, co)) else policy == DegradeIt && DegradePlans(co.op, For(c, co))
  }

  function SegmentPlanner(policy: Policy): (Ctx, CompiledOp) -> bool { (c, co) => PlansSegment(c, policy, co) }

  /** The ops behind the last block that applies. */
  function AfterBlock(ops: seq<CompiledOp>, c: Ctx): (r: seq<CompiledOp>)
    ensures !Any(r, c, Blocks)
  {
    if Any(ops, c, Blocks) then AfterBlock(ops[1..], c) else ops
  }

  /** ... that is, a suffix that starts right behind an applied block. */
  lemma {:induction false} AfterBlockIsSuffix(ops: seq<CompiledOp>, c: Ctx)
    ensures !Any(ops, c, Blocks) ==> AfterBlock(ops, c) == ops
    ensures Any(ops, c, Blocks) ==>
              exists k :: 0 <= k < |ops| && Blocks(c, ops[k]) && AfterBlock(ops, c) == ops[k + 1..]
    decreases |ops|
  {
    if Any(ops, c, Blocks) {
      AnyHead(ops, c, Blocks);
      AfterBlockIsSuffix(ops[1..], c);
      if Any(ops[1..], c, Blocks) {
        var k :| 0 <= k < |ops[1..]| && Blocks(c, ops[1..][k]) && AfterBlock(ops[1..], c) == ops[1..][k + 1..];
        assert Blocks(c, ops[k + 1]) && AfterBlock(ops, c) == ops[k + 2..];
      } else {
        assert Blocks(c, ops[0]) && AfterBlock(ops, c) == ops[0 + 1..];
      }
    }
  }

  /** An op starts a stream exactly when it plans a segment; it never ends one but by
      blocking. */
  lemma StepPlans(c: Ctx, co: CompiledOp, policy: Policy, v: Wire)
    ensures var w := StepMeaning(c, co, policy, v);
      if Blocks(c, co) then w == Dropped
      else if v.Stream? then w.Stream?
      else if PlansSegment(c, policy, co) then w.Stream?
      else w == v
  {
    MeaningPlans(co.op, For(c, co), v);
    DegradeMeaningPlans(co.op, For(c, co), v);
  }

  lemma {:induction false} ChainPlans(ops: seq<CompiledOp>, c: Ctx, policy: Policy, v: Wire)
    requires !Any(ops, c, Blocks)
    ensures var w := ChainMeaning(ops, c, policy, v);
      if v.Stream? || Any(ops, c, SegmentPlanner(policy)) then w.Stream? else w == v
    decreases |ops|
  {
    if |ops| > 0 {
      AnyHead(ops, c, Blocks);
      AnyHead(ops, c, SegmentPlanner(policy));
      StepPlans(c, ops[0], policy, v);
      ChainPlans(ops[1..], c, policy, StepMeaning(c, ops[0], policy, v));
    }
  }

  /** A list means what its ops behind the last block mean, after everything was dropped. */
  lemma {:induction false} ChainBehindBlock(ops: seq<CompiledOp>, c: Ctx, policy: Policy, v: Wire)
    requires Any(ops, c, Blocks)
    ensures ChainMeaning(ops, c, policy, v) == ChainMeaning(AfterBlock(ops, c), c, policy, Dropped)
    decreases |ops|
  {
    AnyHead(ops, c, Blocks);
    var w := StepMeaning(c, ops[0], policy, v);
    if Any(ops[1..], c, Blocks) {
      ChainBehindBlock(ops[1..], c, policy, w);
    } else {
      StepPlans(c, ops[0], policy, v);
    }
  }

  /** What a list means, op by op: a stream exactly when some op behind the last block
      plans a segment; otherwise the packet is dropped exactly when some block applies. */
  lemma ListPlans(ops: seq<CompiledOp>, c: Ctx, policy: Policy)
    ensures var v := ChainMeaning(ops, c, policy, Untouched);
      && (v.Stream? <==> Any(AfterBlock(ops, c), c, SegmentPlanner(policy)))
      && (v.Dropped? <==> Blocked(ops, c, policy))
  {
    if Any(ops, c, Blocks) {
      ChainBehindBlock(ops, c, policy, Untouched);
      ChainPlans(AfterBlock(ops, c), c, policy, Dropped);
    } else {
      ChainPlans(ops, c, policy, Untouched);
    }
  }

  /** Some block applies and nothing behind the last one plans a segment. */
  predicate Blocked(ops: seq<CompiledOp>, c: Ctx, policy: Policy) {
    Any(ops, c, Blocks) && !Any(AfterBlock(ops, c), c, SegmentPlanner(policy))
  }

  /** `block` is not the end of a list: the packet is dropped with nothing in its place
      exactly when nothing behind the last block plans a segment. */
  lemma BlockedExactly(ops: seq<CompiledOp>, c: Ctx, policy: Policy)
    requires TcpData(c) && Run(ops, c, policy).Some?
    ensures var plan := Run(ops, c, policy).value;
      && (plan.drop && plan.segs == [] <==> Blocked(ops, c, policy))
      && (plan.segs != [] <==> Any(AfterBlock(ops, c), c, SegmentPlanner(policy)))
  {
    ChainDelivers(ops, c, policy);
    ListPlans(ops, c, policy);
  }

  /** It happens: a fake behind a block puts the whole payload back on the wire. */
  lemma BlockUndoneByFake(b: CompiledOp, f: CompiledOp, c: Ctx, policy: Policy)
    requires TcpData(c) && c.caps == FULL_CAPS && b.op == Block && f.op == Fake(false)
    ensures Run([b, f], c, policy).Some?
    ensures ServerStream(Run([b, f], c, policy).value, c.payload) == c.payload
  {
    AlwaysRuns([b, f], c, policy, EMPTY_PLAN);
    TwoSteps(b, f, c, policy, Stream(c.payload));
  }

  predicate Rewrites(op: Op) { op.Tamper? || op.TlsRec? }

  predicate NoRewrite(ops: seq<CompiledOp>) {
    forall i :: 0 <= i < |ops| ==> !Rewrites(ops[i].op)
  }

  lemma {:induction false} PayloadMeaning(ops: seq<CompiledOp>, c: Ctx, policy: Policy, v: Wire)
    requires NoRewrite(ops) && (!v.Stream? || v == Stream(c.payload))
    ensures var r := ChainMeaning(ops, c, policy, v); !r.Stream? || r == Stream(c.payload)
    decreases |ops|
  {
    if |ops| > 0 {
      PayloadMeaning(ops[1..], c, policy, StepMeaning(c, ops[0], policy, v));
    }
  }

  /** Main result: decoys, splits, disorder, overlaps, fragments and header ops, in
      any number and order, on any transport: the server reads exactly the payload,
      once, whether the plan or the original packet carries it; it reads nothing
      exactly when the list blocks the packet. */
  lemma StreamPreserved(ops: seq<CompiledOp>, c: Ctx, policy: Policy)
    requires TcpData(c) && NoRewrite(ops) && Run(ops, c, policy).Some?
    ensures var plan := Run(ops, c, policy).value;
      && ServerStream(plan, c.payload) == (if Blocked(ops, c, policy) then [] else c.payload)
      && (forall m :: 0 <= m <= |plan.segs| ==> Receive(plan.segs[..m]).delivered <= c.payload)
      && (plan.drop && !Blocked(ops, c, policy) ==>
            Joinable(plan.segs, |c.payload|) && Joined(plan.segs, |c.payload|) == c.payload)
      && (!plan.drop || Blocked(ops, c, policy) ==> plan.segs == [])
  {
    ChainDelivers(ops, c, policy);
    ListPlans(ops, c, policy);
    PayloadMeaning(ops, c, policy, Untouched);
    assert Receive([]).delivered == [];
  }

  lemma StepSameLength(c: Ctx, co: CompiledOp, policy: Policy, v: Wire)
    requires c.caps.inject && (v.Stream? ==> |v.bytes| == |c.payload|)
    ensures var w := StepMeaning(c, co, policy, v); w.Stream? ==> |w.bytes| == |c.payload|
  {
  }

  lemma {:induction false} SameLength(ops: seq<CompiledOp>, c: Ctx, policy: Policy, v: Wire)
    requires c.caps.inject && (v.Stream? ==> |v.bytes| == |c.payload|)
    ensures var r := ChainMeaning(ops, c, policy, v); r.Stream? ==> |r.bytes| == |c.payload|
    decreases |ops|
  {
    if |ops| > 0 {
      StepSameLength(c, ops[0], policy, v);
      SameLength(ops[1..], c, policy, StepMeaning(c, ops[0], policy, v));
    }
  }

  /** Every data segment of a reassembled plan ends inside the stream, the last one at its end. */
  lemma JoinableEnds(segs: seq<Seg>, want: int)
    requires Joinable(segs, want) && HasData(segs)
    ensures exists i :: 0 <= i < |segs| && IsData(segs[i]) && segs[i].End() == want
    ensures forall i :: 0 <= i < |segs| && IsData(segs[i]) ==> segs[i].End() <= want
  {
    var idx := DataIdx(segs);
    var i :| 0 <= i < |segs| && IsData(segs[i]);
    assert i in idx;
    assert idx[|idx| - 1] in idx;
    assert segs[idx[|idx| - 1]].End() == want;
    forall j | 0 <= j < |segs| && IsData(segs[j]) ensures segs[j].End() <= want {
      var k :| 0 <= k < |idx| && idx[k] == j;
      assert SpanFits(segs, idx, k, want);
    }
  }

  /** Main result: at packet level no op list changes the number of stream bytes,
      tamper and tlsrec included, unless it blocks the packet: the last real segment
      of a plan ends exactly where the client's own TCP believes its data ends, and no
      segment passes it. */
  lemma SequenceSpaceConserved(ops: seq<CompiledOp>, c: Ctx, policy: Policy)
    requires TcpData(c) && c.caps.inject && Run(ops, c, policy).Some?
    ensures var plan := Run(ops, c, policy).value;
      && |ServerStream(plan, c.payload)| == (if Blocked(ops, c, policy) then 0 else |c.payload|)
      && (plan.segs != [] ==>
            && Joinable(plan.segs, |c.payload|)
            && (exists i :: 0 <= i < |plan.segs| && IsData(plan.segs[i]) && plan.segs[i].End() == |c.payload|)
            && (forall i :: 0 <= i < |plan.segs| && IsData(plan.segs[i]) ==> plan.segs[i].End() <= |c.payload|))
  {
    ChainDelivers(ops, c, policy);
    ListPlans(ops, c, policy);
    SameLength(ops, c, policy, Untouched);
    var plan := Run(ops, c, policy).value;
    if plan.segs != [] {
      JoinableEnds(plan.segs, |c.payload|);
    }
  }

  // ---------- when a rewrite reaches the server ----------

  /** The loader sorts every list by phase. */
  function Phase(op: Op): nat {
    match op
    case SynData(_) => 0
    case Fake(_) => 1
    case RstInject(_) => 1
    case Block => 1
    case Multisplit => 2
    case Multidisorder => 2
    case Fakedsplit => 2
    case Fakeddisorder => 2
    case Hostfakesplit => 2
    case _ => 3
  }

  predicate PhaseOrdered(ops: seq<CompiledOp>) {
    forall i, j :: 0 <= i < j < |ops| ==> Phase(ops[i].op) <= Phase(ops[j].op)
  }

  /** Only splits, rewrites and blocks change what is carried. */
  lemma {:induction false} ChainKeepsBytes(ops: seq<CompiledOp>, c: Ctx, policy: Policy, v: Wire)
    requires v.Stream? && NoRewrite(ops) && forall i :: 0 <= i < |ops| ==> Phase(ops[i].op) == 3
    ensures ChainMeaning(ops, c, policy, v) == v
    decreases |ops|
  {
    if |ops| > 0 {
      assert StepMeaning(c, ops[0], policy, v) == v;
      ChainKeepsBytes(ops[1..], c, policy, v);
    }
  }

  lemma {:induction false} ChainSplits(ops: seq<CompiledOp>, k: nat, c: Ctx, policy: Policy, v: Wire)
    requires k <= |ops|
    ensures ChainMeaning(ops, c, policy, v) == ChainMeaning(ops[k..], c, policy, ChainMeaning(ops[..k], c, policy, v))
    decreases |ops|
  {
    if k > 0 {
      assert ops[..k][1..] == ops[1..][..k - 1] && ops[1..][k - 1..] == ops[k..];
      ChainSplits(ops[1..], k - 1, c, policy, StepMeaning(c, ops[0], policy, v));
    } else {
      assert ops[..0] == [] && ops[0..] == ops;
    }
  }

  /** The rewriter's own gate: over planned bytes the length must stay, both against
      them and against the payload; with nothing planned only a transport that owns
      the stream may change it. */
  predicate RewritePasses(c: Ctx, planned: bool, bytes: Bytes, out: Bytes) {
    if planned then |bytes| == |c.payload| && |out| == |bytes| else LengthAllowed(c, |c.payload|, |out|)
  }

  /** What tamper works on: the planned bytes, else the payload. */
  function TamperInput(v: Wire, payload: Bytes): Bytes { if v.Stream? then v.bytes else payload }

  lemma TamperStep(t: CompiledOp, c: Ctx, policy: Policy, v: Wire)
    requires t.op == Tamper && Applied(c, t) && Knobs(t.params) != TamperOpts({}, 0)
    ensures var bytes := TamperInput(v, c.payload);
      var out := c.tamperHost(bytes, Knobs(t.params));
      StepMeaning(c, t, policy, v) == if RewritePasses(c, v.Stream?, bytes, out) then Stream(out) else v
  {
    assert Knobs(For(c, t).params) == Knobs(t.params);
  }

  /** What ops behind the splits make of a stream when they do not rewrite it. */
  lemma TailBytes(ops: seq<CompiledOp>, c: Ctx, policy: Policy, v: Wire)
    requires NoRewrite(ops) && forall i :: 0 <= i < |ops| ==> Phase(ops[i].op) == 3
    ensures WireBytes(ChainMeaning(ops, c, policy, v), c.payload) ==
      if v.Dropped? && Any(ops, c, SegmentPlanner(policy)) then c.payload else WireBytes(v, c.payload)
  {
    if v.Stream? {
      ChainKeepsBytes(ops, c, policy, v);
    } else {
      ChainPlans(ops, c, policy, v);
      PayloadMeaning(ops, c, policy, v);
    }
  }

  /** The ops between the k-th and the m-th one. */
  function Between(ops: seq<CompiledOp>, k: nat, m: nat): seq<CompiledOp>
    requires k < m <= |ops|
  {
    ops[k + 1..m]
  }

  /** Main result: in a list in phase order, the bytes tamper makes of what it works on
      are carried up to the next rewriter, or to the server, exactly when the gate lets
      them pass. Otherwise what was carried before it is: those bytes, or nothing, if
      the packet was blocked and nothing behind tamper plans a segment. "Planned" means
      that some op in front of tamper, behind the last block, plans a segment. */
  lemma RewriteReachesExactly(ops: seq<CompiledOp>, k: nat, m: nat, c: Ctx, policy: Policy)
    requires PhaseOrdered(ops) && k < m <= |ops| && NoRewrite(Between(ops, k, m))
    requires ops[k].op == Tamper && Applied(c, ops[k]) && Knobs(ops[k].params) != TamperOpts({}, 0)
    ensures var bytes := TamperInput(ChainMeaning(ops[..k], c, policy, Untouched), c.payload);
      var out := c.tamperHost(bytes, Knobs(ops[k].params));
      var carried :=
        if RewritePasses(c, Any(AfterBlock(ops[..k], c), c, SegmentPlanner(policy)), bytes, out) then out
        else if Blocked(ops[..k], c, policy) && !Any(Between(ops, k, m), c, SegmentPlanner(policy)) then []
        else bytes;
      && WireBytes(ChainMeaning(ops[..m], c, policy, Untouched), c.payload) == carried
      && (m == |ops| && TcpData(c) && Run(ops, c, policy).Some? ==>
            ServerStream(Run(ops, c, policy).value, c.payload) == carried)
  {
    var v, post := ChainMeaning(ops[..k], c, policy, Untouched), Between(ops, k, m);
    ListPlans(ops[..k], c, policy);
    TamperStep(ops[k], c, policy, v);
    PrefixMeaning(ops, k, m, c, policy);
    forall i | 0 <= i < |post| ensures Phase(post[i].op) == 3 {
      assert Phase(ops[k].op) <= Phase(ops[k + 1 + i].op);
    }
    TailBytes(post, c, policy, StepMeaning(c, ops[k], policy, v));
    if m == |ops| && TcpData(c) && Run(ops, c, policy).Some? {
      assert ops[..m] == ops;
      ChainDelivers(ops, c, policy);
    }
  }

  lemma PrefixMeaning(ops: seq<CompiledOp>, k: nat, m: nat, c: Ctx, policy: Policy)
    requires k < m <= |ops|
    ensures ChainMeaning(ops[..m], c, policy, Untouched) ==
      ChainMeaning(Between(ops, k, m), c, policy, StepMeaning(c, ops[k], policy, ChainMeaning(ops[..k], c, policy, Untouched)))
  {
    ChainSplits(ops[..m], k, c, policy, Untouched);
    assert ops[..m][..k] == ops[..k] && ops[..m][k..][0] == ops[k] && ops[..m][k..][1..] == Between(ops, k, m);
  }

  /** A two-op list delivers the second op's meaning of the first's. */
  lemma TwoSteps(x: CompiledOp, y: CompiledOp, c: Ctx, policy: Policy, v: Wire)
    requires TcpData(c) && Run([x, y], c, policy).Some?
    requires v == StepMeaning(c, y, policy, StepMeaning(c, x, policy, Untouched))
    ensures ServerStream(Run([x, y], c, policy).value, c.payload) == WireBytes(v, c.payload)
  {
    var u := StepMeaning(c, x, policy, Untouched);
    assert [x, y][1..] == [y] && [y][1..] == [];
    assert ChainMeaning([y], c, policy, u) == ChainMeaning([], c, policy, v) == v;
    ChainDelivers([x, y], c, policy);
  }

  /** A split that fires sends the payload, whatever was planned. */
  lemma SplitStep(s: CompiledOp, c: Ctx, policy: Policy, v: Wire)
    requires Phase(s.op) == 2 && PlansSegment(c, policy, s)
    ensures StepMeaning(c, s, policy, v) == Stream(c.payload)
  {
  }

  /** Beside a split that fires, the order decides for a rewrite that keeps the length:
      in front of the split (an order the loader never makes) it is lost, behind it it
      reaches the server. One that changes the length is lost in either order, on a
      stream relay too. */
  lemma RewriteOrderMatters(t: CompiledOp, s: CompiledOp, c: Ctx, policy: Policy)
    requires TcpData(c) && Run([t, s], c, policy).Some? && Run([s, t], c, policy).Some?
    requires t.op == Tamper && Applied(c, t) && Knobs(t.params) != TamperOpts({}, 0)
    requires Phase(s.op) == 2 && PlansSegment(c, policy, s)
    ensures var out := c.tamperHost(c.payload, Knobs(t.params));
      && ServerStream(Run([t, s], c, policy).value, c.payload) == c.payload
      && ServerStream(Run([s, t], c, policy).value, c.payload) == if |out| == |c.payload| then out else c.payload
  {
    TamperStep(t, c, policy, Stream(c.payload));
    SplitStep(s, c, policy, Untouched);
    SplitStep(s, c, policy, StepMeaning(c, t, policy, Untouched));
    TwoSteps(t, s, c, policy, Stream(c.payload));
    TwoSteps(s, t, c, policy, StepMeaning(c, t, policy, Stream(c.payload)));
  }

  lemma {:induction false} AlwaysRuns(ops: seq<CompiledOp>, c: Ctx, policy: Policy, st: PlanState)
    requires c.caps == FULL_CAPS
    ensures RunFrom(ops, c, policy, st).Some?
    decreases |ops|
  {
    if |ops| > 0 {
      AlwaysRuns(ops[1..], c, policy, Apply(ops[0].op, For(c, ops[0]), st));
    }
  }

  // ---------- the proxy transport ----------

  /** Only real bytes, consecutive, in stream order from offset 0. */
  predicate Consecutive(segs: seq<Seg>) {
    forall i :: 0 <= i < |segs| ==> InOrder(segs, i)
  }

  predicate InOrder(segs: seq<Seg>, i: int)
    requires 0 <= i < |segs|
  {
    IsData(segs[i]) && segs[i].seqOff == if i == 0 then 0 else segs[i - 1].End()
  }

  lemma {:induction false} ConsecutiveFrom(segs: seq<Seg>, i: int)
    requires Consecutive(segs) && 0 <= i < |segs|
    ensures segs[i].seqOff >= 0
    ensures forall j :: 0 <= j < i ==> segs[j].seqOff <= segs[i].seqOff
  {
    assert InOrder(segs, i);
    if i > 0 { ConsecutiveFrom(segs, i - 1); }
  }

  lemma ConsecutiveIdx(segs: seq<Seg>)
    requires Consecutive(segs)
    ensures DataIdx(segs) == Iota(|segs|)
  {
    var idx := Iota(|segs|);
    forall k, l | 0 <= k < l < |idx| ensures Before(segs, idx[k], idx[l]) {
      ConsecutiveFrom(segs, l);
    }
    forall i | 0 <= i < |segs| ensures i in idx <==> IsData(segs[i]) {
      assert InOrder(segs, i);
    }
    IdxUnique(segs, idx, DataIdx(segs));
  }

  lemma EditedPlace(segs: seq<Seg>, r: seq<Seg>, e: Edit, i: nat)
    requires Consecutive(segs) && Editable(segs, e) && IsEdited(segs, r, e)
    requires DataIdx(segs) == Iota(|segs|) && i < |segs|
    ensures IsData(r[i]) && r[i].seqOff == e.Moved(segs[i].seqOff) && r[i].End() == e.Moved(segs[i].End())
  {
    assert Edited(segs, r, e, i);
    assert InOrder(segs, i);
  }

  lemma EditedConsecutive(segs: seq<Seg>, r: seq<Seg>, e: Edit)
    requires Consecutive(segs) && Editable(segs, e) && IsEdited(segs, r, e)
    requires DataIdx(segs) == Iota(|segs|)
    ensures Consecutive(r)
  {
    forall i | 0 <= i < |r| ensures InOrder(r, i) {
      EditedPlace(segs, r, e, i);
      assert InOrder(segs, i);
      if i > 0 { EditedPlace(segs, r, e, i - 1); }
    }
  }

  lemma ConsecutiveRewrite(segs: seq<Seg>, e: Edit)
    requires Consecutive(segs) && Editable(segs, e)
    ensures Consecutive(Rewritten(segs, e))
  {
    ConsecutiveIdx(segs);
    RewrittenIsEdited(segs, e);
    EditedConsecutive(segs, Rewritten(segs, e), e);
  }

  lemma ConsecutiveParts(c: Ctx, pos: seq<int>, disorder: bool, segs: seq<Seg>)
    requires Cuts(pos, |c.payload|) && |pos| > 0 && MultiSegs(c, pos, disorder) == Some(segs) && !c.caps.seqNo
    ensures Consecutive(segs) && Consecutive(segs[0 := segs[0].(ttl := 1)])
  {
    var b, marked := Bounds(c, pos), segs[0 := segs[0].(ttl := 1)];
    forall i | 0 <= i < |segs| ensures InOrder(segs, i) && InOrder(marked, i) {
      PartIs(c, pos, disorder, segs, i);
      if i > 0 { PartIs(c, pos, disorder, segs, i - 1); }
    }
  }

  lemma ConsecutiveNoInjected(st: PlanState, segs: seq<Seg>)
    requires Consecutive(st.segs) && Consecutive(segs)
    ensures Consecutive(TakeOver(st, segs).segs)
  {
    AllDataGone(st.segs);
    assert NonData(st.segs) + segs == segs;
  }

  lemma {:induction false} AllDataGone(segs: seq<Seg>)
    requires Consecutive(segs)
    ensures NonData(segs) == []
    decreases |segs|
  {
    if |segs| > 0 {
      assert InOrder(segs, |segs| - 1);
      var r := segs[..|segs| - 1];
      forall i | 0 <= i < |r| ensures InOrder(r, i) { assert InOrder(segs, i); }
      AllDataGone(r);
    }
  }

  lemma ProxyMultisplit(c: Ctx, st: PlanState)
    requires Consecutive(st.segs) && !c.caps.seqNo
    ensures Consecutive(MultiOp(c, false, st).segs)
  {
    var pos := MultiPos(c, SplitSpecs(c.params));
    if |pos| > 0 {
      var segs := MultiSegs(c, pos, false).value;
      ConsecutiveParts(c, pos, false, segs);
      ConsecutiveNoInjected(st, segs);
    }
  }

  lemma ProxyMultiDegrade(c: Ctx, disorder: bool, st: PlanState)
    requires Consecutive(st.segs)
    ensures Consecutive(MultiDegrade(c, disorder, st).segs)
  {
    var pos, d := MultiPos(c, SplitSpecs(c.params)), WithoutSeq(c);
    if |pos| > 0 {
      ConsecutiveParts(d, pos, disorder, MultiSegs(d, pos, disorder).value);
    }
  }

  lemma ProxyTamper(c: Ctx, st: PlanState)
    requires Consecutive(st.segs)
    ensures Consecutive(TamperOp(c, st).segs)
  {
    var n := |c.payload|;
    if |st.segs| > 0 { assert InOrder(st.segs, 0); }
    if HasData(st.segs) && Joinable(st.segs, n) {
      var out := c.tamperHost(Joined(st.segs, n), Knobs(c.params));
      if |out| == n { ConsecutiveRewrite(st.segs, Edit(n, out, 0, 0)); }
    }
  }

  lemma ProxyTlsRec(c: Ctx, st: PlanState)
    requires Consecutive(st.segs)
    ensures Consecutive(TlsRecOp(c, st).segs)
  {
    var n, pos := |c.payload|, FindSplitPos(c.payload, c.info, TlsRecSpec(c.params));
    if |st.segs| > 0 { assert InOrder(st.segs, 0); }
    if HasData(st.segs) && Joinable(st.segs, n) && 0 < pos < n && TLSRecordSplit(c.payload, pos).Some? {
      var rec := TLSRecordSplit(c.payload, pos).value;
      ConsecutiveRewrite(st.segs, Edit(n, rec, pos, |rec| - n));
    }
  }

  lemma ProxyHost(c: Ctx, st: PlanState)
    requires Consecutive(st.segs)
    ensures Consecutive(HostfakesplitDegrade(c, st).segs)
  {
    var pos := MultiPos(c, HOST_SPECS);
    if |pos| == 2 {
      assert pos[0] < pos[1];
      var segs := HostfakesplitDegrade(c, st).segs;
      forall i | 0 <= i < |segs| ensures InOrder(segs, i) {}
    }
  }

  lemma ProxyDegrade(op: Op, c: Ctx, st: PlanState)
    requires Consecutive(st.segs)
    ensures Consecutive(Degrade(op, c, st).segs) && Degrade(op, c, st).dgrams == st.dgrams
  {
    match op {
      case Multisplit => ProxyMultiDegrade(c, false, st);
      case Multidisorder => ProxyMultiDegrade(c, true, st);
      case Hostfakesplit => ProxyHost(c, st);
      case _ =>
    }
  }

  lemma ProxyStep(c: Ctx, co: CompiledOp, policy: Policy, st: PlanState)
    requires c.caps == PROXY_CAPS && Consecutive(st.segs) && st.dgrams == []
    ensures var r := Step(c, co, policy, st); r.Some? ==> Consecutive(r.value.segs) && r.value.dgrams == []
  {
    var d := For(c, co);
    if Applied(c, co) {
      match co.op {
        case Multisplit => ProxyMultisplit(d, st);
        case Tamper => ProxyTamper(d, st);
        case TlsRec => ProxyTlsRec(d, st);
        case Block =>
      }
    } else {
      ProxyDegrade(co.op, d, st);
    }
  }

  lemma {:induction false} ProxyRun(ops: seq<CompiledOp>, c: Ctx, policy: Policy, st: PlanState)
    requires c.caps == PROXY_CAPS && Consecutive(st.segs) && st.dgrams == []
    ensures var r := RunFrom(ops, c, policy, st); r.Some? ==> Consecutive(r.value.segs) && r.value.dgrams == []
    decreases |ops|
  {
    if |ops| > 0 {
      ProxyStep(c, ops[0], policy, st);
      match Step(c, ops[0], policy, st) {
        case None =>
        case Some(st') => ProxyRun(ops[1..], c, policy, st');
      }
    }
  }

  /** Main result: behind a stream relay every plan, for every op list and policy
      (block, tamper and tlsrec included), is a list of pure byte ranges: real
      bytes only, consecutive, ascending, from offset 0 on, no datagrams. */
  lemma ProxyContract(ops: seq<CompiledOp>, c: Ctx, policy: Policy)
    requires c.caps == PROXY_CAPS && Run(ops, c, policy).Some?
    ensures var plan := Run(ops, c, policy).value;
      && plan.dgrams == []
      && (forall i :: 0 <= i < |plan.segs| ==> InOrder(plan.segs, i) && plan.segs[i].seqOff >= 0)
  {
    ProxyRun(ops, c, policy, EMPTY_PLAN);
    var plan := Run(ops, c, policy).value;
    forall i | 0 <= i < |plan.segs| ensures InOrder(plan.segs, i) && plan.segs[i].seqOff >= 0 {
      ConsecutiveFrom(plan.segs, i);
    }
  }
}
