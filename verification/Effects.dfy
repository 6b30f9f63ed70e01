/** A whole run, op by op, stated without the functions that compute it. */
module Effects {
  import opened Types
  import opened AutoTTL
  import opened Ops
  import opened Chains
  import opened Policies
  import opened Transmission
  import opened Marks
  import opened Editing

  /** What an op the transport honours does to the plan. */
  ghost predicate OpLeaves(op: Op, c: Ctx, before: PlanState, after: PlanState) {
    match op
    case SynData(data) => SynDataLeaves(c, data, before, after)
    case Fake(knownOnly) => FakeLeaves(c, knownOnly, before, after)
    case RstInject(ack) => exists at: nat :: RstLeaves(c, ack, before, after, at)
    case Block => after.segs == [] && after.dgrams == [] && after.drop
    case Multisplit => SplitLeaves(c, false, before, after)
    case Multidisorder => SplitLeaves(c, true, before, after)
    case Fakedsplit => FakedsplitLeaves(c, before, after)
    case Fakeddisorder => FakeddisorderLeaves(c, before, after)
    case Hostfakesplit => HostfakesplitLeaves(c, before, after)
    case Tamper => TamperLeaves(c, before, after)
    case TlsRec => exists cut: nat, out: Bytes :: TlsRecLeaves(c, before, after, cut, out)
    case WsSize => WsSizeLeaves(c, before, after)
    case IpId => IpIdLeaves(c, before, after)
    case IpFrag1 => IpFrag1Leaves(c, before, after)
    case IpFrag2 => IpFrag2Leaves(c, before, after)
    case Ipv6Ext(_) => Ipv6ExtLeaves(c, before, after)
    case UdpLen => exists at: nat :: UdpLenLeaves(c, before, after, at)
  }

  /** What the fallback does; ops without one do nothing. */
  ghost predicate FallbackLeaves(op: Op, c: Ctx, before: PlanState, after: PlanState) {
    match op
    case Multisplit => RelaySplitLeaves(c, false, before, after)
    case Multidisorder => RelaySplitLeaves(c, true, before, after)
    case Fakedsplit => FakedRelayLeaves(c, before, after)
    case Fakeddisorder => FakedRelayLeaves(c, before, after)
    case Hostfakesplit => exists mid: nat :: HostRelayLeaves(c, before, after, mid)
    case _ => after == before
  }

  lemma ApplyLeaves(op: Op, c: Ctx, st: PlanState)
    ensures OpLeaves(op, c, st, Apply(op, c, st))
  {
    match op {
      case SynData(data) => SynDataMarks(c, data, st);
      case Fake(knownOnly) => FakeTransmits(c, knownOnly, st);
      case RstInject(ack) => var _ := RstMarks(c, ack, st);
      case Block =>
      case Multisplit => MultiLeaves(c, false, st);
      case Multidisorder => MultiLeaves(c, true, st);
      case Fakedsplit => FakedsplitTransmits(c, st);
      case Fakeddisorder => FakeddisorderTransmits(c, st);
      case Hostfakesplit => HostfakesplitTransmits(c, st);
      case Tamper => TamperEdits(c, st);
      case TlsRec => var _, _ := TlsRecEdits(c, st);
      case WsSize => WsSizeMarks(c, st);
      case IpId => IpIdMarks(c, st);
      case IpFrag1 => IpFrag1Marks(c, st);
      case IpFrag2 => IpFrag2Marks(c, st);
      case Ipv6Ext(_) => Ipv6ExtMarks(c, st);
      case UdpLen => var _ := UdpLenMarks(c, st);
    }
  }

  lemma DegradeLeaves(op: Op, c: Ctx, st: PlanState)
    ensures FallbackLeaves(op, c, st, Degrade(op, c, st))
  {
    match op {
      case Multisplit => MultiDegradeLeaves(c, false, st);
      case Multidisorder => MultiDegradeLeaves(c, true, st);
      case Fakedsplit => FakedDegradeTransmits(c, st);
      case Fakeddisorder => FakedDegradeTransmits(c, st);
      case Hostfakesplit => var _ := HostDegradeTransmits(c, st);
      case _ =>
    }
  }

  /** The packet as one op sees it: with the op's own parameters, and the TTL it asks for. */
  ghost predicate SeenBy(c: Ctx, co: CompiledOp, d: Ctx) {
    d == c.(params := co.params.(ttl := d.params.ttl)) && Asks(co.params, c.flow.hops, d.params.ttl)
  }

  /** One op of the list: done if the transport honours it, else skipped or approximated. */
  ghost predicate StepLeaves(c: Ctx, co: CompiledOp, policy: Policy, before: PlanState, after: PlanState) {
    exists d :: SeenBy(c, co, d) &&
      if Honoured(c.caps, co.op) then OpLeaves(co.op, d, before, after)
      else if policy.SkipIt? then after == before
      else policy.DegradeIt? && FallbackLeaves(co.op, d, before, after)
  }

  lemma StepIs(c: Ctx, co: CompiledOp, policy: Policy, st: PlanState, observed: int)
    requires ByteParams(co.params) && 0 <= observed < 256 && c.flow.hops == HopsFromTTL(observed)
    requires Step(c, co, policy, st).Some?
    ensures StepLeaves(c, co, policy, st, Step(c, co, policy, st).value)
  {
    var d := For(c, co);
    AutoTTLExact(co.params, observed);
    HonouredIs(c, co);
    assert SeenBy(c, co, d);
    if Honoured(c.caps, co.op) {
      ApplyLeaves(co.op, d, st);
    } else {
      DegradeLeaves(co.op, d, st);
    }
  }

  /** The plans between the ops of a run, from the empty one on. */
  ghost predicate Chained(ops: seq<CompiledOp>, c: Ctx, policy: Policy, plans: seq<PlanState>) {
    |plans| == |ops| + 1 && forall i :: 0 <= i < |ops| ==> StepLeaves(c, ops[i], policy, plans[i], plans[i + 1])
  }

  lemma {:induction false} RunChained(ops: seq<CompiledOp>, c: Ctx, policy: Policy, st: PlanState, observed: int)
      returns (plans: seq<PlanState>)
    requires forall i :: 0 <= i < |ops| ==> ByteParams(ops[i].params)
    requires 0 <= observed < 256 && c.flow.hops == HopsFromTTL(observed)
    requires RunFrom(ops, c, policy, st).Some?
    ensures Chained(ops, c, policy, plans) && plans[0] == st && plans[|ops|] == RunFrom(ops, c, policy, st).value
    decreases |ops|
  {
    plans := [st];
    if |ops| > 0 {
      StepIs(c, ops[0], policy, st, observed);
      var next := Step(c, ops[0], policy, st).value;
      var rest := RunChained(ops[1..], c, policy, next, observed);
      plans := [st] + rest;
      forall i | 0 <= i < |ops| ensures StepLeaves(c, ops[i], policy, plans[i], plans[i + 1]) {
        if i > 0 { assert StepLeaves(c, ops[1..][i - 1], policy, rest[i - 1], rest[i]); }
      }
    }
  }

  /** Main result: every run that does not fail starts from an empty plan, takes the ops in
      list order, and each leaves exactly what it is for: the segments, decoys, marks and
      edits above, the fallback's parts, or, skipped, nothing. A plan that sends anything
      replaces the original. */
  lemma RunLeaves(ops: seq<CompiledOp>, c: Ctx, policy: Policy, observed: int) returns (plans: seq<PlanState>)
    requires forall i :: 0 <= i < |ops| ==> ByteParams(ops[i].params)
    requires 0 <= observed < 256 && c.flow.hops == HopsFromTTL(observed) && Run(ops, c, policy).Some?
    ensures Chained(ops, c, policy, plans) && plans[0] == PlanState([], [], false)
    ensures var last, plan := plans[|ops|], Run(ops, c, policy).value;
      plan == last.(drop := last.drop || last.segs != [] || last.dgrams != [])
  {
    plans := RunChained(ops, c, policy, EMPTY_PLAN, observed);
  }
}
