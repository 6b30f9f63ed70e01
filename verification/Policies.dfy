/** What a run does with the ops its transport cannot honour: it fails on the first,
    passes them over, or falls back. */
module Policies {
  import opened Types
  import opened AutoTTL
  import opened Ops
  import opened Chains

  /** The transport has everything the op needs. */
  predicate Honoured(have: Caps, op: Op) {
    match op
    case SynData(_) => have.inject && have.dropOriginal
    case Fake(_) => have.inject && have.perPacketTTL && have.fooling
    case RstInject(_) => have.inject && have.perPacketTTL && have.fooling
    case Block => have.dropOriginal
    case Multisplit => have.segment && have.dropOriginal
    case Multidisorder => have.segment && have.dropOriginal && have.seqNo
    case Fakedsplit => have.inject && have.seqNo && have.dropOriginal
    case Fakeddisorder => have.inject && have.seqNo && have.dropOriginal
    case Hostfakesplit => have.inject && have.seqNo && have.dropOriginal
    case Tamper => have.segment
    case TlsRec => have.tlsRec
    case WsSize => have.fooling
    case IpId => have.ipid
    case IpFrag1 => have.ipv6ExtHdr && have.frag && have.dropOriginal
    case IpFrag2 => have.frag && have.dropOriginal
    case Ipv6Ext(_) => have.ipv6ExtHdr && have.dropOriginal
    case UdpLen => have.udp && have.dropOriginal
  }

  lemma HonouredIs(c: Ctx, co: CompiledOp)
    ensures Honoured(c.caps, co.op) <==> Applied(c, co)
  {
    match co.op {
      case _ =>
    }
  }

  predicate AllHonoured(ops: seq<CompiledOp>, have: Caps) {
    forall i :: 0 <= i < |ops| ==> Honoured(have, ops[i].op)
  }

  /** The ops that have a socket-level approximation. */
  predicate HasFallback(op: Op) {
    op.Multisplit? || op.Multidisorder? || op.Fakedsplit? || op.Fakeddisorder? || op.Hostfakesplit?
  }

  /** The list without the ops that can be neither honoured nor, if `fallBack`, approximated. */
  function Effective(ops: seq<CompiledOp>, have: Caps, fallBack: bool): seq<CompiledOp> {
    if |ops| == 0 then []
    else
      (if Honoured(have, ops[0].op) || (fallBack && HasFallback(ops[0].op)) then [ops[0]] else [])
      + Effective(ops[1..], have, fallBack)
  }

  lemma {:induction false} ErrorsFrom(ops: seq<CompiledOp>, c: Ctx, policy: Policy, st: PlanState)
    ensures RunFrom(ops, c, policy, st).None? <==> policy == FailIt && !AllHonoured(ops, c.caps)
    decreases |ops|
  {
    if |ops| > 0 {
      HonouredIs(c, ops[0]);
      assert AllHonoured(ops, c.caps) <==> Honoured(c.caps, ops[0].op) && AllHonoured(ops[1..], c.caps) by {
        forall i | 1 <= i < |ops| ensures ops[i] == ops[1..][i - 1] {}
      }
      match Step(c, ops[0], policy, st) {
        case None =>
        case Some(st') => ErrorsFrom(ops[1..], c, policy, st');
      }
    }
  }

  /** A run ends in an error exactly under the error policy with some op the transport
      lacks a capability for; a packet's own bytes never make it fail. */
  lemma ErrorsExactly(ops: seq<CompiledOp>, c: Ctx, policy: Policy)
    ensures Run(ops, c, policy).None? <==>
      policy == FailIt && exists i :: 0 <= i < |ops| && !Honoured(c.caps, ops[i].op)
  {
    ErrorsFrom(ops, c, policy, EMPTY_PLAN);
  }

  lemma {:induction false} HonouredFrom(ops: seq<CompiledOp>, c: Ctx, p: Policy, q: Policy, st: PlanState)
    requires AllHonoured(ops, c.caps)
    ensures RunFrom(ops, c, p, st) == RunFrom(ops, c, q, st)
    decreases |ops|
  {
    if |ops| > 0 {
      HonouredIs(c, ops[0]);
      HonouredFrom(ops[1..], c, p, q, Apply(ops[0].op, For(c, ops[0]), st));
    }
  }

  /** The policy only matters where a capability is missing. */
  lemma PolicyIrrelevant(ops: seq<CompiledOp>, c: Ctx, p: Policy, q: Policy)
    requires AllHonoured(ops, c.caps)
    ensures Run(ops, c, p) == Run(ops, c, q)
  {
    HonouredFrom(ops, c, p, q, EMPTY_PLAN);
  }

  lemma {:induction false} AbsentFrom(ops: seq<CompiledOp>, c: Ctx, policy: Policy, st: PlanState)
    requires policy != FailIt
    ensures RunFrom(ops, c, policy, st) == RunFrom(Effective(ops, c.caps, policy == DegradeIt), c, policy, st)
    decreases |ops|
  {
    if |ops| > 0 {
      HonouredIs(c, ops[0]);
      var st', rest := Step(c, ops[0], policy, st).value, Effective(ops[1..], c.caps, policy == DegradeIt);
      AbsentFrom(ops[1..], c, policy, st');
      assert ([ops[0]] + rest)[1..] == rest && [] + rest == rest;
    }
  }

  lemma {:induction false} EffectiveHonoured(ops: seq<CompiledOp>, have: Caps)
    ensures AllHonoured(Effective(ops, have, false), have)
    decreases |ops|
  {
    if |ops| > 0 {
      EffectiveHonoured(ops[1..], have);
    }
  }

  /** Skipping is absence: the plan is the one of the list without the ops the transport
      cannot honour, whatever the policy for that one. */
  lemma SkipIsAbsent(ops: seq<CompiledOp>, c: Ctx, other: Policy)
    ensures Run(ops, c, SkipIt) == Run(Effective(ops, c.caps, false), c, other)
  {
    AbsentFrom(ops, c, SkipIt, EMPTY_PLAN);
    EffectiveHonoured(ops, c.caps);
    PolicyIrrelevant(Effective(ops, c.caps, false), c, SkipIt, other);
  }

  /** Falling back is absence for every op but the five split ops. */
  lemma FallbackIsAbsentUnlessSplit(ops: seq<CompiledOp>, c: Ctx)
    ensures Run(ops, c, DegradeIt) == Run(Effective(ops, c.caps, true), c, DegradeIt)
  {
    AbsentFrom(ops, c, DegradeIt, EMPTY_PLAN);
  }
}
