/** autottl: the decoy TTL derived from the hop count of an inbound packet, with
    its one-byte arithmetic written out. */
module AutoTTL {
  import opened Types

  /** Conversion to an unsigned byte. */
  function U8(x: int): (r: int)
    ensures 0 <= r < 256
    ensures 0 <= x < 256 ==> r == x
  {
    x % 256
  }

  /** A usual initial TTL. */
  predicate InitialTTL(v: int) { v == 64 || v == 128 || v == 255 }

  /** Hop count from an observed TTL, assuming the nearest usual initial value. */
  function HopsFromTTL(ttl: int): (hops: int)
    requires 0 <= ttl < 256
    ensures 0 <= hops <= 126
    ensures if ttl == 0 then hops == 0
      else InitialTTL(ttl + hops) && forall v :: InitialTTL(v) && v >= ttl ==> ttl + hops <= v
  {
    if ttl == 0 then 0
    else if ttl <= 64 then 64 - ttl
    else if ttl <= 128 then 128 - ttl
    else 255 - ttl
  }

  function EffectiveMin(p: OpParams): int { if p.ttlMin == 0 then 3 else p.ttlMin }

  function EffectiveMax(p: OpParams): int { if p.ttlMax == 0 then 20 else p.ttlMax }

  function ClampTTL(v: int, p: OpParams): int {
    if v < EffectiveMin(p) then EffectiveMin(p)
    else if v > EffectiveMax(p) then EffectiveMax(p)
    else v
  }

  /** Resolves an autottl spec into a concrete TTL. */
  function ResolveTTL(p: OpParams, hops: int): OpParams {
    if !p.ttlAuto then p
    else if hops == 0 then p.(ttl := ClampTTL(U8(p.ttlMin + U8(p.ttlMax - p.ttlMin) / 2), p))
    else p.(ttl := ClampTTL(U8(if hops + p.ttlDelta > 1 then hops + p.ttlDelta else 1), p))
  }

  predicate ByteParams(p: OpParams) {
    0 <= p.ttlMin < 256 && 0 <= p.ttlMax < 256 && -128 <= p.ttlDelta < 128
  }

  /** The middle of the configured bounds in one-byte arithmetic; it wraps around when
      they are out of order (a missing maximum counts as 0). */
  function Middle(lo: int, hi: int): int {
    if lo <= hi then (lo + hi) / 2 else (lo + (0x100 + hi - lo) / 2) % 0x100
  }

  /** The TTL an op asks for: the configured one, or, with autottl, hops plus delta (the
      middle of the bounds while no hops are known) moved into the bounds in force. */
  predicate Asks(p: OpParams, hops: int, ttl: int) {
    if !p.ttlAuto then ttl == p.ttl
    else
      var v := if hops != 0 then hops + p.ttlDelta else Middle(p.ttlMin, p.ttlMax);
      var lo, hi := if p.ttlMin == 0 then 3 else p.ttlMin, if p.ttlMax == 0 then 20 else p.ttlMax;
      if v < lo then ttl == lo else if v > hi then ttl == hi else ttl == v
  }

  /** Hops only ever come from HopsFromTTL. Then the one-byte conversion loses nothing
      for any delta; a resolved TTL is never 0 (which would mean "leave the real TTL"),
      and resolving changes nothing but the TTL, and that only with autottl. */
  lemma AutoTTLExact(p: OpParams, observed: int)
    requires ByteParams(p) && 0 <= observed < 256
    ensures var hops := HopsFromTTL(observed);
      var r := ResolveTTL(p, hops);
      && r == p.(ttl := r.ttl) && Asks(p, hops, r.ttl) && (p.ttlAuto ==> 0 < r.ttl < 256)
  {
    var hops := HopsFromTTL(observed);
    if hops != 0 {
      var v := if hops + p.ttlDelta > 1 then hops + p.ttlDelta else 1;
      assert 1 <= v <= 253 && U8(v) == v;
    } else if p.ttlMin <= p.ttlMax {
      assert U8(p.ttlMax - p.ttlMin) == p.ttlMax - p.ttlMin;
    } else {
      assert U8(p.ttlMax - p.ttlMin) == 0x100 + p.ttlMax - p.ttlMin;
    }
  }
}
