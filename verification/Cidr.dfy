/** IP prefix sets: a slice sorted by (length, address), searched by two nested
    binary searches, behind a class that sorts lazily. */
module Cidr {
  import opened Types
  import opened Division

  function Pow2(n: nat): (p: nat)
    ensures p > 0
  {
    if n == 0 then 1 else 2 * Pow2(n - 1)
  }

  /** An address: 32 or 128 bits; a 128-bit one may name a zone. */
  datatype Addr = V4(value: nat) | V6(value: nat, zone: string) {
    function Width(): nat { if V4? then 32 else 128 }
    predicate Valid() { value < Pow2(Width()) }

    /** ::ffff:a.b.c.d */
    predicate Is4In6() { V6? && value / 0x1_0000_0000 == 0xFFFF }
    function Unmap(): Addr { if Is4In6() then V4(value % 0x1_0000_0000) else this }
  }

  /** A prefix as configured. */
  datatype Prefix = Prefix(addr: Addr, bits: int) {
    predicate Valid() { addr.Valid() && 0 <= bits <= addr.Width() }
  }

  /** A canonical prefix of a family of the given width: no host bits. */
  datatype Net = Net(len: nat, base: nat)

  predicate Canonical(width: nat, n: Net) {
    n.len <= width && n.base % Pow2(width - n.len) == 0
  }

  /** Zeroes the host bits. */
  function Mask(width: nat, len: nat, a: nat): nat
    requires len <= width
  {
    Product(Quotient(a, Pow2(width - len)), Pow2(width - len))
  }

  /** The address and the prefix agree on the prefix's leading bits. */
  predicate Contains(width: nat, n: Net, a: nat)
    requires n.len <= width
  {
    Quotient(a, Pow2(width - n.len)) == Quotient(n.base, Pow2(width - n.len))
  }

  lemma MaskIsCanonical(width: nat, len: nat, a: nat)
    requires len <= width
    ensures Canonical(width, Net(len, Mask(width, len, a)))
  {
    ProductDivides(Quotient(a, Pow2(width - len)), Pow2(width - len));
  }

  /** Masking and comparing is the membership test, for canonical prefixes. */
  lemma ContainsIsMask(width: nat, n: Net, a: nat)
    requires Canonical(width, n)
    ensures Contains(width, n, a) <==> Mask(width, n.len, a) == n.base
  {
    var p := Pow2(width - n.len);
    ProductDivides(Quotient(a, p), p);
    ProductOfQuotient(n.base, p);
  }

  // ---------- the sorted slice ----------

  predicate Less(m: Net, n: Net) { m.len < n.len || (m.len == n.len && m.base < n.base) }

  predicate Sorted(ps: seq<Net>) {
    forall i, j :: 0 <= i < j < |ps| ==> Less(ps[i], ps[j])
  }

  predicate AllCanonical(width: nat, ps: seq<Net>) {
    forall i :: 0 <= i < |ps| ==> Canonical(width, ps[i])
  }

  /** Inserts into a sorted slice, dropping a duplicate. */
  function InsertNet(ps: seq<Net>, n: Net): (r: seq<Net>)
    requires Sorted(ps)
    ensures Sorted(r)
    ensures forall m :: m in r <==> m == n || m in ps
  {
    if |ps| == 0 || Less(n, ps[0]) then [n] + ps
    else if n == ps[0] then ps
    else
      var rest := InsertNet(ps[1..], n);
      assert forall m :: m in ps <==> m == ps[0] || m in ps[1..];
      assert forall i :: 0 <= i < |rest| ==> rest[i] in rest;
      [ps[0]] + rest
  }

  /** Sorting and removing duplicates, as the library calls do it. */
  function SortNets(ps: seq<Net>): (r: seq<Net>)
    ensures Sorted(r)
    ensures forall m :: m in r <==> m in ps
  {
    if |ps| == 0 then [] else
      var r := InsertNet(SortNets(ps[1..]), ps[0]);
      assert forall m :: m in ps <==> m == ps[0] || m in ps[1..];
      r
  }

  /** Some prefix of the slice contains the address. */
  predicate Listed(width: nat, ps: seq<Net>, a: nat)
    requires AllCanonical(width, ps)
  {
    exists i :: 0 <= i < |ps| && Contains(width, ps[i], a)
  }

  method ContainsLinear(width: nat, ps: seq<Net>, a: nat) returns (found: bool)
    requires AllCanonical(width, ps)
    ensures found == Listed(width, ps, a)
  {
    for i := 0 to |ps|
      invariant forall j :: 0 <= j < i ==> !Contains(width, ps[j], a)
    {
      if Contains(width, ps[i], a) {
        return true;
      }
    }
    return false;
  }

  /** First index below hi whose prefix length is at least len. */
  method LowerBoundLen(ps: seq<Net>, hi: nat, len: nat) returns (lo: nat)
    requires Sorted(ps) && hi <= |ps|
    ensures lo <= hi
    ensures forall i :: 0 <= i < lo ==> ps[i].len < len
    ensures forall i :: lo <= i < hi ==> ps[i].len >= len
  {
    lo := 0;
    var end := hi;
    while lo < end
      invariant lo <= end <= hi
      invariant forall i :: 0 <= i < lo ==> ps[i].len < len
      invariant forall i :: end <= i < hi ==> ps[i].len >= len
    {
      var mid := (lo + end) / 2;
      if ps[mid].len < len {
        assert forall i :: 0 <= i < mid ==> Less(ps[i], ps[mid]);
        lo := mid + 1;
      } else {
        assert forall i :: mid < i < hi ==> Less(ps[mid], ps[i]);
        end := mid;
      }
    }
  }

  /** First index in [lo, hi), a run of one prefix length, with an address of at least want. */
  method LowerBoundAddr(ps: seq<Net>, lo: nat, hi: nat, want: nat) returns (at: nat)
    requires Sorted(ps) && lo <= hi <= |ps|
    requires forall i, j :: lo <= i < hi && lo <= j < hi ==> ps[i].len == ps[j].len
    ensures lo <= at <= hi
    ensures forall i :: lo <= i < at ==> ps[i].base < want
    ensures forall i :: at <= i < hi ==> ps[i].base >= want
  {
    at := lo;
    var end := hi;
    while at < end
      invariant lo <= at <= end <= hi
      invariant forall i :: lo <= i < at ==> ps[i].base < want
      invariant forall i :: end <= i < hi ==> ps[i].base >= want
    {
      var mid := (at + end) / 2;
      if ps[mid].base < want {
        assert forall i :: lo <= i < mid ==> Less(ps[i], ps[mid]);
        at := mid + 1;
      } else {
        assert forall i :: mid < i < hi ==> Less(ps[mid], ps[i]);
        end := mid;
      }
    }
  }

  predicate Decreasing(xs: seq<nat>) {
    forall i, j :: 0 <= i < j < |xs| ==> xs[i] > xs[j]
  }

  predicate IsLength(ps: seq<Net>, l: nat) { exists i :: 0 <= i < |ps| && ps[i].len == l }

  /** The search of one run missed, so no prefix of the run contains the address. */
  lemma RunMissed(width: nat, ps: seq<Net>, lo: nat, hi: nat, at: nat, a: nat, len: nat)
    requires Sorted(ps) && AllCanonical(width, ps) && lo <= at <= hi <= |ps| && len <= width
    requires forall i :: lo <= i < hi ==> ps[i].len == len
    requires forall i :: lo <= i < at ==> ps[i].base < Mask(width, len, a)
    requires forall i :: at <= i < hi ==> ps[i].base >= Mask(width, len, a)
    requires at < hi ==> ps[at].base != Mask(width, len, a)
    ensures forall i :: lo <= i < hi ==> !Contains(width, ps[i], a)
  {
    forall j | lo <= j < hi ensures !Contains(width, ps[j], a) {
      ContainsIsMask(width, ps[j], a);
      if at < j { assert Less(ps[at], ps[j]); }
    }
  }

  /** The run of the longest remaining length starts where that length first appears. */
  lemma RunLength(ps: seq<Net>, lo: nat, hi: nat)
    requires Sorted(ps) && lo <= hi <= |ps| && hi > 0
    requires forall i :: lo <= i < hi ==> ps[i].len >= ps[hi - 1].len
    ensures forall i :: lo <= i < hi ==> ps[i].len == ps[hi - 1].len
  {
    assert forall i :: lo <= i < hi - 1 ==> Less(ps[i], ps[hi - 1]);
  }

  /** Walks the distinct prefix lengths from the longest down, and searches each
      length's run for the masked address. Agrees with the linear scan; visits no
      length twice, and every length there is before it answers no. */
  method ContainsSorted(width: nat, ps: seq<Net>, a: nat) returns (found: bool, ghost visited: seq<nat>)
    requires Sorted(ps) && AllCanonical(width, ps)
    ensures found == Listed(width, ps, a)
    ensures Decreasing(visited) && forall l :: l in visited ==> IsLength(ps, l)
    ensures !found ==> forall i :: 0 <= i < |ps| ==> ps[i].len in visited
  {
    var hi := |ps|;
    visited := [];
    while hi > 0
      invariant 0 <= hi <= |ps|
      invariant forall i :: hi <= i < |ps| ==> !Contains(width, ps[i], a) && ps[i].len in visited
      invariant hi > 0 ==> forall l :: l in visited ==> l > ps[hi - 1].len
      invariant Decreasing(visited) && forall l :: l in visited ==> IsLength(ps, l)
    {
      var len := ps[hi - 1].len;
      var lo := LowerBoundLen(ps, hi, len);
      RunLength(ps, lo, hi);
      var want := Mask(width, len, a);
      var i := LowerBoundAddr(ps, lo, hi, want);
      if i < hi && ps[i].base == want {
        ContainsIsMask(width, ps[i], a);
        return true, visited;
      }
      RunMissed(width, ps, lo, hi, i, a, len);
      assert forall k :: 0 <= k < |visited| ==> visited[k] in visited;
      visited := visited + [len];
      hi := lo;
    }
    found := false;
  }

  // ---------- the set ----------

  /** Canonical form of a configured prefix; a 4-in-6 one becomes IPv4 when it is at
      least /96 and is dropped otherwise, as is anything invalid. */
  datatype CanonResult = Dropped | Canon4(net: Net) | Canon6(net: Net)

  function CanonPrefix(p: Prefix): (r: CanonResult)
    ensures r.Canon4? ==> Canonical(32, r.net)
    ensures r.Canon6? ==> Canonical(128, r.net)
  {
    if !p.Valid() then Dropped
    else if p.addr.Is4In6() then
      if p.bits < 96 then Dropped
      else
        MaskIsCanonical(32, p.bits - 96, p.addr.Unmap().value);
        Canon4(Net(p.bits - 96, Mask(32, p.bits - 96, p.addr.Unmap().value)))
    else if p.addr.V4? then
      MaskIsCanonical(32, p.bits, p.addr.value);
      Canon4(Net(p.bits, Mask(32, p.bits, p.addr.value)))
    else
      MaskIsCanonical(128, p.bits, p.addr.value);
      Canon6(Net(p.bits, Mask(128, p.bits, p.addr.value)))
  }

  /** The prefix, canonical or not, covers the (unmapped) address: same family, same
      leading bits. */
  predicate CoversAddr(p: Prefix, a: Addr) {
    match CanonPrefix(p)
    case Dropped => false
    case Canon4(n) => a.Unmap().V4? && Contains(32, n, a.Unmap().value)
    case Canon6(n) => a.Unmap().V6? && Contains(128, n, a.Unmap().value)
  }

  lemma MaskContains(width: nat, len: nat, x: nat, a: nat)
    requires len <= width
    ensures Contains(width, Net(len, Mask(width, len, x)), a) <==>
      Quotient(a, Pow2(width - len)) == Quotient(x, Pow2(width - len))
  {
    ProductDivides(Quotient(x, Pow2(width - len)), Pow2(width - len));
  }

  /** Canonicalising does not change what a prefix matches: an IPv4 or IPv6 prefix
      matches the addresses of its family that agree on its leading bits, and a
      ::ffff:a.b.c.d/N prefix with N >= 96 matches like a.b.c.d/(N-96). */
  lemma CanonKeepsMeaning(p: Prefix, a: Addr)
    requires p.Valid() && (p.addr.Is4In6() ==> p.bits >= 96)
    ensures CoversAddr(p, a) <==>
      var q, b := p.addr.Unmap(), a.Unmap();
      var len := if p.addr.Is4In6() then p.bits - 96 else p.bits;
      q.V4? == b.V4? && Quotient(b.value, Pow2(q.Width() - len)) == Quotient(q.value, Pow2(q.Width() - len))
  {
    var q, b := p.addr.Unmap(), a.Unmap();
    var len := if p.addr.Is4In6() then p.bits - 96 else p.bits;
    MaskContains(q.Width(), len, q.value, b.value);
  }

  class CIDRSet {
    var v4: seq<Net>
    var v6: seq<Net>
    var count: nat
    var any: bool
    var sorted: bool

    /** What every method keeps: canonical prefixes, and the flag means sorted and distinct. */
    ghost predicate Valid()
      reads this
    {
      && AllCanonical(32, v4) && AllCanonical(128, v6)
      && count == |v4| + |v6|
      && (sorted ==> Sorted(v4) && Sorted(v6))
    }

    /** The addresses in the set, by linear definition. */
    ghost predicate Has(a: Addr)
      requires Valid()
      reads this
    {
      a.Valid() && (any || if a.Unmap().V4? then Listed(32, v4, a.Unmap().value) else Listed(128, v6, a.Unmap().value))
    }

    constructor ()
      ensures Valid() && sorted && v4 == [] && v6 == [] && !any
    {
      v4, v6, count, any, sorted := [], [], 0, false, true;
    }

    method Add(p: Prefix)
      requires Valid()
      modifies this
      ensures Valid() && any == old(any)
      ensures forall a: Addr :: Has(a) <==> old(Has(a)) || (a.Valid() && CoversAddr(p, a))
    {
      match CanonPrefix(p) {
        case Dropped =>
        case Canon4(n) =>
          AppendListed(32, v4, n);
          v4, count, sorted := v4 + [n], count + 1, false;
        case Canon6(n) =>
          AppendListed(128, v6, n);
          v6, count, sorted := v6 + [n], count + 1, false;
      }
    }

    /** Loads parsed lines; a file with no usable entry means "any". */
    method LoadFile(lines: seq<Option<Prefix>>)
      requires Valid()
      modifies this
      ensures Valid() && sorted
      ensures any <==> old(any) || forall i :: 0 <= i < |lines| ==> lines[i].None?
      ensures forall a: Addr :: Has(a) <==>
        old(Has(a)) || (a.Valid() && (any || exists i :: 0 <= i < |lines| && lines[i].Some? && CoversAddr(lines[i].value, a)))
    {
      var parsed := 0;
      for i := 0 to |lines|
        invariant Valid() && any == old(any)
        invariant parsed == 0 <==> forall j :: 0 <= j < i ==> lines[j].None?
        invariant parsed >= 0
        invariant forall a: Addr :: Has(a) <==>
          old(Has(a)) || (a.Valid() && exists j :: 0 <= j < i && lines[j].Some? && CoversAddr(lines[j].value, a))
      {
        if lines[i].Some? {
          parsed := parsed + 1;
          Add(lines[i].value);
        }
      }
      if parsed == 0 {
        any := true;
      }
      SortLocked();
    }

    method SortLocked()
      requires Valid()
      modifies this
      ensures Valid() && sorted && any == old(any)
      ensures forall a: Addr :: Has(a) <==> old(Has(a))
    {
      SameListed(32, v4, SortNets(v4));
      SameListed(128, v6, SortNets(v6));
      v4 := SortNets(v4);
      v6 := SortNets(v6);
      count, sorted := |v4| + |v6|, true;
    }

    method EnsureSorted()
      requires Valid()
      modifies this
      ensures Valid() && sorted && any == old(any)
      ensures forall a: Addr :: Has(a) <==> old(Has(a))
    {
      if !sorted {
        SortLocked();
      }
    }

    /** The part of Match under the read lock: right in every state the invariant
        allows, so also when another thread's Add undid the sorting just before. */
    method MatchLocked(a: Addr) returns (r: bool)
      requires Valid()
      ensures r == Has(a)
    {
      if !a.Valid() {
        return false;
      }
      var b := a.Unmap();
      if any {
        return true;
      }
      var ps, width := v6, 128;
      if b.V4? {
        ps, width := v4, 32;
      }
      if !sorted {
        r := ContainsLinear(width, ps, b.value);
      } else {
        ghost var visited;
        r, visited := ContainsSorted(width, ps, b.value);
      }
    }

    method Match(a: Addr) returns (r: bool)
      requires Valid()
      modifies this
      ensures Valid() && r == old(Has(a))
      ensures forall b: Addr :: Has(b) <==> old(Has(b))
    {
      EnsureSorted();
      r := MatchLocked(a);
    }

    /** Match with other threads adding prefixes between its two critical sections:
        the answer is the one for the set at the moment of the read lock. */
    method MatchWhileAdding(a: Addr, racing: seq<Prefix>) returns (r: bool)
      requires Valid()
      modifies this
      ensures Valid()
      ensures r <==> old(Has(a)) || (a.Valid() && exists i :: 0 <= i < |racing| && CoversAddr(racing[i], a))
    {
      EnsureSorted();
      for i := 0 to |racing|
        invariant Valid()
        invariant forall b: Addr :: Has(b) <==>
          old(Has(b)) || (b.Valid() && exists j :: 0 <= j < i && CoversAddr(racing[j], b))
      {
        Add(racing[i]);
      }
      r := MatchLocked(a);
    }
  }

  lemma AppendListed(width: nat, ps: seq<Net>, n: Net)
    requires AllCanonical(width, ps) && Canonical(width, n)
    ensures AllCanonical(width, ps + [n])
    ensures forall a :: Listed(width, ps + [n], a) <==> Listed(width, ps, a) || Contains(width, n, a)
  {
    var r := ps + [n];
    forall a: nat ensures Listed(width, r, a) <==> Listed(width, ps, a) || Contains(width, n, a) {
      if Listed(width, ps, a) {
        var i :| 0 <= i < |ps| && Contains(width, ps[i], a);
        assert r[i] == ps[i];
      }
      assert r[|ps|] == n;
    }
  }

  lemma SameListed(width: nat, ps: seq<Net>, qs: seq<Net>)
    requires AllCanonical(width, ps) && forall n :: n in ps <==> n in qs
    ensures AllCanonical(width, qs)
    ensures forall a :: Listed(width, ps, a) <==> Listed(width, qs, a)
  {
    forall i | 0 <= i < |qs| ensures Canonical(width, qs[i]) { assert qs[i] in ps; }
    forall a: nat ensures Listed(width, ps, a) <==> Listed(width, qs, a) {
      if Listed(width, ps, a) {
        var i :| 0 <= i < |ps| && Contains(width, ps[i], a);
        assert ps[i] in qs;
      }
      if Listed(width, qs, a) {
        var i :| 0 <= i < |qs| && Contains(width, qs[i], a);
        assert qs[i] in ps;
      }
    }
  }
}
