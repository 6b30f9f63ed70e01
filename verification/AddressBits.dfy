/** What prefix membership means bit by bit: shifting the host bits out by halving. */
module AddressBits {
  import opened Division
  import opened Cidr

  /** x without its n lowest bits. */
  function Shifted(x: nat, n: nat): nat {
    if n == 0 then x else Shifted(x / 2, n - 1)
  }

  lemma HalfThenDivide(x: nat, m: nat)
    requires m > 0
    ensures (x / 2) / m == x / (2 * m)
  {
    var h := x / 2;
    var q, r := h / m, h % m;
    assert h == m * q + r;
    assert x == 2 * h + x % 2;
    assert 2 * (m * q) == (2 * m) * q;
    DivModUnique(x, q, 2 * r + x % 2, 2 * m);
  }

  lemma {:induction false} ShiftedIs(x: nat, n: nat)
    ensures Shifted(x, n) == Quotient(x, Pow2(n))
    decreases n
  {
    if n > 0 {
      ShiftedIs(x / 2, n - 1);
      HalfThenDivide(x, Pow2(n - 1));
    }
  }

  lemma ProductDoubles(a: nat, b: nat)
    ensures Product(a, 2 * b) == 2 * Product(a, b)
  {
    assert a * (2 * b) == 2 * (a * b);
  }

  lemma {:induction false} PowersMultiply(m: nat, n: nat)
    ensures Pow2(m + n) == Product(Pow2(m), Pow2(n))
    decreases n
  {
    if n > 0 {
      PowersMultiply(m, n - 1);
      ProductDoubles(Pow2(m), Pow2(n - 1));
      assert m + n - 1 == m + (n - 1);
    }
  }

  lemma FamilySizes()
    ensures Pow2(32) == 0x1_0000_0000
    ensures Pow2(128) == 0x1_0000_0000_0000_0000_0000_0000_0000_0000
  {
    assert Pow2(1) == 2 && Pow2(2) == 4 && Pow2(3) == 8 && Pow2(4) == 16;
    PowersMultiply(4, 4);
    PowersMultiply(8, 8);
    PowersMultiply(16, 16);
    PowersMultiply(32, 32);
    PowersMultiply(64, 64);
  }

  /** The address is in its family's range. */
  predicate InRange(a: Addr) {
    match a
    case V4(x) => x < 0x1_0000_0000
    case V6(x, _) => x < 0x1_0000_0000_0000_0000_0000_0000_0000_0000
  }

  lemma ValidIsInRange(a: Addr)
    ensures a.Valid() <==> InRange(a)
  {
    FamilySizes();
  }

  /** An IPv4 address carried in an IPv6 one is that IPv4 address. */
  function Plain(a: Addr): Addr {
    match a
    case V4(_) => a
    case V6(x, _) => if Shifted(x, 32) == 0xFFFF then V4(x % 0x1_0000_0000) else a
  }

  lemma PlainIs(a: Addr)
    ensures Plain(a) == a.Unmap()
  {
    if a.V6? {
      FamilySizes();
      ShiftedIs(a.value, 32);
    }
  }

  /** The configured prefix and the address are of one family, once both are plain, and
      equal without the host bits; a mapped prefix counts its bits from the 96th on. */
  predicate SameBlock(p: Prefix, a: Addr) {
    InRange(p.addr) && 0 <= p.bits &&
    match (Plain(p.addr), Plain(a))
    case (V4(x), V4(y)) =>
      var len := if p.addr.V6? then p.bits - 96 else p.bits;
      0 <= len <= 32 && Shifted(x, 32 - len) == Shifted(y, 32 - len)
    case (V6(x, _), V6(y, _)) => p.bits <= 128 && Shifted(x, 128 - p.bits) == Shifted(y, 128 - p.bits)
    case _ => false
  }

  lemma ContainsIsShift(width: nat, len: nat, x: nat, a: nat)
    requires len <= width
    ensures Contains(width, Net(len, Mask(width, len, x)), a) <==> Shifted(a, width - len) == Shifted(x, width - len)
  {
    MaskContains(width, len, x, a);
    ShiftedIs(a, width - len);
    ShiftedIs(x, width - len);
  }

  /** The length the prefix has as a plain one. */
  function PlainLength(p: Prefix): int { if p.addr.Is4In6() then p.bits - 96 else p.bits }

  lemma CanonIsShift(p: Prefix, a: Addr)
    requires p.Valid() && 0 <= PlainLength(p) <= p.addr.Unmap().Width()
    ensures var q, b, h := p.addr.Unmap(), a.Unmap(), p.addr.Unmap().Width() - PlainLength(p);
      CoversAddr(p, a) <==> q.V4? == b.V4? && Shifted(b.value, h) == Shifted(q.value, h)
  {
    ContainsIsShift(p.addr.Unmap().Width(), PlainLength(p), p.addr.Unmap().value, a.Unmap().value);
  }

  lemma CoversIsSameBlock(p: Prefix, a: Addr)
    ensures CoversAddr(p, a) <==> SameBlock(p, a)
  {
    ValidIsInRange(p.addr);
    PlainIs(p.addr);
    PlainIs(a);
    if p.Valid() && 0 <= PlainLength(p) <= p.addr.Unmap().Width() { CanonIsShift(p, a); }
  }

  /** Main result: a set the prefixes were added to matches an address exactly when it
      is in range and in the block of some of them. */
  method MatchLoaded(loaded: seq<Prefix>, a: Addr) returns (r: bool)
    ensures r <==> InRange(a) && exists i :: 0 <= i < |loaded| && SameBlock(loaded[i], a)
  {
    var s := new CIDRSet();
    for i := 0 to |loaded|
      invariant s.Valid() && !s.any && fresh(s)
      invariant s.Has(a) <==> a.Valid() && exists j :: 0 <= j < i && CoversAddr(loaded[j], a)
    {
      s.Add(loaded[i]);
    }
    ValidIsInRange(a);
    forall i | 0 <= i < |loaded| ensures CoversAddr(loaded[i], a) <==> SameBlock(loaded[i], a) {
      CoversIsSameBlock(loaded[i], a);
    }
    r := s.Match(a);
  }
}
