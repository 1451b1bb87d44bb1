/** IP addresses and CIDR prefixes as naturals: RFC 4632 section 3.1 blocks, RFC 4291
    section 2.5.5.2 IPv4-mapped addresses, and the /64 collapse every prefix goes through. */
module Prefixes {

  datatype Option<+T> = None | Some(value: T)

  datatype Family = V4 | V6

  function Width(f: Family): nat {
    if f.V4? then 32 else 128
  }

  /** v shifted right by k bits. */
  function Shr(v: nat, k: nat): nat
    decreases k
  {
    if k == 0 then v else Shr(v / 2, k - 1)
  }

  /** v shifted left by k bits. */
  function Shl(v: nat, k: nat): nat {
    if k == 0 then v else 2 * Shl(v, k - 1)
  }

  function Mask(v: nat, k: nat): nat {
    Shl(Shr(v, k), k)
  }

  datatype Addr = Addr(family: Family, value: nat) {
    predicate Valid() { Shr(value, Width(family)) == 0 }

    /** An IPv6 address of the form ::ffff:a.b.c.d. */
    predicate Is4In6() { family.V6? && Shr(value, 32) == 0xffff }

    /** netip.Addr.Unmap: a mapped address becomes the IPv4 address in its low 32 bits. */
    function Unmap(): Addr {
      if Is4In6() then Addr(V4, value % 0x1_0000_0000) else this
    }
  }

  datatype Prefix = Prefix(family: Family, value: nat, bits: nat) {
    function HostBits(): nat
      requires bits <= Width(family)
    { Width(family) - bits }

    /** In range and masked: every bit below the prefix length is zero. */
    predicate Valid() {
      && bits <= Width(family)
      && Shr(value, Width(family)) == 0
      && Mask(value, HostBits()) == value
    }

    function Address(): Addr { Addr(family, value) }

    function Masked(): Prefix
      requires bits <= Width(family)
    { Prefix(family, Mask(value, HostBits()), bits) }

    predicate Covers(a: Addr)
    {
      bits <= Width(family) && family == a.family && Shr(a.value, HostBits()) == Shr(value, HostBits())
    }

    predicate Contains(q: Prefix)
    {
      bits <= q.bits && Covers(q.Address())
    }
  }

  // ---- shifting ----

  function Pow2(n: nat): (r: nat)
    ensures r > 0
  {
    if n == 0 then 1 else 2 * Pow2(n - 1)
  }

  /** Shr is division by a power of two: the network number of RFC 4632. */
  lemma {:induction false} ShrIsDivision(v: nat, k: nat)
    ensures Shr(v, k) == v / Pow2(k)
    decreases k
  {
    if k > 0 {
      ShrIsDivision(v / 2, k - 1);
      var d := Pow2(k - 1);
      DivTwice(v, d);
    }
  }

  lemma DivTwice(v: nat, d: nat)
    requires d > 0
    ensures v / (2 * d) == v / 2 / d
  {
    var h := v / 2;
    var q, r := h / d, h % d;
    assert h == q * d + r;
    assert v == 2 * h + v % 2;
    var s := 2 * r + v % 2;
    assert 2 * (q * d) == q * (2 * d);
    assert v == q * (2 * d) + s;
    assert 0 <= s < 2 * d;
    DivUnique(v, 2 * d, q, s);
  }

  lemma DivUnique(v: int, d: int, q: int, r: int)
    requires d > 0 && 0 <= r < d && v == q * d + r
    ensures v / d == q
  {
    var q', r' := v / d, v % d;
    assert (q' - q) * d == q' * d - q * d == r - r';
    assert (q - q') * d == r' - r;
    if q' > q {
      AtLeastOne(q' - q, d);
    } else if q' < q {
      AtLeastOne(q - q', d);
    }
  }

  lemma AtLeastOne(n: int, d: int)
    requires n >= 1 && d > 0
    ensures n * d >= d
  {
    assert n * d == d + (n - 1) * d;
  }

  lemma {:induction false} ShrShr(v: nat, i: nat, j: nat)
    ensures Shr(Shr(v, i), j) == Shr(v, i + j)
    decreases i
  {
    if i > 0 {
      ShrShr(v / 2, i - 1, j);
    }
  }

  /** Agreeing above bit i is agreeing above every higher bit. */
  lemma ShrCoarser(v: nat, w: nat, i: nat, j: nat)
    requires i <= j && Shr(v, i) == Shr(w, i)
    ensures Shr(v, j) == Shr(w, j)
  {
    ShrShr(v, i, j - i);
    ShrShr(w, i, j - i);
  }

  lemma {:induction false} ShrShl(h: nat, k: nat)
    ensures Shr(Shl(h, k), k) == h
    decreases k
  {
    if k > 0 {
      assert Shl(h, k) / 2 == Shl(h, k - 1);
      ShrShl(h, k - 1);
    }
  }

  lemma {:induction false} ShlShl(h: nat, i: nat, j: nat)
    ensures Shl(Shl(h, i), j) == Shl(h, i + j)
    decreases j
  {
    if j > 0 {
      ShlShl(h, i, j - 1);
    }
  }

  lemma MaskIdempotent(v: nat, k: nat)
    ensures Shr(Mask(v, k), k) == Shr(v, k)
    ensures Mask(Mask(v, k), k) == Mask(v, k)
  {
    ShrShl(Shr(v, k), k);
  }

  /** A bit added below bit n of a value with zeros there leaves the top alone. */
  lemma {:induction false} ShrAddLow(h: nat, k: nat, n: nat)
    requires k < n
    ensures Shr(Shl(h, n) + Shl(1, k), n) == h
    decreases k
  {
    if k == 0 {
      assert (Shl(h, n) + 1) / 2 == Shl(h, n - 1);
      ShrShl(h, n - 1);
    } else {
      assert (Shl(h, n) + Shl(1, k)) / 2 == Shl(h, n - 1) + Shl(1, k - 1);
      ShrAddLow(h, k - 1, n - 1);
    }
  }

  lemma {:induction false} ShrAddOne(v: nat, k: nat)
    ensures Shr(v + Shl(1, k), k) == Shr(v, k) + 1
    decreases k
  {
    if k > 0 {
      assert (v + Shl(1, k)) / 2 == v / 2 + Shl(1, k - 1);
      ShrAddOne(v / 2, k - 1);
    }
  }

  // ---- containment ----

  lemma MaskedIsValid(p: Prefix)
    requires p.bits <= Width(p.family) && p.Address().Valid()
    ensures p.Masked().Valid()
    ensures forall a :: p.Masked().Covers(a) <==> p.Covers(a)
  {
    MaskIdempotent(p.value, p.HostBits());
    ShrCoarser(p.Masked().value, p.value, p.HostBits(), Width(p.family));
  }

  /** Two prefixes over one address are nested, and the longer one lies inside the shorter. */
  lemma Nested(p: Prefix, q: Prefix, a: Addr)
    requires p.Covers(a) && q.Covers(a) && p.bits <= q.bits
    ensures p.Contains(q)
  {
    ShrCoarser(q.value, a.value, q.HostBits(), p.HostBits());
  }

  lemma SameLengthSamePrefix(p: Prefix, q: Prefix, a: Addr)
    requires p.Valid() && q.Valid() && p.Covers(a) && q.Covers(a) && p.bits == q.bits
    ensures p == q
  {}

  lemma ContainsCovers(p: Prefix, q: Prefix, a: Addr)
    requires p.Contains(q) && q.Covers(a)
    ensures p.Covers(a)
  {
    ShrCoarser(q.value, a.value, q.HostBits(), p.HostBits());
  }

  lemma ContainsTransitive(p: Prefix, q: Prefix, r: Prefix)
    requires p.Contains(q) && q.Contains(r)
    ensures p.Contains(r)
  {
    ContainsCovers(p, q, r.Address());
  }

  ghost predicate CoversAllOf(p: Prefix, q: Prefix) {
    forall a: Addr :: q.Covers(a) ==> p.Covers(a)
  }

  /** Contains is exactly inclusion of address blocks. */
  lemma ContainsIsInclusion(p: Prefix, q: Prefix)
    requires p.Valid() && q.Valid()
    ensures p.Contains(q) <==> CoversAllOf(p, q)
  {
    if p.Contains(q) {
      forall a: Addr | q.Covers(a) ensures p.Covers(a) { ContainsCovers(p, q, a); }
    }
    if CoversAllOf(p, q) {
      assert q.Covers(q.Address());
      if p.bits > q.bits {
        // q holds an address whose bit just above p's host part differs from q's own.
        var k, n := p.HostBits(), q.HostBits();
        var other := Addr(q.family, q.value + Shl(1, k));
        ShrAddLow(Shr(q.value, n), k, n);
        ShrAddOne(q.value, k);
        assert q.Covers(other);
        assert false;
      }
    }
  }

  lemma {:induction false} ShlIsProduct(h: nat, k: nat)
    ensures Shl(h, k) == h * Pow2(k)
  {
    if k > 0 {
      ShlIsProduct(h, k - 1);
      assert 2 * (h * Pow2(k - 1)) == h * (2 * Pow2(k - 1));
    }
  }

  lemma DivBlock(v: nat, q: nat, d: nat)
    requires d > 0
    ensures v / d == q <==> q * d <= v < q * d + d
  {
    assert v == v / d * d + v % d;
    if q * d <= v < q * d + d {
      DivUnique(v, d, q, v - q * d);
    }
  }

  /** Shifting back takes off what was added below. */
  lemma ShrOfSum(h: nat, k: nat, low: nat)
    requires low < Pow2(k)
    ensures Shr(Shl(h, k) + low, k) == h
  {
    hide Shr, Shl, Pow2;
    ShlIsProduct(h, k);
    ShrIsDivision(Shl(h, k) + low, k);
    DivBlock(Shl(h, k) + low, h, Pow2(k));
  }

  /** A prefix covers one block of addresses: from its own on, 2 to the power of its host bits. */
  lemma CoversIsBlock(p: Prefix, a: Addr)
    requires p.Valid()
    ensures p.Covers(a) <==> a.family == p.family && p.value <= a.value < p.value + Pow2(p.HostBits())
  {
    hide Shr, Shl, Pow2;
    var k := p.HostBits();
    ShrIsDivision(a.value, k);
    ShlIsProduct(Shr(p.value, k), k);
    DivBlock(a.value, Shr(p.value, k), Pow2(k));
  }

  // ---- collapsing to /64 ----

  const V6_HOST_BITS: nat := 64

  /** collapseV6: shortens an unmapped IPv6 prefix beyond /64 to its /64. */
  function CollapseV6(p: Prefix): Prefix
    requires p.Valid()
  {
    if p.Address().Unmap().family.V4? || p.bits <= V6_HOST_BITS then p
    else Prefix(p.family, p.value, V6_HOST_BITS).Masked()
  }

  /** A mapped prefix keeps its mapped form only with at least 96 bits. */
  lemma MappedIsLong(p: Prefix)
    requires p.Valid() && p.Address().Is4In6()
    ensures p.bits >= 96
  {
    if p.bits < 96 {
      var n := p.HostBits();
      ShlShl(Shr(p.value, n), n - 32, 32);
      ShrShl(Shl(Shr(p.value, n), n - 32), 32);
      assert Shr(p.value, 32) == 2 * Shl(Shr(p.value, n), n - 33);
      assert false;
    }
  }

  lemma CollapseContains(p: Prefix)
    requires p.Valid()
    ensures CollapseV6(p).Valid() && CollapseV6(p).Contains(p)
  {
    if CollapseV6(p) != p {
      var shorter := Prefix(p.family, p.value, V6_HOST_BITS);
      MaskedIsValid(shorter);
      assert shorter.Covers(p.Address());
    }
  }

  /** collapseV6 is the identity on IPv4 and IPv4-mapped prefixes; on any other prefix its
      result is the longest prefix of at most 64 bits that contains the input, and
      collapsing again changes nothing. */
  lemma CollapseIsMostSpecific(p: Prefix)
    requires p.Valid()
    ensures p.family.V4? || p.Address().Is4In6() ==> CollapseV6(p) == p
    ensures !(p.family.V4? || p.Address().Is4In6()) ==>
      && CollapseV6(p).bits <= 64 && CollapseV6(p).Contains(p)
      && forall q: Prefix :: q.Valid() && q.bits <= 64 && q.Contains(p) ==> q.Contains(CollapseV6(p))
    ensures CollapseV6(p).Valid() && CollapseV6(CollapseV6(p)) == CollapseV6(p)
  {
    CollapseContains(p);
    var c := CollapseV6(p);
    if c != p {
      forall q: Prefix | q.Valid() && q.bits <= 64 && q.Contains(p) ensures q.Contains(c) {
        Nested(q, c, p.Address());
      }
    }
  }

  /** Collapsing keeps containment, so no listed address loses a covering prefix. */
  lemma CollapseMonotone(p: Prefix, q: Prefix)
    requires p.Valid() && q.Valid() && p.Contains(q)
    ensures CollapseV6(p).Contains(CollapseV6(q))
  {
    var p', q' := CollapseV6(p), CollapseV6(q);
    CollapseContains(p);
    CollapseContains(q);
    ContainsTransitive(p', p, q);
    if p.Address().Is4In6() {
      MappedIsLong(p);
      ShrCoarser(q.value, p.value, p.HostBits(), 32);
    }
    if q' != q {
      CollapseIsMostSpecific(q);
      if p'.bits > 64 {
        assert false;
      }
    }
  }

  // ---- text fields ----

  /** What netip makes of a text: its results are in range but not yet masked. */
  datatype Netip = Netip(parsePrefix: string -> Option<Prefix>, parseAddr: string -> Option<Addr>) {
    ghost predicate Valid() {
      && (forall s :: parsePrefix(s).Some? ==>
            parsePrefix(s).value.bits <= Width(parsePrefix(s).value.family) && parsePrefix(s).value.Address().Valid())
      && (forall s :: parseAddr(s).Some? ==> parseAddr(s).value.Valid())
    }
  }

  function ParsePrefixField(n: Netip, field: string): Option<Prefix>
    requires n.Valid()
  {
    if field == "" then None
    else if '/' in field then
      match n.parsePrefix(field)
      case None => None
      case Some(p) => Some(p.Masked())
    else
      match n.parseAddr(field)
      case None => None
      case Some(a) =>
        var u := a.Unmap();
        Some(Prefix(u.family, u.value, Width(u.family)))
  }

  lemma {:induction false} LowWordFits(v: nat, k: nat)
    requires v < Pow2(k)
    ensures Shr(v, k) == 0
    decreases k
  {
    if k > 0 {
      LowWordFits(v / 2, k - 1);
    }
  }

  lemma UnmapValid(a: Addr)
    requires a.Valid()
    ensures a.Unmap().Valid() && !a.Unmap().Is4In6()
  {
    if a.Is4In6() {
      assert Pow2(8) == 0x100;
      assert Pow2(16) == 0x1_0000;
      assert Pow2(24) == 0x100_0000;
      assert Pow2(32) == 0x1_0000_0000;
      LowWordFits(a.value % 0x1_0000_0000, 32);
    }
  }

  /** Unmapping takes the sixteen one bits off the addresses that have them, and only off those. */
  lemma UnmapIsLowWord(a: Addr)
    ensures
      a.Unmap() == (if a.family.V6? && 0xffff_0000_0000 <= a.value < 0x1_0000_0000_0000 then
                      Addr(V4, a.value - 0xffff_0000_0000)
                    else a)
  {
    assert Pow2(32) == 0x1_0000_0000 by { FourBytes(); }
    hide Shr, Pow2;
    ShrIsDivision(a.value, 32);
  }

  lemma FourBytes()
    ensures Pow2(32) == 0x1_0000_0000
  {
    assert Pow2(8) == 0x100;
    assert Pow2(16) == 0x1_0000;
    assert Pow2(24) == 0x100_0000;
  }

  /** A field is let through exactly when it is not empty and the library parses it, as a prefix when
      it has a slash and as an address otherwise. The result is masked, has the length and covers
      exactly the addresses that the field was written with; a bare address covers itself alone, a
      mapped one the IPv4 address it is. */
  lemma ParsedFieldIsValid(n: Netip, field: string)
    requires n.Valid()
    ensures field == "" ==> ParsePrefixField(n, field) == None
    ensures field != "" && '/' in field ==> (ParsePrefixField(n, field).Some? <==> n.parsePrefix(field).Some?)
    ensures field != "" && '/' !in field ==> (ParsePrefixField(n, field).Some? <==> n.parseAddr(field).Some?)
    ensures ParsePrefixField(n, field).Some? ==> ParsePrefixField(n, field).value.Valid()
    ensures ParsePrefixField(n, field).Some? && '/' in field ==>
              var p, written := ParsePrefixField(n, field).value, n.parsePrefix(field).value;
              p.bits == written.bits && forall a :: p.Covers(a) <==> written.Covers(a)
    ensures ParsePrefixField(n, field).Some? && '/' !in field ==>
              forall a :: ParsePrefixField(n, field).value.Covers(a) <==> a == n.parseAddr(field).value.Unmap()
  {
    hide Shr, Shl, Addr.Unmap;
    if field != "" && '/' in field && n.parsePrefix(field).Some? {
      MaskedIsValid(n.parsePrefix(field).value);
    }
    if field != "" && '/' !in field && n.parseAddr(field).Some? {
      UnmapValid(n.parseAddr(field).value);
      HostPrefixIsOne(n.parseAddr(field).value.Unmap());
    }
  }

  lemma HostPrefixIsOne(a: Addr)
    requires a.Valid()
    ensures
      var p := Prefix(a.family, a.value, Width(a.family));
      p.Valid() && forall b :: p.Covers(b) <==> b == a
  {
    assert forall v: nat :: Shr(v, 0) == v;
  }
}
