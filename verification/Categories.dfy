/** The category bitmask and its names (categories.go).

    A uint16 mask is written here as the set of positions of its one bits, so that | is
    union and a nonzero & is a common position. Number gives the integer back. */
module Categories {
  import opened Ordering

  type BitIndex = n: nat | n < 16

  type CategoryByte = set<BitIndex>

  const VPN: string := "vpn"
  const DATACENTER: string := "datacenter"
  const CRAWLER: string := "crawler"
  const PROXY: string := "proxy"
  const ABUSE: string := "abuse"
  const TOR: string := "tor"

  /** Every category, in name order. */
  const ALL_CATEGORIES: seq<string> := [ABUSE, CRAWLER, DATACENTER, PROXY, TOR, VPN]

  predicate Known(name: string) { name in ALL_CATEGORIES }

  /** The bit of a category name; an unknown name has none. */
  function Bit(name: string): CategoryByte {
    if name == VPN then {0}
    else if name == DATACENTER then {1}
    else if name == CRAWLER then {2}
    else if name == PROXY then {3}
    else if name == ABUSE then {4}
    else if name == TOR then {5}
    else {}
  }

  /** CategoryByte.Has: some bit of kind is set. */
  predicate Has(cb: CategoryByte, kind: CategoryByte) { cb * kind != {} }

  /** The union of the bits of the given names. */
  function MaskOf(names: seq<string>): CategoryByte {
    if names == [] then {}
    else MaskOf(names[..|names| - 1]) + Bit(names[|names| - 1])
  }

  method FromCategories(names: seq<string>) returns (result: CategoryByte)
    ensures result == MaskOf(names)
  {
    result := {};
    for i := 0 to |names|
      invariant result == MaskOf(names[..i])
    {
      assert names[..i + 1][..i] == names[..i];
      result := result + Bit(names[i]);
    }
    assert names[..|names|] == names;
  }

  lemma MaskOfOne(name: string)
    ensures MaskOf([name]) == Bit(name)
  {
    assert [name][..0] == [];
  }

  lemma HasUnion(a: CategoryByte, b: CategoryByte, kind: CategoryByte)
    ensures Has(a + b, kind) <==> Has(a, kind) || Has(b, kind)
  {
    assert (a + b) * kind == a * kind + b * kind;
  }

  lemma BitsDistinct(x: string, y: string)
    ensures Has(Bit(x), Bit(y)) <==> Known(x) && x == y
  {
    assert VPN[0] != DATACENTER[0] && CRAWLER[0] != PROXY[0] && ABUSE[0] != TOR[0];
    assert Known(x) <==> Bit(x) != {};
    if Has(Bit(x), Bit(y)) {
      var b :| b in Bit(x) * Bit(y);
    } else if x == y {
      assert Bit(x) * Bit(y) == Bit(x);
    }
  }

  /** A mask built from names has a category's bit exactly when that known name was given. */
  lemma {:induction false} MaskHasName(names: seq<string>, name: string)
    ensures Has(MaskOf(names), Bit(name)) <==> Known(name) && name in names
  {
    BitsDistinct(name, name);
    if names != [] {
      var init, last := names[..|names| - 1], names[|names| - 1];
      MaskHasName(init, name);
      HasUnion(MaskOf(init), Bit(last), Bit(name));
      BitsDistinct(last, name);
      assert names == init + [last];
    }
  }

  /** One category's bit meets a mask of names exactly when that category is among them. */
  lemma BitMeetsMask(name: string, names: seq<string>)
    ensures Has(Bit(name), MaskOf(names)) <==> Known(name) && name in names
  {
    MaskHasName(names, name);
    assert Bit(name) * MaskOf(names) == MaskOf(names) * Bit(name);
  }

  /** The names among the first n categories whose bit is set. */
  function NamesUpTo(cb: CategoryByte, n: nat): (names: seq<string>)
    requires n <= |ALL_CATEGORIES|
  {
    if n == 0 then []
    else if Has(cb, Bit(ALL_CATEGORIES[n - 1])) then NamesUpTo(cb, n - 1) + [ALL_CATEGORIES[n - 1]]
    else NamesUpTo(cb, n - 1)
  }

  function Names(cb: CategoryByte): seq<string> { NamesUpTo(cb, |ALL_CATEGORIES|) }

  /** CategoryByte.Strings. */
  method Strings(cb: CategoryByte) returns (result: seq<string>)
    ensures result == Names(cb)
  {
    result := [];
    for i := 0 to |ALL_CATEGORIES|
      invariant result == NamesUpTo(cb, i)
    {
      if Has(cb, Bit(ALL_CATEGORIES[i])) {
        result := result + [ALL_CATEGORIES[i]];
      }
    }
  }

  lemma {:induction false} NamesMember(cb: CategoryByte, n: nat, name: string)
    requires n <= |ALL_CATEGORIES|
    ensures name in NamesUpTo(cb, n) <==> name in ALL_CATEGORIES[..n] && Has(cb, Bit(name))
  {
    if n > 0 {
      NamesMember(cb, n - 1, name);
      assert ALL_CATEGORIES[..n] == ALL_CATEGORIES[..n - 1] + [ALL_CATEGORIES[n - 1]];
    }
  }

  /** Strings names exactly the categories whose bit is set. */
  lemma NamesAreSetBits(cb: CategoryByte, name: string)
    ensures name in Names(cb) <==> Known(name) && Has(cb, Bit(name))
  {
    NamesMember(cb, 6, name);
    assert ALL_CATEGORIES[..6] == ALL_CATEGORIES;
  }

  /** The names come in alphabetical order, each once. */
  lemma {:induction false} NamesInOrder(cb: CategoryByte, n: nat)
    requires n <= |ALL_CATEGORIES|
    ensures NoDup(NamesUpTo(cb, n)) && Sorted(NamesUpTo(cb, n), StrLe)
  {
    if n > 0 {
      NamesInOrder(cb, n - 1);
      var before := NamesUpTo(cb, n - 1);
      forall k | 0 <= k < |before|
        ensures StrLe(before[k], ALL_CATEGORIES[n - 1]) && before[k] != ALL_CATEGORIES[n - 1]
      {
        NamesMember(cb, n - 1, before[k]);
        var i :| 0 <= i < n - 1 && ALL_CATEGORIES[..n - 1][i] == before[k];
        CategoriesAscend(i, n - 1);
      }
    }
  }

  lemma CategoriesAscend(i: nat, j: nat)
    requires i < j < |ALL_CATEGORIES|
    ensures StrLe(ALL_CATEGORIES[i], ALL_CATEGORIES[j]) && ALL_CATEGORIES[i] != ALL_CATEGORIES[j]
  {
    assert ALL_CATEGORIES[0][0] < ALL_CATEGORIES[1][0] < ALL_CATEGORIES[2][0];
    assert ALL_CATEGORIES[2][0] < ALL_CATEGORIES[3][0] < ALL_CATEGORIES[4][0] < ALL_CATEGORIES[5][0];
  }

  lemma {:induction false} MaskIsSmall(names: seq<string>)
    ensures MaskOf(names) <= {0, 1, 2, 3, 4, 5}
  {
    if names != [] {
      MaskIsSmall(names[..|names| - 1]);
    }
  }

  lemma RoundTripBit(cb: CategoryByte, b: BitIndex)
    requires b < 6
    ensures b in MaskOf(Names(cb)) <==> b in cb
  {
    BitOfName(b);
    HasOneBit(cb, b);
    HasOneBit(MaskOf(Names(cb)), b);
    MaskHasName(Names(cb), NameOf(b));
    NamesAreSetBits(cb, NameOf(b));
  }

  /** Naming a mask and parsing the names back keeps exactly the six category bits. */
  lemma NamesRoundTrip(cb: CategoryByte)
    ensures MaskOf(Names(cb)) == cb * {0, 1, 2, 3, 4, 5}
  {
    MaskIsSmall(Names(cb));
    forall b: BitIndex | b < 6 ensures b in MaskOf(Names(cb)) <==> b in cb { RoundTripBit(cb, b); }
  }

  function NameOf(b: BitIndex): string
    requires b < 6
  {
    if b == 0 then VPN else if b == 1 then DATACENTER else if b == 2 then CRAWLER
    else if b == 3 then PROXY else if b == 4 then ABUSE else TOR
  }

  lemma BitOfName(b: BitIndex)
    requires b < 6
    ensures Known(NameOf(b)) && Bit(NameOf(b)) == {b}
  {
    var six := ALL_CATEGORIES;
    assert six[0] == ABUSE && six[1] == CRAWLER && six[2] == DATACENTER;
    assert six[3] == PROXY && six[4] == TOR && six[5] == VPN;
    assert VPN[0] != DATACENTER[0] && CRAWLER[0] != PROXY[0] && ABUSE[0] != TOR[0];
  }

  lemma HasOneBit(cb: CategoryByte, b: BitIndex)
    ensures Has(cb, {b}) <==> b in cb
  {
    assert cb * {b} == if b in cb then {b} else {};
  }

  // ---- the integer a mask stands for ----

  function NumberFrom(cb: CategoryByte, i: nat): nat
    requires i <= 16
    decreases 16 - i
  {
    if i == 16 then 0 else (if i in cb then 1 else 0) + 2 * NumberFrom(cb, i + 1)
  }

  /** The uint16 value of a mask. */
  function Number(cb: CategoryByte): nat { NumberFrom(cb, 0) }

  lemma {:induction false} NumberInjectiveFrom(a: CategoryByte, b: CategoryByte, i: nat, k: BitIndex)
    requires i <= k && NumberFrom(a, i) == NumberFrom(b, i)
    ensures k in a <==> k in b
    decreases 16 - i
  {
    var x, y := NumberFrom(a, i + 1), NumberFrom(b, i + 1);
    Parity(if i in a then 1 else 0, if i in b then 1 else 0, x, y);
    if i < k {
      NumberInjectiveFrom(a, b, i + 1, k);
    }
  }

  lemma Parity(p: nat, q: nat, x: nat, y: nat)
    requires p < 2 && q < 2 && p + 2 * x == q + 2 * y
    ensures p == q && x == y
  {}

  /** Each category is the power of two it is declared as. */
  lemma CategoryNumbers()
    ensures Number(Bit("vpn")) == 1 && Number(Bit("datacenter")) == 2 && Number(Bit("crawler")) == 4
    ensures Number(Bit("proxy")) == 8 && Number(Bit("abuse")) == 16 && Number(Bit("tor")) == 32
  {
    BitsOfNames();
    forall b: BitIndex | b < 6 ensures Number({b}) == Power(b) { OneBitNumber(b, 0); }
  }

  lemma BitsOfNames()
    ensures Bit(VPN) == {0} && Bit(DATACENTER) == {1} && Bit(CRAWLER) == {2}
    ensures Bit(PROXY) == {3} && Bit(ABUSE) == {4} && Bit(TOR) == {5}
  {
    assert VPN[0] != DATACENTER[0] && CRAWLER[0] != PROXY[0] && ABUSE[0] != TOR[0];
  }

  function Power(n: nat): nat { if n == 0 then 1 else 2 * Power(n - 1) }

  lemma {:induction false} OneBitNumber(b: BitIndex, i: nat)
    requires i <= 16
    ensures NumberFrom({b}, i) == if i <= b then Power(b - i) else 0
    decreases 16 - i
  {
    if i < 16 {
      OneBitNumber(b, i + 1);
    }
  }

  /** Different masks are different numbers, so nothing is lost by writing masks as sets. */
  lemma NumberInjective(a: CategoryByte, b: CategoryByte)
    ensures Number(a) == Number(b) <==> a == b
  {
    if Number(a) == Number(b) {
      forall k: BitIndex ensures k in a <==> k in b { NumberInjectiveFrom(a, b, 0, k); }
    }
  }
}
