/** Records of list memberships and the value stored for them (record.go, reader.go). */
module Records {
  import opened Categories
  import opened Ordering

  datatype ListMembership = ListMembership(repository: string, list: string, provider: string, category: CategoryByte)

  /** The three fields Record.sort compares; the category is not one of them. */
  datatype SortKey = SortKey(repository: string, list: string, provider: string)

  function KeyOf(m: ListMembership): SortKey { SortKey(m.repository, m.list, m.provider) }

  predicate KeyLe(a: SortKey, b: SortKey) {
    if a.repository != b.repository then StrLe(a.repository, b.repository)
    else if a.list != b.list then StrLe(a.list, b.list)
    else StrLe(a.provider, b.provider)
  }

  predicate MembershipLe(a: ListMembership, b: ListMembership) { KeyLe(KeyOf(a), KeyOf(b)) }

  /** One key or another comes first by its repository, among equal repositories by its list, and among
      equal lists by its provider. */
  lemma KeyLeByFields(a: ListMembership, b: ListMembership)
    ensures a.repository != b.repository ==> (MembershipLe(a, b) <==> StrLe(a.repository, b.repository))
    ensures a.repository == b.repository && a.list != b.list ==> (MembershipLe(a, b) <==> StrLe(a.list, b.list))
    ensures a.repository == b.repository && a.list == b.list ==> (MembershipLe(a, b) <==> StrLe(a.provider, b.provider))
  {}

  lemma KeyOrder()
    ensures TotalOrder(KeyLe)
  {
    StringOrder();
  }

  lemma MembershipPreorder()
    ensures TotalPreorder(MembershipLe)
  {
    KeyOrder();
    assert forall a, b :: MembershipLe(a, b) <==> KeyLe(KeyOf(a), KeyOf(b));
  }

  /** A record after Add: unchanged when the membership is already there. */
  function Added(s: seq<ListMembership>, m: ListMembership): (r: seq<ListMembership>)
    ensures NoDup(s) ==> NoDup(r)
    ensures Elems(r) == Elems(s) + {m}
    ensures s <= r
  {
    if m in s then s else s + [m]
  }

  /** The union of the categories of some memberships. */
  function UnionMask(s: seq<ListMembership>): CategoryByte {
    if s == [] then {} else UnionMask(s[..|s| - 1]) + s[|s| - 1].category
  }

  /** Some element of s satisfies p. */
  predicate Any<T>(s: seq<T>, p: T -> bool) { exists i :: 0 <= i < |s| && p(s[i]) }

  lemma AnySnoc<T>(s: seq<T>, p: T -> bool)
    requires s != []
    ensures Any(s, p) <==> Any(s[..|s| - 1], p) || p(s[|s| - 1])
  {
    var init := s[..|s| - 1];
    if Any(s, p) && !p(s[|s| - 1]) {
      var i :| 0 <= i < |s| && p(s[i]);
      assert init[i] == s[i];
    }
    if Any(init, p) {
      var i :| 0 <= i < |init| && p(init[i]);
      assert s[i] == init[i];
    }
  }

  lemma AnySameElements<T>(s: seq<T>, t: seq<T>, p: T -> bool)
    requires Elems(s) == Elems(t)
    ensures Any(s, p) <==> Any(t, p)
  {
    if Any(s, p) {
      var i :| 0 <= i < |s| && p(s[i]);
      assert s[i] in Elems(t);
    }
    if Any(t, p) {
      var i :| 0 <= i < |t| && p(t[i]);
      assert t[i] in Elems(s);
    }
  }

  function InCategory(kind: CategoryByte): ListMembership -> bool {
    (m: ListMembership) => Has(m.category, kind)
  }

  /** A bit is in the union exactly when some membership has it. */
  lemma {:induction false} UnionMaskHas(s: seq<ListMembership>, kind: CategoryByte)
    ensures Has(UnionMask(s), kind) <==> Any(s, InCategory(kind))
  {
    if s != [] {
      UnionMaskHas(s[..|s| - 1], kind);
      HasUnion(UnionMask(s[..|s| - 1]), s[|s| - 1].category, kind);
      AnySnoc(s, InCategory(kind));
    }
  }

  function Providers(s: seq<ListMembership>): set<string> { set m | m in s :: m.provider }

  /** What is stored for a prefix, and what a lookup decodes (Record.DataType, Result). */
  datatype Result = Result(categories: CategoryByte, sources: seq<ListMembership>) {
    predicate HasProvider(name: string) { exists m :: m in sources && m.provider == name }

    /** Asking for one provider is looking for it in the list of all. */
    lemma HasProviderIsListed(out: seq<string>, name: string)
      requires Elems(out) == Providers(sources)
      ensures HasProvider(name) <==> name in out
    {
      assert name in out <==> name in Elems(out);
    }

    method ProvidersSorted() returns (out: seq<string>)
      ensures NoDup(out) && Sorted(out, StrLe) && Elems(out) == Providers(sources)
    {
      out := [];
      for i := 0 to |sources|
        invariant NoDup(out) && Elems(out) == Providers(sources[..i])
      {
        assert sources[..i + 1] == sources[..i] + [sources[i]];
        assert Providers(sources[..i + 1]) == Providers(sources[..i]) + {sources[i].provider};
        if sources[i].provider !in out {
          out := out + [sources[i].provider];
        }
      }
      assert sources[..|sources|] == sources;
      out := SortStrings(out);
    }
  }

  method SortStrings(s: seq<string>) returns (r: seq<string>)
    ensures multiset(r) == multiset(s) && Sorted(r, StrLe)
    ensures NoDup(s) ==> NoDup(r)
    ensures Elems(r) == Elems(s)
  {
    StringOrder();
    r := SortBy(s, StrLe);
    PermutationFacts(s, r);
  }

  lemma PermutationFacts<T(!new)>(s: seq<T>, r: seq<T>)
    requires multiset(s) == multiset(r)
    ensures Elems(s) == Elems(r)
    ensures NoDup(s) ==> NoDup(r)
  {
    forall x ensures x in s <==> x in r {
      assert x in multiset(s) <==> x in multiset(r);
    }
    if NoDup(s) {
      NoDupMultiset(s);
      forall i, j | 0 <= i < j < |r| ensures r[i] != r[j] {
        if r[i] == r[j] {
          RepeatCounts(r, i, j);
        }
      }
    }
  }

  lemma RepeatCounts<T>(r: seq<T>, i: nat, j: nat)
    requires i < j < |r| && r[i] == r[j]
    ensures multiset(r)[r[i]] >= 2
  {
    assert r == r[..j] + [r[j]] + r[j + 1..];
    assert multiset(r) == multiset(r[..j]) + multiset{r[j]} + multiset(r[j + 1..]);
    assert r[..j][i] in multiset(r[..j]);
  }

  /** The stored value belongs to a record with these memberships. */
  ghost predicate IsDataType(r: Result, sources: seq<ListMembership>) {
    && multiset(r.sources) == multiset(sources)
    && Sorted(r.sources, MembershipLe)
    && r.categories == UnionMask(r.sources)
  }

  class Record {
    var sources: seq<ListMembership>

    constructor ()
      ensures sources == []
    {
      sources := [];
    }

    method Add(m: ListMembership)
      modifies this
      ensures sources == Added(old(sources), m)
    {
      if m in sources {
        return;
      }
      sources := sources + [m];
    }

    method Sort()
      modifies this
      ensures multiset(sources) == multiset(old(sources)) && Sorted(sources, MembershipLe)
    {
      MembershipPreorder();
      sources := SortBy(sources, MembershipLe);
    }

    method CategoriesOf() returns (result: CategoryByte)
      ensures result == UnionMask(sources)
    {
      result := {};
      for i := 0 to |sources|
        invariant result == UnionMask(sources[..i])
      {
        assert sources[..i + 1][..i] == sources[..i];
        result := result + sources[i].category;
      }
      assert sources[..|sources|] == sources;
    }

    method ProvidersOf() returns (out: seq<string>)
      ensures NoDup(out) && Sorted(out, StrLe) && Elems(out) == Providers(sources)
    {
      var seen: set<string> := {};
      out := [];
      for i := 0 to |sources|
        invariant seen == Elems(out) && NoDup(out) && Elems(out) == Providers(sources[..i])
      {
        assert sources[..i + 1] == sources[..i] + [sources[i]];
        if sources[i].provider !in seen {
          seen := seen + {sources[i].provider};
          out := out + [sources[i].provider];
        }
      }
      assert sources[..|sources|] == sources;
      out := SortStrings(out);
    }

    method DataType() returns (r: Result)
      modifies this
      ensures IsDataType(r, old(sources)) && sources == r.sources
    {
      Sort();
      var copied := [];
      for i := 0 to |sources|
        invariant copied == sources[..i]
      {
        copied := copied + [sources[i]];
      }
      assert copied == sources;
      var mask := CategoriesOf();
      r := Result(mask, copied);
    }
  }

  // ---- what a record built by Add alone stores ----

  function AddAll(adds: seq<ListMembership>): seq<ListMembership> {
    if adds == [] then [] else Added(AddAll(adds[..|adds| - 1]), adds[|adds| - 1])
  }

  lemma {:induction false} AddAllDistinct(adds: seq<ListMembership>)
    ensures NoDup(AddAll(adds)) && Elems(AddAll(adds)) == Elems(adds)
  {
    if adds != [] {
      AddAllDistinct(adds[..|adds| - 1]);
      assert adds == adds[..|adds| - 1] + [adds[|adds| - 1]];
    }
  }

  function Keys(s: seq<ListMembership>): seq<SortKey> {
    seq(|s|, i requires 0 <= i < |s| => KeyOf(s[i]))
  }

  lemma {:induction false} KeysOfPermutation(s: seq<ListMembership>, t: seq<ListMembership>)
    requires multiset(s) == multiset(t)
    ensures multiset(Keys(s)) == multiset(Keys(t))
  {
    if s == [] {
      assert |multiset(t)| == 0;
    } else {
      var k := TakeOne(s, t);
      KeysOfPermutation(s[1..], t[..k] + t[k + 1..]);
      assert Keys(s) == [KeyOf(s[0])] + Keys(s[1..]);
      KeysAround(t, k);
    }
  }

  lemma TakeOne<T>(s: seq<T>, t: seq<T>) returns (k: nat)
    requires s != [] && multiset(s) == multiset(t)
    ensures k < |t| && t[k] == s[0] && multiset(s[1..]) == multiset(t[..k] + t[k + 1..])
  {
    assert s[0] in multiset(t);
    k :| 0 <= k < |t| && t[k] == s[0];
    var t' := [t[k]] + (t[..k] + t[k + 1..]);
    assert t == t[..k] + [t[k]] + t[k + 1..];
    assert multiset(t') == multiset(t);
    SameTails(s, t');
    assert t'[1..] == t[..k] + t[k + 1..];
  }

  lemma KeysAround(t: seq<ListMembership>, k: nat)
    requires k < |t|
    ensures multiset(Keys(t)) == multiset{KeyOf(t[k])} + multiset(Keys(t[..k] + t[k + 1..]))
  {
    assert Keys(t) == Keys(t[..k]) + [KeyOf(t[k])] + Keys(t[k + 1..]);
    assert Keys(t[..k] + t[k + 1..]) == Keys(t[..k]) + Keys(t[k + 1..]);
  }

  /** DataType after any sequence of Adds: each distinct membership once, in key order, under
      the union of their masks. */
  lemma StoredFromAdds(adds: seq<ListMembership>, r: Result)
    requires IsDataType(r, AddAll(adds))
    ensures NoDup(r.sources) && Elems(r.sources) == Elems(adds) && Sorted(r.sources, MembershipLe)
    ensures forall kind :: Has(r.categories, kind) <==> Any(adds, InCategory(kind))
  {
    AddAllDistinct(adds);
    PermutationFacts(AddAll(adds), r.sources);
    forall kind ensures Has(r.categories, kind) <==> Any(adds, InCategory(kind)) {
      UnionMaskHas(r.sources, kind);
      AnySameElements(r.sources, adds, InCategory(kind));
    }
  }

  /** No two memberships are told apart by their category alone. */
  predicate TieFree(adds: seq<ListMembership>) {
    forall m, n :: m in adds && n in adds && KeyOf(m) == KeyOf(n) ==> m == n
  }

  /** Every build that adds these memberships, in whatever order, stores the same value. */
  ghost predicate Canonical(adds: seq<ListMembership>) {
    forall adds', r, r' ::
      Elems(adds') == Elems(adds) && IsDataType(r, AddAll(adds)) && IsDataType(r', AddAll(adds')) ==> r == r'
  }

  /** Two builds that add the same memberships in any order store the same key sequence and the
      same mask. */
  lemma StoredKeysAreCanonical(adds: seq<ListMembership>, adds': seq<ListMembership>, r: Result, r': Result)
    requires Elems(adds) == Elems(adds')
    requires IsDataType(r, AddAll(adds)) && IsDataType(r', AddAll(adds'))
    ensures Keys(r.sources) == Keys(r'.sources) && r.categories == r'.categories
  {
    StoredFromAdds(adds, r);
    StoredFromAdds(adds', r');
    SameElementsSameMultiset(r.sources, r'.sources);
    KeysOfPermutation(r.sources, r'.sources);
    KeyOrder();
    SortedUnique(Keys(r.sources), Keys(r'.sources), KeyLe);
    SameBitsSameMask(r, r', adds, adds');
  }

  /** And the same whole value exactly when no two of the memberships share a key. */
  lemma StoredIsCanonical(adds: seq<ListMembership>)
    ensures Canonical(adds) <==> TieFree(adds)
  {
    hide IsDataType, AddAll, KeyOf;
    if TieFree(adds) {
      forall adds', r, r' | Elems(adds') == Elems(adds) && IsDataType(r, AddAll(adds)) && IsDataType(r', AddAll(adds'))
        ensures r == r'
      {
        WithoutTiesSame(adds, adds', r, r');
      }
    } else {
      var m, n :| m in adds && n in adds && KeyOf(m) == KeyOf(n) && m != n;
      var r := DataTypeExists(AddAll(adds));
      var r' := OtherOrder(adds, m, n, r);
    }
  }

  lemma WithoutTiesSame(adds: seq<ListMembership>, adds': seq<ListMembership>, r: Result, r': Result)
    requires Elems(adds) == Elems(adds') && TieFree(adds)
    requires IsDataType(r, AddAll(adds)) && IsDataType(r', AddAll(adds'))
    ensures r == r'
  {
    StoredKeysAreCanonical(adds, adds', r, r');
    StoredFromAdds(adds, r);
    StoredFromAdds(adds', r');
    assert |r.sources| == |Keys(r.sources)| == |r'.sources|;
    forall i | 0 <= i < |r.sources| ensures r.sources[i] == r'.sources[i] {
      assert KeyOf(r.sources[i]) == Keys(r.sources)[i] == Keys(r'.sources)[i] == KeyOf(r'.sources[i]);
      assert r.sources[i] in Elems(adds) && r'.sources[i] in Elems(adds);
    }
  }

  lemma DataTypeExists(sources: seq<ListMembership>) returns (r: Result)
    ensures IsDataType(r, sources)
  {
    MembershipPreorder();
    var sorted := SortedExists(sources, MembershipLe);
    r := Result(UnionMask(sorted), sorted);
  }

  /** Memberships that share a key can be stored the other way round as well. */
  lemma OtherOrder(adds: seq<ListMembership>, m: ListMembership, n: ListMembership, r: Result) returns (r': Result)
    requires m in adds && n in adds && m != n && KeyOf(m) == KeyOf(n) && IsDataType(r, AddAll(adds))
    ensures IsDataType(r', AddAll(adds)) && r'.sources != r.sources
  {
    StoredFromAdds(adds, r);
    assert m in Elems(r.sources) && n in Elems(r.sources);
    var i :| 0 <= i < |r.sources| && r.sources[i] == m;
    var j :| 0 <= j < |r.sources| && r.sources[j] == n;
    r' := Exchanged(r, AddAll(adds), i, j);
  }

  lemma Exchanged(r: Result, sources: seq<ListMembership>, i: nat, j: nat) returns (r': Result)
    requires i < |r.sources| && j < |r.sources| && r.sources[i] != r.sources[j]
    requires KeyOf(r.sources[i]) == KeyOf(r.sources[j]) && IsDataType(r, sources)
    ensures IsDataType(r', sources) && r'.sources != r.sources
  {
    var swapped := r.sources[i := r.sources[j]][j := r.sources[i]];
    assert multiset(swapped) == multiset(r.sources);
    assert Sorted(swapped, MembershipLe) by { ExchangeSorted(r.sources, swapped); }
    r' := Result(UnionMask(swapped), swapped);
    assert swapped[i] != r.sources[i];
  }

  /** Only the keys decide what is sorted. */
  lemma ExchangeSorted(s: seq<ListMembership>, t: seq<ListMembership>)
    requires Sorted(s, MembershipLe) && |t| == |s| && forall k :: 0 <= k < |s| ==> KeyOf(t[k]) == KeyOf(s[k])
    ensures Sorted(t, MembershipLe)
  {
    hide KeyLe;
    forall a, b | 0 <= a < b < |t| ensures MembershipLe(t[a], t[b]) {
      assert MembershipLe(s[a], s[b]);
    }
  }

  lemma SameBitsSameMask(r: Result, r': Result, adds: seq<ListMembership>, adds': seq<ListMembership>)
    requires Elems(adds) == Elems(adds')
    requires forall kind :: Has(r.categories, kind) <==> Any(adds, InCategory(kind))
    requires forall kind :: Has(r'.categories, kind) <==> Any(adds', InCategory(kind))
    ensures r.categories == r'.categories
  {
    forall kind ensures Has(r.categories, kind) <==> Has(r'.categories, kind) {
      AnySameElements(adds, adds', InCategory(kind));
    }
    forall b: BitIndex ensures b in r.categories <==> b in r'.categories {
      HasOneBit(r.categories, b);
      HasOneBit(r'.categories, b);
    }
  }

  /** Two memberships that differ only in category, as foldAS makes them for one autonomous system:
      either order of the two may be stored, whichever way they are added. */
  lemma TiesAreNotCanonical()
    ensures
      var dc := ListMembership("stat.ripe.net", "AS136907", "huawei-cloud", Bit(DATACENTER));
      var ab := dc.(category := Bit(ABUSE));
      var r, r' := Result(dc.category + ab.category, [dc, ab]), Result(dc.category + ab.category, [ab, dc]);
      && r != r' && IsDataType(r, AddAll([dc, ab])) && IsDataType(r', AddAll([dc, ab]))
      && IsDataType(r, AddAll([ab, dc])) && IsDataType(r', AddAll([ab, dc]))
  {
    hide IsDataType, AddAll, Bit;
    BitsDistinct(DATACENTER, ABUSE);
    BitsDistinct(DATACENTER, DATACENTER);
    BothOrders(ListMembership("stat.ripe.net", "AS136907", "huawei-cloud", Bit(DATACENTER)),
               ListMembership("stat.ripe.net", "AS136907", "huawei-cloud", Bit(ABUSE)));
  }

  lemma BothOrders(m: ListMembership, n: ListMembership)
    requires m != n && KeyOf(m) == KeyOf(n)
    ensures
      var r, r' := Result(m.category + n.category, [m, n]), Result(m.category + n.category, [n, m]);
      && r != r' && IsDataType(r, AddAll([m, n])) && IsDataType(r', AddAll([m, n]))
      && IsDataType(r, AddAll([n, m])) && IsDataType(r', AddAll([n, m]))
  {
    hide IsDataType, AddAll;
    EitherOrder(m, n);
    EitherOrder(n, m);
    assert m.category + n.category == n.category + m.category;
    assert [m, n][0] != [n, m][0];
  }

  lemma OneAdd(m: ListMembership)
    ensures AddAll([m]) == [m] && UnionMask([m]) == m.category
  {
    assert [m][..0] == [];
    assert UnionMask([m]) == UnionMask([]) + m.category;
  }

  lemma TwoAdds(m: ListMembership, n: ListMembership)
    requires m != n
    ensures AddAll([m, n]) == [m, n] && UnionMask([m, n]) == m.category + n.category
  {
    OneAdd(m);
    assert [m, n][..1] == [m];
  }

  lemma EitherOrder(m: ListMembership, n: ListMembership)
    requires m != n && KeyOf(m) == KeyOf(n)
    ensures IsDataType(Result(m.category + n.category, [m, n]), AddAll([m, n]))
    ensures IsDataType(Result(m.category + n.category, [m, n]), AddAll([n, m]))
  {
    hide AddAll, UnionMask, Sorted;
    TwoAdds(m, n);
    TwoAdds(n, m);
    PairSorted(m, n);
    PairMultiset(m, n);
  }

  lemma PairMultiset<T>(m: T, n: T)
    ensures multiset([m, n]) == multiset([n, m])
  {
    assert multiset([m, n]) == multiset{m, n};
  }

  lemma PairSorted(m: ListMembership, n: ListMembership)
    requires KeyOf(m) == KeyOf(n)
    ensures Sorted([m, n], MembershipLe)
  {
    StrLeReflexive(m.provider);
    assert MembershipLe(m, n);
  }

  /** A sorted list without repetition is fixed by its elements: Record.Providers and the
      Providers of the decoded record are the same list. */
  lemma ProvidersAgree(sources: seq<ListMembership>, r: Result, fromRecord: seq<string>, fromResult: seq<string>)
    requires IsDataType(r, sources)
    requires NoDup(fromRecord) && Sorted(fromRecord, StrLe) && Elems(fromRecord) == Providers(sources)
    requires NoDup(fromResult) && Sorted(fromResult, StrLe) && Elems(fromResult) == Providers(r.sources)
    ensures fromRecord == fromResult
  {
    PermutationFacts(sources, r.sources);
    assert forall m :: m in sources <==> m in Elems(r.sources);
    SameElementsSameMultiset(fromRecord, fromResult);
    StringOrder();
    SortedUnique(fromRecord, fromResult, StrLe);
  }
}
