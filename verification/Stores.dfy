/** The prefix store of a database build: folding lists into it, letting narrow prefixes
    inherit from broad ones, and what a longest-prefix lookup then answers
    (cmd/mkdatabase/sources.go). */
module Stores {
  import opened Prefixes
  import opened Ordering
  import opened Records

  /** One membership at one prefix. */
  datatype Fact = Fact(prefix: Prefix, membership: ListMembership)

  type View = map<Prefix, seq<ListMembership>>

  ghost predicate WellFormed(v: View) {
    forall p :: p in v ==> p.Valid() && v[p] != [] && NoDup(v[p])
  }

  ghost function FactsOf(v: View): set<Fact> {
    set p, m | p in v && m in v[p] :: Fact(p, m)
  }

  ghost predicate AllValid(prefixes: seq<Prefix>) {
    forall p :: p in prefixes ==> p.Valid()
  }

  /** One of these prefixes collapses to q. */
  ghost predicate Collapses(prefixes: seq<Prefix>, q: Prefix)
    requires AllValid(prefixes)
  {
    exists p :: p in prefixes && q == CollapseV6(p)
  }

  /** What folding some prefixes under one membership lists. */
  ghost function Folded(prefixes: seq<Prefix>, m: ListMembership): set<Fact>
    requires AllValid(prefixes)
  {
    set p | p in prefixes :: Fact(CollapseV6(p), m)
  }

  /** bart.Table[*Record]: prefixes to records that are shared by reference. contents is what
      the records hold, facts the same as a set, and repr the records themselves. */
  class Table {
    var entries: map<Prefix, Record>
    ghost var contents: View
    ghost var facts: set<Fact>
    ghost var repr: set<Record>

    constructor ()
      ensures entries == map[] && contents == map[] && facts == {} && repr == {}
      ensures Valid()
    {
      entries := map[];
      contents, facts, repr := map[], {}, {};
    }

    /** Each prefix has a record of its own, holding what contents says. */
    ghost predicate Owned()
      reads this`entries, this`contents, this`repr, repr
    {
      && contents.Keys == entries.Keys
      && (forall p :: p in entries ==> entries[p] in repr && entries[p].sources == contents[p])
      && (forall p, q :: p in entries && q in entries && entries[p] == entries[q] ==> p == q)
    }

    /** Moreover every record is nonempty and duplicate-free. */
    ghost predicate Valid()
      reads this, repr
    {
      Owned() && WellFormed(contents) && facts == FactsOf(contents)
    }

    /** Supernets: the stored prefixes that contain p, p itself included. */
    function Supernets(p: Prefix): set<Prefix>
      reads this
    {
      set q | q in entries && q.Contains(p)
    }
  }

  lemma FoldedSnoc(prefixes: seq<Prefix>, i: nat, m: ListMembership)
    requires AllValid(prefixes) && i < |prefixes|
    ensures AllValid(prefixes[..i]) && AllValid(prefixes[..i + 1])
    ensures Folded(prefixes[..i + 1], m) == Folded(prefixes[..i], m) + {Fact(CollapseV6(prefixes[i]), m)}
  {
    assert prefixes[..i + 1] == prefixes[..i] + [prefixes[i]];
  }

  method Fold(store: Table, prefixes: seq<Prefix>, m: ListMembership) returns (count: nat)
    requires store.Valid() && AllValid(prefixes)
    modifies store, store.repr
    ensures store.Valid()
    ensures store.facts == old(store.facts) + Folded(prefixes, m)
    ensures fresh(store.repr - old(store.repr))
    ensures count == |prefixes|
  {
    ghost var start := store.facts;
    ghost var done: set<Fact> := {};
    for i := 0 to |prefixes|
      invariant store.Valid()
      invariant fresh(store.repr - old(store.repr))
      invariant AllValid(prefixes[..i]) && done == Folded(prefixes[..i], m)
      invariant store.facts == start + done
    {
      FoldedSnoc(prefixes, i, m);
      CollapseContains(prefixes[i]);
      var prefix := CollapseV6(prefixes[i]);
      FoldOne(store, prefix, m);
      done := done + {Fact(prefix, m)};
    }
    assert prefixes[..|prefixes|] == prefixes;
    count := |prefixes|;
  }

  /** The record of a prefix, inserted empty if there is none. */
  method RecordAt(store: Table, prefix: Prefix) returns (rec: Record)
    requires store.Owned()
    modifies store
    ensures store.Owned() && fresh(store.repr - old(store.repr))
    ensures prefix in store.entries && rec == store.entries[prefix]
    ensures store.contents
         == if prefix in old(store.contents) then old(store.contents) else old(store.contents)[prefix := []]
  {
    if prefix in store.entries {
      return store.entries[prefix];
    }
    rec := new Record();
    store.entries := store.entries[prefix := rec];
    store.repr := store.repr + {rec};
    store.contents := store.contents[prefix := []];
  }

  /** Adds to the record of a prefix. */
  method AddTo(store: Table, prefix: Prefix, rec: Record, m: ListMembership)
    requires store.Owned() && prefix in store.entries && rec == store.entries[prefix]
    modifies rec, store`contents
    ensures store.Owned() && store.entries == old(store.entries) && store.repr == old(store.repr)
    ensures store.contents == old(store.contents)[prefix := Added(old(store.contents)[prefix], m)]
  {
    assert forall q :: q in store.entries && store.entries[q] == rec ==> q == prefix;
    rec.Add(m);
    store.contents := store.contents[prefix := rec.sources];
  }

  /** One round of fold: find or create the record, then add. */
  method FoldOne(store: Table, prefix: Prefix, m: ListMembership)
    requires store.Valid() && prefix.Valid()
    modifies store, store.repr
    ensures store.Valid()
    ensures store.contents == WithMembership(old(store.contents), prefix, m)
    ensures store.facts == old(store.facts) + {Fact(prefix, m)}
    ensures fresh(store.repr - old(store.repr))
  {
    WithMembershipFacts(store.contents, prefix, m);
    ghost var after, facts := WithMembership(store.contents, prefix, m), store.facts + {Fact(prefix, m)};
    hide FactsOf, WellFormed, Added;
    var rec := RecordAt(store, prefix);
    AddTo(store, prefix, rec, m);
    assert store.contents == after;
    store.facts := facts;
  }

  ghost function WithMembership(v: View, p: Prefix, m: ListMembership): View {
    v[p := Added(if p in v then v[p] else [], m)]
  }

  lemma WithMembershipFacts(v: View, p: Prefix, m: ListMembership)
    requires WellFormed(v) && p.Valid()
    ensures WellFormed(WithMembership(v, p, m))
    ensures FactsOf(WithMembership(v, p, m)) == FactsOf(v) + {Fact(p, m)}
  {
    var w := WithMembership(v, p, m);
    assert forall n :: n in Elems(w[p]) <==> n == m || (p in v && n in v[p]);
    forall f ensures f in FactsOf(w) <==> f in FactsOf(v) + {Fact(p, m)} {
      if f in FactsOf(w) {
        assert f.membership in w[f.prefix];
        assert f.prefix == p ==> f.membership in Elems(w[p]);
      }
      if f == Fact(p, m) {
        assert m in Elems(w[p]);
      } else if f in FactsOf(v) && f.prefix == p {
        assert f.membership in Elems(w[p]);
      }
    }
  }

  // ---- mergeContained ----

  /** Everything listed at p or at a stored prefix that contains p. */
  ghost function Inherited(v: View, p: Prefix): set<ListMembership> {
    set q, m | q in v && q.Contains(p) && m in v[q] :: m
  }

  /** w is v after every record took in what its containing prefixes held in v: same keys,
      nothing listed twice, the record's own memberships first. */
  ghost predicate IsMerge(v: View, w: View) {
    && v.Keys == w.Keys
    && forall p :: p in v ==> v[p] <= w[p] && NoDup(w[p]) && Elems(w[p]) == Inherited(v, p)
  }

  /** A record part of the way there: started from v[p] and not beyond what p may inherit. */
  ghost predicate OnTheWay(v: View, p: Prefix, s: seq<ListMembership>)
    requires p in v
  {
    v[p] <= s && NoDup(s) && Elems(s) <= Inherited(v, p)
  }

  lemma InheritedFromParent(v: View, p: Prefix, q: Prefix)
    requires q.Contains(p)
    ensures Inherited(v, q) <= Inherited(v, p)
  {
    forall m | m in Inherited(v, q) ensures m in Inherited(v, p) {
      var r :| r in v && r.Contains(q) && m in v[r];
      ContainsTransitive(r, q, p);
    }
  }

  method AddEach(rec: Record, parent: Record)
    requires rec != parent && NoDup(rec.sources)
    modifies rec
    ensures old(rec.sources) <= rec.sources && NoDup(rec.sources)
    ensures Elems(rec.sources) == old(Elems(rec.sources)) + Elems(parent.sources)
  {
    for i := 0 to |parent.sources|
      invariant parent.sources == old(parent.sources)
      invariant old(rec.sources) <= rec.sources && NoDup(rec.sources)
      invariant Elems(rec.sources) == old(Elems(rec.sources)) + Elems(parent.sources[..i])
    {
      assert parent.sources[..i + 1] == parent.sources[..i] + [parent.sources[i]];
      rec.Add(parent.sources[i]);
    }
    assert parent.sources[..|parent.sources|] == parent.sources;
  }

  /** The inner loop: p's record takes in every broader record, whatever state that is in. */
  method TakeInSupernets(store: Table, p: Prefix, ghost v: View)
    requires store.Owned() && p in v && v.Keys == store.contents.Keys
    requires forall q :: q in v ==> OnTheWay(v, q, store.contents[q])
    modifies store.entries[p]
    ensures OnTheWay(v, p, store.entries[p].sources) && Elems(store.entries[p].sources) == Inherited(v, p)
  {
    var rec := store.entries[p];
    var supers := store.Supernets(p);
    ghost var seen: set<Prefix> := {};
    while supers != {}
      invariant supers <= store.Supernets(p) && seen == store.Supernets(p) - supers
      invariant OnTheWay(v, p, rec.sources) && TookIn(v, seen, rec.sources)
      invariant forall q :: q in v && q != p ==> store.entries[q].sources == store.contents[q]
      decreases supers
    {
      var super :| super in supers;
      supers := supers - {super};
      if super != p {
        var parent := store.entries[super];
        ghost var was := rec.sources;
        AddEach(rec, parent);
        TookInOne(v, p, seen, super, was, parent.sources, rec.sources);
      }
      seen := seen + {super};
    }
    TookInAll(v, p, seen, rec.sources);
  }

  /** One round of the outer loop. */
  method InheritInto(store: Table, p: Prefix, ghost v: View)
    requires store.Valid() && WellFormed(v) && p in v && v.Keys == store.contents.Keys
    requires forall q :: q in v ==> OnTheWay(v, q, store.contents[q])
    modifies store.repr, store`contents, store`facts
    ensures store.Valid() && store.entries == old(store.entries)
    ensures v.Keys == store.contents.Keys
    ensures forall q :: q in v && q != p ==> store.contents[q] == old(store.contents)[q]
    ensures OnTheWay(v, p, store.contents[p]) && Elems(store.contents[p]) == Inherited(v, p)
  {
    TakeInSupernets(store, p, v);
    KeptWellFormed(v, store.contents, p, store.entries[p].sources);
    store.contents := store.contents[p := store.entries[p].sources];
    store.facts := FactsOf(store.contents);
  }

  lemma KeptWellFormed(v: View, before: View, p: Prefix, s: seq<ListMembership>)
    requires WellFormed(v) && WellFormed(before) && p in v && p in before && OnTheWay(v, p, s)
    ensures WellFormed(before[p := s])
  {}

  /** s has everything v lists at the prefixes seen so far. */
  ghost predicate TookIn(v: View, seen: set<Prefix>, s: seq<ListMembership>) {
    forall q, m :: q in seen && q in v && m in v[q] ==> m in Elems(s)
  }

  lemma TookInOne(v: View, p: Prefix, seen: set<Prefix>, q: Prefix, was: seq<ListMembership>,
                  parent: seq<ListMembership>, now: seq<ListMembership>)
    requires p in v && q in v && q.Contains(p)
    requires OnTheWay(v, p, was) && TookIn(v, seen, was) && OnTheWay(v, q, parent)
    requires was <= now && NoDup(now) && Elems(now) == Elems(was) + Elems(parent)
    ensures OnTheWay(v, p, now) && TookIn(v, seen + {q}, now)
  {
    InheritedFromParent(v, p, q);
    assert forall m :: m in v[q] ==> m in Elems(parent);
  }

  lemma TookInAll(v: View, p: Prefix, seen: set<Prefix>, s: seq<ListMembership>)
    requires p in v && OnTheWay(v, p, s) && TookIn(v, seen, s)
    requires forall q :: q in v && q.Contains(p) ==> q in seen
    ensures Elems(s) == Inherited(v, p)
  {}

  /** mergeContained: records are changed in place while the table is walked in any order, so
      a parent may or may not already be enlarged when it is read. */
  method MergeContained(store: Table)
    requires store.Valid()
    modifies store.repr, store`contents, store`facts
    ensures store.Valid() && store.entries == old(store.entries)
    ensures IsMerge(old(store.contents), store.contents)
  {
    ghost var v := store.contents;
    var todo := store.entries.Keys;
    MergeStarts(v);
    while todo != {}
      invariant store.Valid() && store.entries == old(store.entries) && store.repr == old(store.repr)
      invariant todo <= v.Keys && Merging(v, store.contents, todo)
      decreases todo
    {
      var prefix :| prefix in todo;
      ghost var before := store.contents;
      InheritInto(store, prefix, v);
      MergingStep(v, before, store.contents, todo, prefix);
      todo := todo - {prefix};
    }
  }

  lemma MergingStep(v: View, before: View, after: View, todo: set<Prefix>, p: Prefix)
    requires p in v && Merging(v, before, todo) && after.Keys == v.Keys
    requires forall q :: q in v && q != p ==> after[q] == before[q]
    requires OnTheWay(v, p, after[p]) && Elems(after[p]) == Inherited(v, p)
    ensures Merging(v, after, todo - {p})
  {}

  /** Midway through the walk: the prefixes not in todo have everything they inherit. */
  ghost predicate Merging(v: View, w: View, todo: set<Prefix>) {
    && w.Keys == v.Keys
    && (forall p :: p in v ==> OnTheWay(v, p, w[p]))
    && forall p :: p in v && p !in todo ==> Elems(w[p]) == Inherited(v, p)
  }

  lemma MergeStarts(v: View)
    requires WellFormed(v)
    ensures Merging(v, v, v.Keys)
  {
    forall p | p in v ensures OnTheWay(v, p, v[p]) { SelfInherited(v, p); }
  }

  lemma SelfInherited(v: View, p: Prefix)
    requires WellFormed(v) && p in v
    ensures Elems(v[p]) <= Inherited(v, p)
  {
    assert p.Contains(p);
  }

  /** Merging a merged store changes no record at all. */
  lemma MergeIdempotent(v: View, w: View, x: View)
    requires WellFormed(v) && IsMerge(v, w) && IsMerge(w, x)
    ensures x == w
  {
    forall p | p in w ensures x[p] == w[p] {
      forall m | m in Inherited(w, p) ensures m in Inherited(v, p) {
        var q :| q in w && q.Contains(p) && m in w[q];
        assert m in Elems(w[q]);
        var r :| r in v && r.Contains(q) && m in v[r];
        ContainsTransitive(r, q, p);
      }
      NoDupCount(w[p]);
      NoDupCount(x[p]);
      assert Elems(w[p]) <= Elems(x[p]);
      assert Elems(x[p]) == Elems(w[p]);
    }
  }

  /** The order of the walk is invisible: two merges of one store hold the same sets. */
  lemma MergeOrderIrrelevant(v: View, w: View, w': View)
    requires IsMerge(v, w) && IsMerge(v, w')
    ensures FactsOf(w) == FactsOf(w')
  {
    forall f ensures f in FactsOf(w) <==> f in FactsOf(w') {
      if f.prefix in v {
        assert f.membership in w[f.prefix] <==> f.membership in Elems(w[f.prefix]);
        assert f.membership in w'[f.prefix] <==> f.membership in Elems(w'[f.prefix]);
      }
    }
  }

  // ---- longest-prefix match ----

  ghost predicate IsLongest(keys: set<Prefix>, a: Addr, p: Prefix) {
    && p in keys && p.Covers(a)
    && forall q :: q in keys && q.Covers(a) ==> q.bits <= p.bits
  }

  lemma LongestExists(keys: set<Prefix>, a: Addr, some: Prefix) returns (p: Prefix)
    requires some in keys && some.Covers(a)
    ensures IsLongest(keys, a, p)
  {
    p := some;
    var rest := keys;
    while rest != {}
      invariant p in keys && p.Covers(a)
      invariant forall q :: q in keys - rest && q.Covers(a) ==> q.bits <= p.bits
      decreases rest
    {
      var q :| q in rest;
      rest := rest - {q};
      if q.Covers(a) && p.bits < q.bits {
        p := q;
      }
    }
  }

  lemma LongestUnique(keys: set<Prefix>, a: Addr, p: Prefix, q: Prefix)
    requires forall k :: k in keys ==> k.Valid()
    requires IsLongest(keys, a, p) && IsLongest(keys, a, q)
    ensures p == q
  {
    SameLengthSamePrefix(p, q, a);
  }

  ghost function LongestMatch(keys: set<Prefix>, a: Addr): Option<Prefix> {
    if exists p :: IsLongest(keys, a, p) then
      var p :| IsLongest(keys, a, p); Some(p)
    else None
  }

  /** What the most specific stored prefix over an address holds. */
  ghost function Answer(w: View, a: Addr): Option<set<ListMembership>> {
    match LongestMatch(w.Keys, a)
    case None => None
    case Some(p) => if p in w then Some(Elems(w[p])) else None
  }

  /** The specification: every membership listed at any prefix over the address. */
  ghost function Covering(facts: set<Fact>, a: Addr): set<ListMembership> {
    set f | f in facts && f.prefix.Covers(a) :: f.membership
  }

  ghost function NonEmpty<T>(s: set<T>): Option<set<T>> {
    if s == {} then None else Some(s)
  }

  /** After the merge, the most specific prefix over an address holds the union of all the
      prefixes over it, and none covers the address exactly when that union is empty. */
  lemma MergedAnswer(v: View, w: View, a: Addr)
    requires WellFormed(v) && IsMerge(v, w)
    ensures Answer(w, a) == NonEmpty(Covering(FactsOf(v), a))
  {
    var all := Covering(FactsOf(v), a);
    if exists p :: p in v && p.Covers(a) {
      var some :| some in v && some.Covers(a);
      var p := LongestExists(w.Keys, a, some);
      assert Fact(some, v[some][0]) in FactsOf(v);
      assert v[some][0] in all;
      var q := LongestMatch(w.Keys, a).value;
      LongestUnique(w.Keys, a, p, q);
      forall m ensures m in Inherited(v, p) <==> m in all {
        if m in all {
          var f :| f in FactsOf(v) && f.prefix.Covers(a) && f.membership == m;
          Nested(f.prefix, p, a);
        }
        if m in Inherited(v, p) {
          var r :| r in v && r.Contains(p) && m in v[r];
          ContainsCovers(r, p, a);
          assert Fact(r, m) in FactsOf(v);
        }
      }
      assert Elems(w[q]) == all;
    } else {
      assert LongestMatch(w.Keys, a) == None;
      assert all == {};
    }
  }

  // ---- any sequence of folds, then the merge ----

  /** One call of fold. */
  datatype Listing = Listing(prefixes: seq<Prefix>, membership: ListMembership)

  ghost predicate ValidListings(ls: seq<Listing>) {
    forall l :: l in ls ==> AllValid(l.prefixes)
  }

  ghost function FactsFrom(ls: seq<Listing>): set<Fact>
    requires ValidListings(ls)
  {
    set l, p | l in ls && p in l.prefixes :: Fact(CollapseV6(p), l.membership)
  }

  method FoldEach(store: Table, ls: seq<Listing>)
    requires store.Valid() && ValidListings(ls)
    modifies store, store.repr
    ensures store.Valid()
    ensures store.facts == old(store.facts) + FactsFrom(ls)
    ensures fresh(store.repr - old(store.repr))
  {
    hide FactsOf, WellFormed, FactsFrom, Folded;
    assert FactsFrom(ls[..0]) == {} by { NoListings(); }
    for i := 0 to |ls|
      invariant store.Valid()
      invariant fresh(store.repr - old(store.repr))
      invariant store.facts == old(store.facts) + FactsFrom(ls[..i])
    {
      var _ := Fold(store, ls[i].prefixes, ls[i].membership);
      FactsFromSnoc(ls[..i], ls[i]);
      assert ls[..i + 1] == ls[..i] + [ls[i]];
    }
    assert ls[..|ls|] == ls;
  }

  lemma NoListings()
    ensures FactsFrom([]) == {}
  {}

  lemma FactsFromSnoc(ls: seq<Listing>, l: Listing)
    requires ValidListings(ls + [l])
    ensures ValidListings(ls) && AllValid(l.prefixes)
    ensures FactsFrom(ls + [l]) == FactsFrom(ls) + Folded(l.prefixes, l.membership)
  {
    assert l in ls + [l];
    assert forall k :: k in ls ==> k in ls + [l];
  }

  /** Who lists an address: the memberships folded under a prefix whose collapsed form covers it. */
  ghost function Listed(ls: seq<Listing>, a: Addr): set<ListMembership>
    requires ValidListings(ls)
  {
    set l, p | l in ls && p in l.prefixes && CollapseV6(p).Covers(a) :: l.membership
  }

  /** The precomputed answer is the simple one, for every run of folds and every address. */
  lemma LookupIsUnionOfListings(ls: seq<Listing>, v: View, w: View, a: Addr)
    requires ValidListings(ls) && WellFormed(v) && FactsOf(v) == FactsFrom(ls) && IsMerge(v, w)
    ensures Answer(w, a) == NonEmpty(Listed(ls, a))
  {
    MergedAnswer(v, w, a);
    assert Covering(FactsOf(v), a) == Listed(ls, a) by {
      forall m | m in Listed(ls, a) ensures m in Covering(FactsOf(v), a) {
        var l, p :| l in ls && p in l.prefixes && CollapseV6(p).Covers(a) && l.membership == m;
        assert Fact(CollapseV6(p), m) in FactsFrom(ls);
      }
      forall m | m in Covering(FactsOf(v), a) ensures m in Listed(ls, a) {
        var f :| f in FactsFrom(ls) && f.prefix.Covers(a) && f.membership == m;
      }
    }
  }

  /** No listed address is lost: a prefix that covers it as written still counts, and on IPv4
      addresses nothing else does. */
  lemma ListedAsWritten(ls: seq<Listing>, a: Addr)
    requires ValidListings(ls)
    ensures forall l, p :: l in ls && p in l.prefixes && p.Covers(a) ==> l.membership in Listed(ls, a)
    ensures a.family.V4? ==>
      forall m :: m in Listed(ls, a) ==> exists l, p :: l in ls && p in l.prefixes && p.Covers(a) && l.membership == m
  {
    forall l, p | l in ls && p in l.prefixes && p.Covers(a) ensures l.membership in Listed(ls, a) {
      CollapseContains(p);
      ContainsCovers(CollapseV6(p), p, a);
    }
    if a.family.V4? {
      forall m | m in Listed(ls, a)
        ensures exists l, p :: l in ls && p in l.prefixes && p.Covers(a) && l.membership == m
      {
        var l, p :| l in ls && p in l.prefixes && CollapseV6(p).Covers(a) && l.membership == m;
        CollapseIsMostSpecific(p);
        assert p.Covers(a);
      }
    }
  }

  /** The build core as one run: folds, merge, lookups. */
  method FoldAndMerge(ls: seq<Listing>) returns (store: Table)
    requires ValidListings(ls)
    ensures store.Valid()
    ensures forall a :: Answer(store.contents, a) == NonEmpty(Listed(ls, a))
  {
    store := new Table();
    FoldEach(store, ls);
    ghost var v := store.contents;
    MergeContained(store);
    forall a ensures Answer(store.contents, a) == NonEmpty(Listed(ls, a)) {
      LookupIsUnionOfListings(ls, v, store.contents, a);
    }
  }
}
