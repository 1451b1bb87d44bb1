/** Draining the store into the search tree, and what lookups in the finished database return
    (cmd/mkdatabase/main.go, writer.go, reader.go). */
module SearchTrees {
  import opened Prefixes
  import opened Ordering
  import opened Categories
  import opened Records
  import opened Stores
  import opened Selections
  import opened Builds

  /** Insertions, oldest first. */
  type Log = seq<(Prefix, Result)>

  /** Inserting overwrites everything below the prefix: a lookup sees the last one over it. */
  function TreeLookup(log: Log, a: Addr): Option<Result> {
    if log == [] then None
    else if log[|log| - 1].0.Covers(a) then Some(log[|log| - 1].1)
    else TreeLookup(log[..|log| - 1], a)
  }

  /** An IPv6 network that stands for the IPv4 space, as the 32 bits right after its own. */
  type Alias = s: Prefix | s.family.V6? && s.bits <= 96 witness Prefix(V6, 0, 96)

  /** The networks the tree sets aside: reserved ones never have a record, aliases have those of the
      IPv4 addresses in them. */
  datatype Networks = Networks(reserved: set<Prefix>, aliases: seq<Alias>)

  /** Prefixes inside a reserved or aliased network are refused by the tree. */
  predicate Skippable(special: Networks, p: Prefix) {
    (exists s :: s in special.reserved && s.Contains(p)) || exists s :: s in special.aliases && s.Contains(p)
  }

  predicate Reserves(special: Networks, a: Addr) { exists s :: s in special.reserved && s.Covers(a) }

  /** An address in no reserved or aliased network. */
  predicate Ordinary(special: Networks, a: Addr) {
    (forall s :: s in special.reserved ==> !s.Covers(a)) && forall s :: s in special.aliases ==> !s.Covers(a)
  }

  /** The IPv4 address that an address in an alias stands for; any other stands for itself. */
  function Unaliased(aliases: seq<Alias>, a: Addr): Addr {
    if aliases == [] then a
    else if aliases[0].Covers(a) then Addr(V4, Shr(a.value, 96 - aliases[0].bits) % 0x1_0000_0000)
    else Unaliased(aliases[1..], a)
  }

  /** The address under which the tree looks, if it is one that can have a record. */
  function Resolved(special: Networks, a: Addr): Option<Addr> {
    var b := Unaliased(special.aliases, a);
    if Reserves(special, b) then None else Some(b)
  }

  function LookupAt(special: Networks, log: Log, a: Addr): Option<Result> {
    match Resolved(special, a)
    case None => None
    case Some(b) => TreeLookup(log, b)
  }

  lemma {:induction false} UnaliasedIsClear(aliases: seq<Alias>, a: Addr)
    ensures Unaliased(aliases, a) == a || Unaliased(aliases, a).family.V4?
    ensures forall s :: s in aliases ==> !s.Covers(Unaliased(aliases, a))
    ensures (forall s :: s in aliases ==> !s.Covers(a)) ==> Unaliased(aliases, a) == a
  {
    if aliases != [] {
      UnaliasedIsClear(aliases[1..], a);
      forall s | s in aliases ensures s == aliases[0] || s in aliases[1..] {}
    }
  }

  /** Looking happens outside the networks set aside, and for an address outside them at itself. */
  lemma ResolvedIsOrdinary(special: Networks, a: Addr)
    ensures Resolved(special, a).Some? ==> Ordinary(special, Resolved(special, a).value)
    ensures Ordinary(special, a) ==> Resolved(special, a) == Some(a)
  {
    UnaliasedIsClear(special.aliases, a);
  }

  /** An address in an alias, the first that covers it, has the record of the IPv4 address whose 32 bits
      follow the alias's own. */
  lemma AliasedAnswersAsIPv4(special: Networks, log: Log, a: Addr, i: nat, v: nat, rest: nat)
    requires i < |special.aliases| && (forall k :: 0 <= k < i ==> !special.aliases[k].Covers(a))
    requires
      var s := special.aliases[i];
      && s.Covers(a) && v < 0x1_0000_0000 && rest < Pow2(96 - s.bits)
      && a.value == Shl(Shl(Shr(s.value, s.HostBits()), 32) + v, 96 - s.bits) + rest
    ensures LookupAt(special, log, a) == LookupAt(special, log, Addr(V4, v))
  {
    var s := special.aliases[i];
    UnaliasedAt(special.aliases, a, i);
    UnaliasedIsClear(special.aliases, Addr(V4, v));
    FourBytesIn(Shr(s.value, s.HostBits()), v, 96 - s.bits, rest);
    hide Shr, Shl, Pow2;
  }

  lemma {:induction false} UnaliasedAt(aliases: seq<Alias>, a: Addr, i: nat)
    requires i < |aliases| && aliases[i].Covers(a) && forall k :: 0 <= k < i ==> !aliases[k].Covers(a)
    ensures Unaliased(aliases, a) == Addr(V4, Shr(a.value, 96 - aliases[i].bits) % 0x1_0000_0000)
  {
    if i > 0 {
      assert !aliases[0].Covers(a);
      UnaliasedAt(aliases[1..], a, i - 1);
    }
  }

  /** Taking the four bytes out of the middle. */
  lemma FourBytesIn(high: nat, v: nat, k: nat, rest: nat)
    requires v < 0x1_0000_0000 && rest < Pow2(k)
    ensures Shr(Shl(Shl(high, 32) + v, k) + rest, k) % 0x1_0000_0000 == v
  {
    hide Shr, Shl, Pow2;
    ShrOfSum(Shl(high, 32) + v, k, rest);
    ShlIsProduct(high, 32);
    FourBytes();
  }

  /** The network of the IPv4-mapped addresses. */
  const MAPPED: Alias := Prefix(V6, Shl(0xffff, 32), 96)

  lemma MappedIsCovered(a: Addr)
    ensures MAPPED.Covers(a) <==> a.Is4In6()
  {
    hide Shr, Shl;
    ShrShl(0xffff, 32);
  }

  /** An IPv4-mapped address has the record of the IPv4 address. */
  lemma MappedAnswersAsIPv4(special: Networks, log: Log, a: Addr)
    requires special.aliases != [] && special.aliases[0] == MAPPED && a.Is4In6()
    ensures LookupAt(special, log, a) == LookupAt(special, log, a.Unmap())
  {
    MappedIsCovered(a);
    UnaliasedIsClear(special.aliases, a.Unmap());
    assert Shr(a.value, 0) == a.value;
  }

  datatype InsertError = Skipped | Fatal

  class SearchTree {
    const special: Networks
    var log: Log

    constructor (special: Networks)
      ensures this.special == special && log == []
    {
      this.special := special;
      log := [];
    }

    /** broken stands for any failure other than a refused network. */
    method Insert(p: Prefix, value: Result, broken: bool) returns (err: Option<InsertError>)
      modifies this
      ensures err == if Skippable(special, p) then Some(Skipped) else if broken then Some(Fatal) else None
      ensures err == Some(Skipped) <==>
                || (exists s :: s in special.reserved && s.Contains(p))
                || exists s :: s in special.aliases && s.Contains(p)
      ensures log == if err == None then old(log) + [(p, value)] else old(log)
    {
      if Skippable(special, p) {
        return Some(Skipped);
      }
      if broken {
        return Some(Fatal);
      }
      log := log + [(p, value)];
      err := None;
    }
  }

  /** Every stored prefix once. */
  ghost predicate Enumerates(order: seq<Prefix>, keys: set<Prefix>) {
    NoDup(order) && Elems(order) == keys
  }

  /** No prefix comes after one it contains. */
  ghost predicate BroaderFirst(order: seq<Prefix>) {
    forall i, j :: 0 <= i < j < |order| ==> !order[j].Contains(order[i])
  }

  ghost predicate LogInOrder(log: Log) {
    forall i, j :: 0 <= i < j < |log| ==> !log[j].0.Contains(log[i].0)
  }

  /** In a log written broader first, the lookup is the longest prefix over the address. */
  lemma {:induction false} LastIsLongest(log: Log, a: Addr)
    requires LogInOrder(log)
    ensures TreeLookup(log, a) == None <==> forall i :: 0 <= i < |log| ==> !log[i].0.Covers(a)
    ensures TreeLookup(log, a).Some? ==> exists i ::
              && 0 <= i < |log| && log[i].0.Covers(a) && TreeLookup(log, a) == Some(log[i].1)
              && forall k :: 0 <= k < |log| && log[k].0.Covers(a) ==> log[k].0.bits <= log[i].0.bits
  {
    if log != [] {
      var n := |log| - 1;
      var init := log[..n];
      if log[n].0.Covers(a) {
        forall k | 0 <= k < n && log[k].0.Covers(a) ensures log[k].0.bits <= log[n].0.bits {
          if log[k].0.bits > log[n].0.bits {
            Nested(log[n].0, log[k].0, a);
          }
        }
      } else {
        LastIsLongest(init, a);
        assert forall k :: 0 <= k < n ==> init[k] == log[k];
      }
    }
  }

  /** The part of the drain invariant about the tree: what has been inserted so far. */
  ghost predicate Inserted(log: Log, order: seq<Prefix>, special: Networks, w: View) {
    && (forall e :: e in log ==> e.0 in order && e.0 in w && IsDataType(e.1, w[e.0]))
    && (forall p :: p in order && !Skippable(special, p) ==> exists e :: e in log && e.0 == p)
    && LogInOrder(log)
  }

  /** What a database built from merged records returns at an address. */
  ghost predicate Returns(r: Option<Result>, w: View, a: Addr) {
    match LongestMatch(w.Keys, a)
    case None => r == None
    case Some(p) => p in w && r.Some? && IsDataType(r.value, w[p])
  }

  lemma KeyIsLogged(log: Log, order: seq<Prefix>, special: Networks, w: View, a: Addr, p: Prefix)
    requires Inserted(log, order, special, w) && Elems(order) == w.Keys && Ordinary(special, a)
    requires p in w && p.Covers(a)
    ensures exists i :: 0 <= i < |log| && log[i].0 == p
  {
    assert p in Elems(order);
    forall s: Prefix | s.Contains(p) ensures s.Covers(a) {
      ContainsCovers(s, p, a);
    }
  }

  lemma InsertedReturns(log: Log, order: seq<Prefix>, special: Networks, w: View, a: Addr)
    requires Inserted(log, order, special, w) && Elems(order) == w.Keys && Ordinary(special, a)
    requires forall p :: p in w ==> p.Valid()
    ensures Returns(TreeLookup(log, a), w, a)
  {
    LastIsLongest(log, a);
    forall p | p in w && p.Covers(a) ensures exists i :: 0 <= i < |log| && log[i].0 == p {
      KeyIsLogged(log, order, special, w, a, p);
    }
    if TreeLookup(log, a).Some? {
      var i := LongestEntry(log, a);
      assert log[i] in log;
      assert IsLongest(w.Keys, a, log[i].0);
      LongestUnique(w.Keys, a, log[i].0, LongestMatch(w.Keys, a).value);
    } else {
      forall p ensures !IsLongest(w.Keys, a, p) {
        assert p in w ==> !p.Covers(a);
      }
    }
  }

  lemma LongestEntry(log: Log, a: Addr) returns (i: nat)
    requires LogInOrder(log) && TreeLookup(log, a).Some?
    ensures i < |log| && log[i].0.Covers(a) && TreeLookup(log, a) == Some(log[i].1)
    ensures forall k :: 0 <= k < |log| && log[k].0.Covers(a) ==> log[k].0.bits <= log[i].0.bits
  {
    LastIsLongest(log, a);
    i :| 0 <= i < |log| && log[i].0.Covers(a) && TreeLookup(log, a) == Some(log[i].1)
      && forall k :: 0 <= k < |log| && log[k].0.Covers(a) ==> log[k].0.bits <= log[i].0.bits;
  }

  /** One round of the drain loop. */
  method DrainOne(store: Table, prefix: Prefix, broken: bool, tree: SearchTree) returns (err: Option<InsertError>)
    requires store.Valid() && prefix in store.entries
    modifies store, store.entries[prefix], tree
    ensures err == if Skippable(tree.special, prefix) then Some(Skipped) else if broken then Some(Fatal) else None
    ensures err != Some(Fatal) ==> store.Valid() && store.contents == old(store.contents) - {prefix}
    ensures store.repr == old(store.repr)
    ensures err == None ==> exists r ::
              IsDataType(r, old(store.contents)[prefix]) && tree.log == old(tree.log) + [(prefix, r)]
    ensures err != None ==> tree.log == old(tree.log)
  {
    ghost var before := store.contents;
    var rec := store.entries[prefix];
    var value := rec.DataType();
    err := tree.Insert(prefix, value, broken);
    if err == Some(Fatal) {
      return;
    }
    store.entries := store.entries - {prefix};
    store.contents := before - {prefix};
    store.facts := FactsOf(store.contents);
  }

  ghost function SkippedIn(order: seq<Prefix>, special: Networks): set<Prefix> {
    set p | p in order && Skippable(special, p)
  }

  /** Every insertion the tree does not refuse succeeds. */
  ghost predicate NoneBroken(order: seq<Prefix>, special: Networks, broken: Prefix -> bool) {
    forall p :: p in order && !Skippable(special, p) ==> !broken(p)
  }

  lemma NoneBrokenStep(order: seq<Prefix>, i: nat, special: Networks, broken: Prefix -> bool)
    requires i < |order| && NoneBroken(order[..i], special, broken)
    ensures NoneBroken(order[..i + 1], special, broken) <==> Skippable(special, order[i]) || !broken(order[i])
    ensures NoneBroken(order, special, broken) ==> NoneBroken(order[..i + 1], special, broken)
  {
    assert order[..i + 1] == order[..i] + [order[i]];
  }

  /** The drain loop of run, over the prefixes in the order store.All() gave them. */
  method Drain(store: Table, order: seq<Prefix>, tree: SearchTree, broken: Prefix -> bool)
    returns (inserted: nat, skipped: nat, ok: bool)
    requires store.Valid() && tree.log == []
    requires Enumerates(order, store.entries.Keys) && BroaderFirst(order)
    modifies store, store.repr, tree
    ensures ok <==> NoneBroken(order, tree.special, broken)
    ensures ok ==> store.entries.Keys == {}
    ensures ok ==> inserted + skipped == |old(store.entries.Keys)| && skipped == |SkippedIn(order, tree.special)|
    ensures ok ==> |tree.log| == inserted && Inserted(tree.log, order, tree.special, old(store.contents))
  {
    ghost var w := store.contents;
    inserted, skipped := 0, 0;
    for i := 0 to |order|
      invariant store.Valid() && store.repr <= old(store.repr)
      invariant Drained(order, i, tree.special, w, store.contents, tree.log, inserted, skipped)
      invariant NoneBroken(order[..i], tree.special, broken)
    {
      var prefix := order[i];
      DrainSnoc(order, i, w);
      NoneBrokenStep(order, i, tree.special, broken);
      ghost var before := tree.log;
      var err := DrainOne(store, prefix, broken(prefix), tree);
      if err == Some(Fatal) {
        return inserted, skipped, false;
      }
      DrainedStep(order, i, tree.special, w, before, tree.log, inserted, skipped, err);
      if err == Some(Skipped) {
        skipped := skipped + 1;
      } else {
        inserted := inserted + 1;
      }
    }
    DrainedEnd(order, tree.special, w, store.contents, tree.log, inserted, skipped);
    ok := true;
  }

  lemma DrainedEnd(order: seq<Prefix>, special: Networks, w: View, left: View, log: Log, inserted: nat, skipped: nat)
    requires Enumerates(order, w.Keys) && Drained(order, |order|, special, w, left, log, inserted, skipped)
    ensures order[..|order|] == order && left == map[] && |w.Keys| == |order|
  {
    assert order[..|order|] == order;
    assert left.Keys == {};
    NoDupCount(order);
  }

  /** Where the drain loop stands after i prefixes. */
  ghost predicate Drained(order: seq<Prefix>, i: nat, special: Networks, w: View, left: View, log: Log,
                          inserted: nat, skipped: nat)
    requires i <= |order|
  {
    && left == w - Elems(order[..i])
    && inserted + skipped == i && |log| == inserted && |SkippedIn(order[..i], special)| == skipped
    && Inserted(log, order[..i], special, w)
  }

  lemma DrainedStep(order: seq<Prefix>, i: nat, special: Networks, w: View, before: Log, after: Log,
                    inserted: nat, skipped: nat, err: Option<InsertError>)
    requires i < |order| && Enumerates(order, w.Keys) && BroaderFirst(order)
    requires Drained(order, i, special, w, w - Elems(order[..i]), before, inserted, skipped)
    requires err == if Skippable(special, order[i]) then Some(Skipped) else None
    requires if err == None then exists r :: IsDataType(r, w[order[i]]) && after == before + [(order[i], r)]
             else after == before
    ensures Drained(order, i + 1, special, w, w - Elems(order[..i + 1]), after,
                    if err == None then inserted + 1 else inserted, if err == None then skipped else skipped + 1)
  {
    DrainSnoc(order, i, w);
    if err == None {
      assert SkippedIn(order[..i + 1], special) == SkippedIn(order[..i], special);
      InsertedSnoc(before, after, order, i, special, w);
    } else {
      assert SkippedIn(order[..i + 1], special) == SkippedIn(order[..i], special) + {order[i]};
      InsertedSkip(before, order, i, special, w);
    }
  }

  lemma DrainSnoc(order: seq<Prefix>, i: nat, w: View)
    requires Enumerates(order, w.Keys) && i < |order|
    ensures order[i] in order && order[i] in w - Elems(order[..i])
    ensures order[..i + 1] == order[..i] + [order[i]]
    ensures Elems(order[..i + 1]) == Elems(order[..i]) + {order[i]}
    ensures w - Elems(order[..i]) - {order[i]} == w - Elems(order[..i + 1])
  {
    assert order[i] in Elems(order);
    assert order[..i + 1] == order[..i] + [order[i]];
  }

  lemma InsertedSkip(log: Log, order: seq<Prefix>, i: nat, special: Networks, w: View)
    requires i < |order| && Inserted(log, order[..i], special, w) && Skippable(special, order[i])
    ensures Inserted(log, order[..i + 1], special, w)
  {
    assert order[..i + 1] == order[..i] + [order[i]];
  }

  lemma InsertedSnoc(before: Log, after: Log, order: seq<Prefix>, i: nat, special: Networks, w: View)
    requires i < |order| && BroaderFirst(order) && Inserted(before, order[..i], special, w)
    requires order[i] in w
    requires exists r :: IsDataType(r, w[order[i]]) && after == before + [(order[i], r)]
    ensures Inserted(after, order[..i + 1], special, w)
  {
    var r :| IsDataType(r, w[order[i]]) && after == before + [(order[i], r)];
    assert order[..i + 1] == order[..i] + [order[i]];
    forall e | e in after ensures e.0 in order[..i + 1] && e.0 in w && IsDataType(e.1, w[e.0]) {
      assert e in before || e == (order[i], r);
    }
    forall p | p in order[..i + 1] && !Skippable(special, p) ensures exists e :: e in after && e.0 == p {
      if p in order[..i] {
        var e :| e in before && e.0 == p;
        assert e in after;
      } else {
        assert after[|before|] == (order[i], r);
        assert (order[i], r) in after;
      }
    }
    forall k, j | 0 <= k < j < |after| ensures !after[j].0.Contains(after[k].0) {
      if j == |before| {
        assert before[k] in before;
        var n :| 0 <= n < i && order[n] == before[k].0;
      }
    }
  }

  /** The order of the drain matters: a broad prefix inserted late hides a narrow one. */
  lemma LateBroadPrefixHidesNarrow(narrow: Prefix, broad: Prefix, rn: Result, rb: Result)
    requires narrow.Valid() && broad.Valid() && broad.Contains(narrow) && broad != narrow && rn != rb
    ensures TreeLookup([(narrow, rn), (broad, rb)], narrow.Address()) == Some(rb)
    ensures TreeLookup([(broad, rb), (narrow, rn)], narrow.Address()) == Some(rn)
  {}

  // ---- a whole build ----

  /** A lookup result that stands for exactly these memberships. */
  ghost predicate Answers(r: Option<Result>, ms: set<ListMembership>) {
    match r
    case None => ms == {}
    case Some(res) =>
      && ms != {} && NoDup(res.sources) && Elems(res.sources) == ms && Sorted(res.sources, MembershipLe)
      && forall kind :: Has(res.categories, kind) <==> exists m :: m in ms && Has(m.category, kind)
  }

  lemma ReturnsAnswers(r: Option<Result>, v: View, w: View, a: Addr)
    requires WellFormed(v) && WellFormed(w) && IsMerge(v, w) && Returns(r, w, a)
    ensures Answers(r, Covering(FactsOf(v), a))
  {
    MergedAnswer(v, w, a);
    if r.Some? {
      var p := LongestMatch(w.Keys, a).value;
      var res := r.value;
      PermutationFacts(w[p], res.sources);
      forall kind
        ensures Has(res.categories, kind) <==> exists m :: m in Elems(res.sources) && Has(m.category, kind)
      {
        UnionMaskHas(res.sources, kind);
        if Any(res.sources, InCategory(kind)) {
          var i :| 0 <= i < |res.sources| && InCategory(kind)(res.sources[i]);
          assert res.sources[i] in Elems(res.sources);
        }
      }
    }
  }

  /** run: whichever sources are selected, from whichever repositories come out of a cache, in
      whatever order records are walked and (broader first) drained, every lookup answers with the
      union of what the selected sources list for the address it resolves to. */
  method Run(cs: CategorySet, w: World, c: Caches, special: Networks, drainOrder: set<Prefix> -> seq<Prefix>,
             broken: Prefix -> bool)
    returns (tree: SearchTree, ok: bool)
    requires w.Valid() && AllUsable(w.env, w.repos, c)
    requires OrdersBroaderFirst(drainOrder)
    modifies c.dirs
    ensures ok ==> Readable(cs, old(Seen(w, c))) && AnswersAll(tree.log, cs, old(Seen(w, c)), special)
    ensures Readable(cs, old(Seen(w, c))) && AllRootsKept(cs, old(Seen(w, c))) && (forall p :: !broken(p)) ==> ok
    ensures CachesAfter(w.env, w.repos, c, old(SeenRepos(w.repos, c)), old(FreshDirs(c)))
  {
    tree := new SearchTree(special);
    ghost var seen := Seen(w, c);
    var store;
    store, ok := CollectAll(cs, w, c);
    if !ok {
      return;
    }
    ok := Finish(cs, seen, store, tree, drainOrder, broken);
  }

  ghost predicate OrdersBroaderFirst(drainOrder: set<Prefix> -> seq<Prefix>) {
    forall keys: set<Prefix> :: (forall k :: k in keys ==> k.Valid()) ==>
      Enumerates(drainOrder(keys), keys) && BroaderFirst(drainOrder(keys))
  }

  /** Everything listed for the address that this one resolves to. */
  ghost function ListedAt(special: Networks, facts: set<Fact>, a: Addr): set<ListMembership> {
    match Resolved(special, a)
    case None => {}
    case Some(b) => Covering(facts, b)
  }

  /** A lookup answers with what the selected sources list. */
  ghost predicate AnswersAll(log: Log, cs: CategorySet, w: World, special: Networks) {
    w.Valid() && forall a :: Answers(LookupAt(special, log, a), ListedAt(special, BuildFacts(cs, w), a))
  }

  /** The merge and the drain. */
  method Finish(ghost cs: CategorySet, ghost w: World, store: Table, tree: SearchTree,
                drainOrder: set<Prefix> -> seq<Prefix>, broken: Prefix -> bool)
    returns (ok: bool)
    requires store.Valid() && w.Valid() && store.facts == BuildFacts(cs, w) && tree.log == []
    requires OrdersBroaderFirst(drainOrder)
    modifies store, store.repr, tree
    ensures ok ==> AnswersAll(tree.log, cs, w, tree.special)
    ensures (forall p :: !broken(p)) ==> ok
  {
    ghost var v := store.contents;
    MergeContained(store);
    ghost var merged := store.contents;
    var order := drainOrder(store.entries.Keys);
    var inserted, skipped;
    inserted, skipped, ok := Drain(store, order, tree, broken);
    if ok {
      forall a ensures Answers(LookupAt(tree.special, tree.log, a), ListedAt(tree.special, BuildFacts(cs, w), a)) {
        ResolvedIsOrdinary(tree.special, a);
        if Resolved(tree.special, a).Some? {
          var b := Resolved(tree.special, a).value;
          InsertedReturns(tree.log, order, tree.special, merged, b);
          ReturnsAnswers(TreeLookup(tree.log, b), v, merged, b);
        }
      }
    }
  }

  /** Some selected source lists a prefix over the address that this one resolves to, under this
      membership. */
  ghost predicate ListedBySource(cs: CategorySet, w: World, special: Networks, a: Addr, m: ListMembership)
    requires w.Valid()
  {
    Resolved(special, a).Some? &&
    exists fact :: SourceLists(cs, w, fact) && fact.prefix.Covers(Resolved(special, a).value) && fact.membership == m
  }

  lemma ListedAreSources(cs: CategorySet, w: World, special: Networks, a: Addr)
    requires w.Valid() && Readable(cs, w)
    ensures forall m :: m in ListedAt(special, BuildFacts(cs, w), a) <==> ListedBySource(cs, w, special, a, m)
  {
    forall fact ensures fact in BuildFacts(cs, w) <==> SourceLists(cs, w, fact) { BuildFactsAre(cs, w, fact); }
    hide SourceLists, BuildFacts, Readable;
  }

  /** What a lookup finds: the memberships under which the selected sources list the address, with the
      providers that these sources name, and a record only where there is such a listing. */
  lemma AnswerNamesSources(log: Log, cs: CategorySet, w: World, special: Networks, a: Addr)
    requires AnswersAll(log, cs, w, special) && Readable(cs, w)
    ensures
      var r := LookupAt(special, log, a);
      && (r.Some? <==> exists m :: ListedBySource(cs, w, special, a, m))
      && (forall m :: (r.Some? && m in r.value.sources) <==> ListedBySource(cs, w, special, a, m))
      && (forall name :: (r.Some? && name in Providers(r.value.sources)) <==>
            exists m :: ListedBySource(cs, w, special, a, m) && m.provider == name)
  {
    ListedAreSources(cs, w, special, a);
    var r, listed := LookupAt(special, log, a), ListedAt(special, BuildFacts(cs, w), a);
    assert Answers(r, listed);
    hide ListedBySource, BuildFacts, AnswersAll, Readable, LookupAt, ListedAt;
    forall m ensures (r.Some? && m in r.value.sources) <==> m in listed {
      if r.Some? {
        assert m in Elems(r.value.sources) <==> m in listed;
      }
    }
    if r.Some? {
      var m :| m in listed;
    }
  }
}
