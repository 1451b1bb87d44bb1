/** The Caddy matcher: normalising its categories, choosing a database, and deciding
    (caddy/maat/datacenterdb.go). */
module Matching {
  import opened Prefixes
  import opened Ordering
  import opened Categories
  import opened Records
  import opened Stores
  import opened RepoFiles
  import opened Selections
  import opened Builds
  import opened SearchTrees

  datatype Tier = Free | Full

  function TierOf(categories: seq<string>): Tier {
    if |categories| == 1 && categories[0] == DATACENTER then Free else Full
  }

  /** What the store's lookup reports for one address. */
  datatype Lookup = NotLoaded | Failed | Loaded(result: Option<Result>)

  /** The decision on a looked-up record: present, and in a wanted category if any are named. */
  predicate Matches(cats: CategoryByte, r: Option<Result>) {
    r.Some? && (cats == {} || Has(r.value.categories, cats))
  }

  /** slices.Compact on a sorted slice: each element once, order kept. */
  method Compact(s: seq<string>) returns (r: seq<string>)
    requires Sorted(s, StrLe)
    ensures NoDup(r) && Sorted(r, StrLe) && Elems(r) == Elems(s)
  {
    r := [];
    for i := 0 to |s|
      invariant NoDup(r) && Sorted(r, StrLe) && Elems(r) == Elems(s[..i])
      invariant (r == [] <==> i == 0) && (i > 0 ==> r[|r| - 1] == s[i - 1])
    {
      assert s[..i + 1] == s[..i] + [s[i]];
      if r == [] || r[|r| - 1] != s[i] {
        forall k | 0 <= k < |r| ensures StrLe(r[k], s[i]) && r[k] != s[i] {
          assert r[k] in Elems(s[..i]);
          NotYet(s, i, r[k]);
        }
        assert Elems(r + [s[i]]) == Elems(r) + {s[i]};
        r := r + [s[i]];
      }
      assert Elems(s[..i + 1]) == Elems(s[..i]) + {s[i]};
      assert s[i] in Elems(r);
    }
    assert s[..|s|] == s;
  }

  lemma NotYet(s: seq<string>, i: nat, x: string)
    requires Sorted(s, StrLe) && i < |s| && x in s[..i]
    ensures StrLe(x, s[i])
    ensures s[i - 1] != s[i] ==> x != s[i]
  {
    var k :| 0 <= k < i && s[k] == x;
    if s[i - 1] != s[i] && x == s[i] && k < i - 1 {
      StrLeAntisymmetric(s[i - 1], s[i]);
    }
  }

  /** What provisioning is given: placeholders, case, URLs and the file system are the libraries'. */
  datatype Context = Context(
    expand: string -> string,
    lower: string -> string,
    validUrl: string -> bool,
    defaultDir: string,
    makesDir: string -> bool
  ) {
    function Category(c: string): string { lower(expand(c)) }
  }

  /** strings.TrimSuffix(s, "/"). */
  function Trimmed(s: string): string {
    if s != "" && s[|s| - 1] == '/' then s[..|s| - 1] else s
  }

  /** At most one slash is taken off the end. */
  lemma TrimmedLosesOneSlash(s: string)
    ensures s == Trimmed(s) + "/" || (s == Trimmed(s) && (s == "" || s[|s| - 1] != '/'))
  {}

  ghost function CategoriesIn(x: Context, given: seq<string>): set<string> { set c | c in given :: x.Category(c) }

  class Matcher {
    var server: string
    var categories: seq<string>
    var apiKey: string
    var storagePath: string
    var cats: CategoryByte
    var tier: Tier

    constructor (server: string, categories: seq<string>, apiKey: string, storagePath: string)
      ensures this.server == server && this.categories == categories
      ensures this.apiKey == apiKey && this.storagePath == storagePath
    {
      this.server, this.categories, this.apiKey, this.storagePath := server, categories, apiKey, storagePath;
      cats, tier := {}, Full;
    }

    /** Provision: exactly which configurations are accepted, and what they are turned into. */
    method Provision(x: Context) returns (ok: bool)
      modifies this
      ensures ok <==> old(Accepted(x))
      ensures ok ==> server == Trimmed(x.expand(old(server)))
      ensures ok ==>
        storagePath == if x.expand(old(storagePath)) == "" then x.defaultDir else x.expand(old(storagePath))
      ensures ok ==>
        && NoDup(categories) && Sorted(categories, StrLe) && Elems(categories) == CategoriesIn(x, old(categories))
        && cats == MaskOf(categories) && tier == TierOf(categories)
      ensures ok && apiKey == "" ==> tier == Free
    {
      server := Trimmed(x.expand(server));
      if server == "" || !x.validUrl(server) {
        return false;
      }
      var known := Normalise(x);
      if !known {
        return false;
      }
      apiKey := x.expand(apiKey);
      tier := TierOf(categories);
      OneCategory(categories);
      if tier == Full && apiKey == "" {
        return false;
      }
      storagePath := StorageDir(x, storagePath);
      return x.makesDir(storagePath);
    }

    /** A server with a URL of the right shape, known categories, a key unless only datacenter is
        asked for, and a directory that can be made. */
    ghost predicate Accepted(x: Context)
      reads this
    {
      && Trimmed(x.expand(server)) != "" && x.validUrl(Trimmed(x.expand(server)))
      && (forall c :: c in categories ==> Known(x.Category(c)))
      && (x.expand(apiKey) != "" || CategoriesIn(x, categories) == {DATACENTER})
      && x.makesDir(StorageDir(x, storagePath))
    }

    static function StorageDir(x: Context, path: string): string {
      if x.expand(path) == "" then x.defaultDir else x.expand(path)
    }

    /** Provision's category handling. */
    method Normalise(x: Context) returns (ok: bool)
      modifies this`categories, this`cats
      ensures ok <==> forall c :: c in old(categories) ==> Known(x.Category(c))
      ensures ok ==>
        && NoDup(categories) && Sorted(categories, StrLe) && Elems(categories) == CategoriesIn(x, old(categories))
        && cats == MaskOf(categories)
    {
      ghost var given := categories;
      for i := 0 to |categories|
        invariant |categories| == |given| && categories[i..] == given[i..]
        invariant forall k :: 0 <= k < i ==> categories[k] == x.Category(given[k]) && Known(categories[k])
      {
        var category := x.lower(x.expand(categories[i]));
        if category !in ALL_CATEGORIES {
          assert given[i] in given && !Known(x.Category(given[i]));
          return false;
        }
        categories := categories[i := category];
      }
      NormalisedAre(x, given, categories);
      categories := SortStrings(categories);
      categories := Compact(categories);
      cats := FromCategories(categories);
      ok := true;
    }

    /** MatchWithError: every failure is "no match". */
    method MatchWithError(addr: Option<Addr>, lookup: Addr -> Lookup) returns (match_: bool)
      ensures match_ <==> addr.Some? && lookup(addr.value).Loaded? && Matches(cats, lookup(addr.value).result)
    {
      if addr == None {
        return false;
      }
      var found := lookup(addr.value);
      if found == NotLoaded || found == Failed {
        return false;
      }
      if found.result == None {
        return false;
      }
      if cats == {} {
        return true;
      }
      match_ := Has(found.result.value.categories, cats);
    }
  }

  lemma NormalisedAre(x: Context, given: seq<string>, normalised: seq<string>)
    requires |normalised| == |given|
    requires forall k :: 0 <= k < |given| ==> normalised[k] == x.Category(given[k]) && Known(normalised[k])
    ensures Elems(normalised) == CategoriesIn(x, given) && forall c :: c in given ==> Known(x.Category(c))
  {
    forall c | c in given ensures Known(x.Category(c)) && x.Category(c) in Elems(normalised) {
      var k :| 0 <= k < |given| && given[k] == c;
      assert normalised[k] == x.Category(c);
    }
    forall c | c in Elems(normalised) ensures c in CategoriesIn(x, given) {
      var k :| 0 <= k < |normalised| && normalised[k] == c;
      assert given[k] in given;
    }
  }

  /** The free tier is chosen exactly for the category set {datacenter}. */
  lemma OneCategory(categories: seq<string>)
    requires NoDup(categories)
    ensures TierOf(categories) == Free <==> Elems(categories) == {DATACENTER}
  {
    NoDupCount(categories);
    if Elems(categories) == {DATACENTER} {
      assert |categories| == 1;
      assert categories[0] in Elems(categories);
    }
  }

  lemma {:induction false} OnlyName(names: seq<string>, name: string)
    requires names != [] && forall n :: n in names ==> n == name
    ensures MaskOf(names) == Bit(name)
  {
    var init := names[..|names| - 1];
    assert names[|names| - 1] in names;
    if init != [] {
      assert forall n :: n in init ==> n in names;
      OnlyName(init, name);
    } else {
      assert MaskOf(init) == {};
    }
  }

  lemma DatacenterSelection(dc: CategorySet)
    requires forall c :: Selects(dc, c) <==> c == DATACENTER
    ensures OnlyKnown(dc) && SelectionMask(dc) == Bit(DATACENTER)
  {
    assert ALL_CATEGORIES[2] == DATACENTER;
    var s := Selected(dc);
    assert DATACENTER in s;
    OnlyName(s, DATACENTER);
  }

  /** What a match means: some source lists the address in a wanted category, or at all when
      none is named. */
  lemma MatchMeansListed(cats: CategoryByte, r: Option<Result>, ms: set<ListMembership>)
    requires Answers(r, ms)
    ensures Matches(cats, r) <==> exists m :: m in ms && (cats == {} || Has(m.category, cats))
  {
    if r.Some? && cats == {} {
      var m :| m in ms;
    }
  }

  /** The free build lists, for an address, the full build's datacenter memberships. */
  lemma FreeBuildIsDatacenterPart(dc: CategorySet, full: CategorySet, w: World, a: Addr)
    requires w.Valid() && SelectsAll(full) && Readable(full, w)
    requires forall c :: Selects(dc, c) <==> c == DATACENTER
    ensures forall m :: m in Covering(BuildFacts(dc, w), a)
                   <==> m in Covering(BuildFacts(full, w), a) && Has(m.category, Bit(DATACENTER))
  {
    DatacenterSelection(dc);
    FilteringCommutes(dc, full, w);
    RestrictedCovering(BuildFacts(full, w), dc, a);
  }

  /** A database holding just the wanted memberships decides like one holding more. */
  lemma PartDecidesAlike(cats: CategoryByte, fromPart: Option<Result>, fromAll: Option<Result>,
                         part: set<ListMembership>, all: set<ListMembership>)
    requires cats != {} && forall m :: m in part <==> m in all && Has(m.category, cats)
    requires Answers(fromPart, part) && Answers(fromAll, all)
    ensures Matches(cats, fromPart) == Matches(cats, fromAll)
  {
    MatchMeansListed(cats, fromPart, part);
    MatchMeansListed(cats, fromAll, all);
  }

  /** A matcher that is served by the free database decides as it would on the full one: tier never
      changes the outcome at any address, also where the tree has nothing or answers for another. */
  lemma TierNeverMatters(categories: seq<string>, dc: CategorySet, full: CategorySet, w: World, special: Networks,
                         a: Addr, fromFree: Option<Result>, fromFull: Option<Result>)
    requires TierOf(categories) == Free
    requires w.Valid() && SelectsAll(full) && Readable(full, w)
    requires forall c :: Selects(dc, c) <==> c == DATACENTER
    requires Answers(fromFree, ListedAt(special, BuildFacts(dc, w), a))
    requires Answers(fromFull, ListedAt(special, BuildFacts(full, w), a))
    ensures Matches(MaskOf(categories), fromFree) == Matches(MaskOf(categories), fromFull)
  {
    hide Answers, Matches, BuildFacts, Readable, MaskOf;
    if Resolved(special, a).Some? {
      FreeBuildIsDatacenterPart(dc, full, w, Resolved(special, a).value);
    }
    OnlyName(categories, DATACENTER);
    var part, all := ListedAt(special, BuildFacts(dc, w), a), ListedAt(special, BuildFacts(full, w), a);
    assert forall m :: m in part <==> m in all && Has(m.category, Bit(DATACENTER));
    assert Bit(DATACENTER) != {};
    PartDecidesAlike(Bit(DATACENTER), fromFree, fromFull, part, all);
  }

  // ---- both builds and a matcher ----

  /** Nothing the first build saw in a cache is replaced by something else before the second gets
      there: the cache is still fresh by then, or was made from what cloning gives now. */
  ghost predicate Steady(w: World, c: Caches, later: seq<Pass>)
    requires OneEach(w.repos, c) && |later| == |c.passes|
    reads c.dirs
  {
    && (forall i :: 0 <= i < |later| ==> c.passes[i].now <= later[i].now)
    && forall i :: 0 <= i < |later| ==> SteadyAt(w.repos[i], SeenRepos(w.repos, c)[i], FreshDirs(c)[i], later[i].now)
  }

  predicate SteadyAt(src: RepoSource, seen: RepoSource, since: Option<int>, later: int) {
    since.Some? && later - since.value >= CACHE_MAX_AGE ==> seen == src
  }

  /** The second build is given the caches as the first one left them, and sees the same sources. */
  lemma SecondSeesTheSame(w: World, c: Caches, later: seq<Pass>, seen: seq<RepoSource>, since: seq<Option<int>>)
    requires OneEach(w.repos, c) && |seen| == |since| == |later| == |w.repos|
             && CachesAfter(w.env, w.repos, c, seen, since)
    requires forall i :: 0 <= i < |seen| ==> since[i] == None ==> seen[i] == w.repos[i]
    requires forall i :: 0 <= i < |later| ==>
               c.passes[i].now <= later[i].now && SteadyAt(w.repos[i], seen[i], since[i], later[i].now)
    ensures AllUsable(w.env, w.repos, Caches(c.dirs, later)) && SeenRepos(w.repos, Caches(c.dirs, later)) == seen
  {
    hide Usable, SeenRepo;
    var c' := Caches(c.dirs, later);
    forall i | 0 <= i < |seen|
      ensures UsableAt(w.env, w.repos, c', i) && SeenRepos(w.repos, c')[i] == seen[i]
    {
      assert CacheAfter(w.env, w.repos[i], c.dirs[i], c.passes[i].now, seen[i], since[i]);
    }
  }

  /** A narrower selection needs no more roots. */
  lemma FewerRoots(dc: CategorySet, full: CategorySet, w: World)
    requires SelectsAll(full) && (forall n :: Selects(dc, n) <==> n == DATACENTER)
    ensures OnlyKnown(dc) && (AllRootsKept(full, w) ==> AllRootsKept(dc, w))
  {
    DatacenterSelection(dc);
    forall r | r in w.repos && RootsKept(full, w.env, r) ensures RootsKept(dc, w.env, r) {
      assert forall ls :: ls in Kept(r.lists, InSelection(dc)) ==> ls in Kept(r.lists, InSelection(full));
    }
  }

  lemma UnseenIsNew(w: World, c: Caches)
    requires OneEach(w.repos, c)
    ensures forall i :: 0 <= i < |w.repos| ==> FreshDirs(c)[i] == None ==> SeenRepos(w.repos, c)[i] == w.repos[i]
  {}

  /** On the trees of two builds of the same sources a free-tier matcher decides alike, everywhere. */
  lemma BothTreesDecideAlike(categories: seq<string>, dc: CategorySet, full: CategorySet, w: World, special: Networks,
                             free: Log, all: Log, a: Addr)
    requires TierOf(categories) == Free
    requires w.Valid() && SelectsAll(full) && Readable(full, w) && (forall c :: Selects(dc, c) <==> c == DATACENTER)
    requires AnswersAll(free, dc, w, special) && AnswersAll(all, full, w, special)
    ensures Matches(MaskOf(categories), LookupAt(special, free, a)) ==
                Matches(MaskOf(categories), LookupAt(special, all, a))
  {
    hide Answers, Matches, Readable, MaskOf, ListedAt, LookupAt, BuildFacts;
    TierNeverMatters(categories, dc, full, w, special, a, LookupAt(special, free, a), LookupAt(special, all, a));
  }

  /** The free build and then the full build, over the same sources and caches. */
  method BuildBoth(dc: CategorySet, full: CategorySet, w: World, c: Caches, later: seq<Pass>, special: Networks,
                   drainOrder: set<Prefix> -> seq<Prefix>, broken: Prefix -> bool)
    returns (free: Log, all: Log, ok: bool)
    requires w.Valid() && AllUsable(w.env, w.repos, c) && |later| == |c.passes| && Steady(w, c, later)
    requires OrdersBroaderFirst(drainOrder) && SelectsAll(full) && (forall n :: Selects(dc, n) <==> n == DATACENTER)
    modifies c.dirs
    ensures ok ==> Readable(full, old(Seen(w, c)))
    ensures ok ==> AnswersAll(free, dc, old(Seen(w, c)), special) && AnswersAll(all, full, old(Seen(w, c)), special)
    ensures old(Readable(full, Seen(w, c)) && AllRootsKept(full, Seen(w, c))) && (forall p :: !broken(p)) ==> ok
  {
    hide Readable, AllRootsKept, AnswersAll, CachesAfter;
    ghost var seen, trees, since := Seen(w, c), SeenRepos(w.repos, c), FreshDirs(c);
    UnseenIsNew(w, c);
    FewerRoots(dc, full, seen);
    if Readable(full, seen) {
      FilteringCommutes(dc, full, seen);
    }
    free, all := [], [];
    var tree;
    tree, ok := Run(dc, w, c, special, drainOrder, broken);
    if !ok { return; }
    free := tree.log;
    SecondSeesTheSame(w, c, later, trees, since);
    tree, ok := Run(full, w, Caches(c.dirs, later), special, drainOrder, broken);
    all := tree.log;
  }

  /** Both databases are built, a matcher is provisioned, and a request's address is looked up in
      either: a free-tier matcher decides the same. */
  method DecideOnBoth(dc: CategorySet, full: CategorySet, w: World, c: Caches, later: seq<Pass>, special: Networks,
                      drainOrder: set<Prefix> -> seq<Prefix>, broken: Prefix -> bool,
                      matcher: Matcher, x: Context, addr: Option<Addr>)
    returns (onFree: bool, onFull: bool, ok: bool)
    requires w.Valid() && AllUsable(w.env, w.repos, c) && |later| == |c.passes| && Steady(w, c, later)
    requires OrdersBroaderFirst(drainOrder) && SelectsAll(full) && (forall n :: Selects(dc, n) <==> n == DATACENTER)
    modifies c.dirs, matcher
    ensures ok && matcher.tier == Free ==> onFree == onFull
    ensures old(Readable(full, Seen(w, c)) && AllRootsKept(full, Seen(w, c)) && matcher.Accepted(x)) ==>
              (forall p :: !broken(p)) ==> ok
  {
    hide Readable, AllRootsKept, AnswersAll, Matches, MaskOf, LookupAt;
    ghost var seen := Seen(w, c);
    onFree, onFull := false, false;
    var free, all;
    free, all, ok := BuildBoth(dc, full, w, c, later, special, drainOrder, broken);
    if !ok { return; }
    ok := matcher.Provision(x);
    if !ok { return; }
    onFree := matcher.MatchWithError(addr, a => Loaded(LookupAt(special, free, a)));
    onFull := matcher.MatchWithError(addr, a => Loaded(LookupAt(special, all, a)));
    if matcher.tier == Free && addr.Some? {
      BothTreesDecideAlike(matcher.categories, dc, full, seen, special, free, all, addr.value);
    }
  }
}
