/** A whole database build: four source loops gated by the selected categories, the merge,
    and the drain into the search tree (cmd/mkdatabase/main.go, writer.go). */
module Builds {
  import opened Prefixes
  import opened Categories
  import opened Records
  import opened Stores
  import opened RepoFiles
  import opened Selections

  // ---- sources, with what fetching each would bring ----

  datatype RepoSource = RepoSource(name: string, lists: seq<ListSpec>, tree: Option<Tree>)

  datatype HttpBody = Single(prefixes: seq<Prefix>) | Grouped(groups: map<string, seq<Prefix>>)

  datatype HttpSource = HttpSource(name: string, list: string, provider: string,
                                   category: string, body: Option<HttpBody>)

  datatype AsnSource = AsnSource(list: string, provider: string, categories: seq<string>, prefixes: Option<seq<Prefix>>)

  datatype FileContent = Missing | LfsPointer | Lines(prefixes: seq<Prefix>)

  datatype FileSource = FileSource(name: string, list: string, provider: string, category: string, content: FileContent)

  datatype World = World(env: Env, repos: seq<RepoSource>, https: seq<HttpSource>,
                         asns: seq<AsnSource>, files: seq<FileSource>) {
    /** Every parser's prefixes are masked. */
    ghost predicate Valid() {
      && env.Valid()
      && (forall h :: h in https && h.body.Some? ==> ValidBody(h.body.value))
      && (forall a :: a in asns && a.prefixes.Some? ==> AllValid(a.prefixes.value))
      && (forall f :: f in files && f.content.Lines? ==> AllValid(f.content.prefixes))
    }
  }

  ghost predicate ValidBody(b: HttpBody) {
    match b
    case Single(prefixes) => AllValid(prefixes)
    case Grouped(groups) => forall g :: g in groups ==> AllValid(groups[g])
  }

  function Tag(repository: string, list: string, provider: string, category: string): ListMembership {
    ListMembership(repository, list, provider, MaskOf([category]))
  }

  // ---- what each source lists ----

  ghost function BodyFacts(h: HttpSource, b: HttpBody): set<Fact>
    requires ValidBody(b)
  {
    match b
    case Single(prefixes) => Folded(prefixes, Tag(h.name, h.list, h.provider, h.category))
    case Grouped(groups) =>
      set g, p | g in groups && p in groups[g] :: Fact(CollapseV6(p), Tag(h.name, h.list, g, h.category))
  }

  ghost function AsnFacts(a: AsnSource, categories: seq<string>): set<Fact>
    requires a.prefixes.Some? && AllValid(a.prefixes.value)
  {
    set c, p | c in categories && p in a.prefixes.value
      :: Fact(CollapseV6(p), Tag("stat.ripe.net", a.list, a.provider, c))
  }

  ghost function FileFacts(f: FileSource): set<Fact>
    requires f.content.Lines? && AllValid(f.content.prefixes)
  {
    Folded(f.content.prefixes, Tag(f.name, f.list, f.provider, f.category))
  }

  ghost predicate RepoReadable(cs: CategorySet, env: Env, r: RepoSource) {
    var lists := Kept(r.lists, InSelection(cs));
    lists != [] ==> r.tree.Some? && Collectable(env, lists, r.tree.value)
  }

  ghost predicate HttpReadable(cs: CategorySet, h: HttpSource) {
    Selects(cs, h.category) ==> h.body.Some?
  }

  ghost predicate AsnReadable(cs: CategorySet, a: AsnSource) {
    Kept(a.categories, NameSelected(cs)) != [] ==> a.prefixes.Some?
  }

  ghost predicate FileReadable(cs: CategorySet, f: FileSource) {
    Selects(cs, f.category) ==> f.content.Lines?
  }

  /** Every source the selection needs can be read. */
  ghost predicate Readable(cs: CategorySet, w: World) {
    && (forall r :: r in w.repos ==> RepoReadable(cs, w.env, r))
    && (forall h :: h in w.https ==> HttpReadable(cs, h))
    && (forall a :: a in w.asns ==> AsnReadable(cs, a))
    && (forall f :: f in w.files ==> FileReadable(cs, f))
  }

  ghost function RepoFacts(cs: CategorySet, env: Env, r: RepoSource): set<Fact>
    requires env.Valid()
  {
    var lists := Kept(r.lists, InSelection(cs));
    if r.tree.Some? && Collectable(env, lists, r.tree.value) then CollectFacts(env, r.name, lists, r.tree.value) else {}
  }

  ghost function HttpFacts(cs: CategorySet, h: HttpSource): set<Fact>
    requires h.body.Some? ==> ValidBody(h.body.value)
  {
    if Selects(cs, h.category) && h.body.Some? then BodyFacts(h, h.body.value) else {}
  }

  ghost function SelectedAsnFacts(cs: CategorySet, a: AsnSource): set<Fact>
    requires a.prefixes.Some? ==> AllValid(a.prefixes.value)
  {
    if a.prefixes.Some? then AsnFacts(a, Kept(a.categories, NameSelected(cs))) else {}
  }

  ghost function SelectedFileFacts(cs: CategorySet, f: FileSource): set<Fact>
    requires f.content.Lines? ==> AllValid(f.content.prefixes)
  {
    if Selects(cs, f.category) && f.content.Lines? then FileFacts(f) else {}
  }

  ghost function ReposFacts(cs: CategorySet, env: Env, rs: seq<RepoSource>): set<Fact>
    requires env.Valid()
  {
    set r, f | r in rs && f in RepoFacts(cs, env, r) :: f
  }

  ghost predicate ValidHttps(hs: seq<HttpSource>) {
    forall h :: h in hs && h.body.Some? ==> ValidBody(h.body.value)
  }

  ghost function HttpsFacts(cs: CategorySet, hs: seq<HttpSource>): set<Fact>
    requires ValidHttps(hs)
  {
    set h, f | h in hs && f in HttpFacts(cs, h) :: f
  }

  ghost predicate ValidAsns(as_: seq<AsnSource>) {
    forall a :: a in as_ && a.prefixes.Some? ==> AllValid(a.prefixes.value)
  }

  ghost function AsnsFacts(cs: CategorySet, as_: seq<AsnSource>): set<Fact>
    requires ValidAsns(as_)
  {
    set a, f | a in as_ && f in SelectedAsnFacts(cs, a) :: f
  }

  ghost predicate ValidFiles(fs: seq<FileSource>) {
    forall f :: f in fs && f.content.Lines? ==> AllValid(f.content.prefixes)
  }

  ghost function FilesFacts(cs: CategorySet, fs: seq<FileSource>): set<Fact>
    requires ValidFiles(fs)
  {
    set s, f | s in fs && f in SelectedFileFacts(cs, s) :: f
  }

  /** Everything a build with this selection lists. */
  ghost function BuildFacts(cs: CategorySet, w: World): set<Fact>
    requires w.Valid()
  {
    ReposFacts(cs, w.env, w.repos) + HttpsFacts(cs, w.https) + AsnsFacts(cs, w.asns) + FilesFacts(cs, w.files)
  }

  // ---- who lists what, field by field ----

  /** The repository has a selected list that some file of it lists this under. */
  ghost predicate RepoLists(cs: CategorySet, env: Env, r: RepoSource, fact: Fact)
    requires env.Valid()
  {
    r.tree.Some? &&
    exists ls, f :: ls in r.lists && Selects(cs, ls.category) && FileLists(env, r.name, ls, r.tree.value, f, fact)
  }

  /** The body lists this: under the source's provider, or under the key of its group. */
  ghost predicate BodyLists(h: HttpSource, b: HttpBody, fact: Fact)
    requires ValidBody(b)
  {
    && fact.membership.repository == h.name && fact.membership.list == h.list
    && fact.membership.category == Bit(h.category)
    && match b
       case Single(prefixes) => fact.membership.provider == h.provider && Collapses(prefixes, fact.prefix)
       case Grouped(groups) =>
         fact.membership.provider in groups && Collapses(groups[fact.membership.provider], fact.prefix)
  }

  /** The autonomous system announces this, under one of these categories. */
  ghost predicate AsnLists(a: AsnSource, categories: seq<string>, fact: Fact)
    requires a.prefixes.Some? && AllValid(a.prefixes.value)
  {
    && fact.membership.repository == "stat.ripe.net" && fact.membership.list == a.list
    && fact.membership.provider == a.provider
    && (exists c :: c in categories && fact.membership.category == Bit(c))
    && Collapses(a.prefixes.value, fact.prefix)
  }

  ghost predicate LinesList(f: FileSource, fact: Fact)
    requires f.content.Lines? && AllValid(f.content.prefixes)
  {
    && fact.membership.repository == f.name && fact.membership.list == f.list
    && fact.membership.provider == f.provider && fact.membership.category == Bit(f.category)
    && Collapses(f.content.prefixes, fact.prefix)
  }

  /** Some selected source lists the prefix under this membership. */
  ghost predicate SourceLists(cs: CategorySet, w: World, fact: Fact)
    requires w.Valid()
  {
    || (exists r :: r in w.repos && RepoLists(cs, w.env, r, fact))
    || (exists h :: h in w.https && Selects(cs, h.category) && h.body.Some? && BodyLists(h, h.body.value, fact))
    || (exists a :: a in w.asns && a.prefixes.Some? && AsnLists(a, Kept(a.categories, NameSelected(cs)), fact))
    || (exists f :: f in w.files && Selects(cs, f.category) && f.content.Lines? && LinesList(f, fact))
  }

  lemma RepoFactsAre(cs: CategorySet, env: Env, r: RepoSource, fact: Fact)
    requires env.Valid() && RepoReadable(cs, env, r)
    ensures fact in RepoFacts(cs, env, r) <==> RepoLists(cs, env, r, fact)
  {
    hide FileLists;
    var lists := Kept(r.lists, InSelection(cs));
    if r.tree.Some? {
      CollectFactsAre(env, r.name, lists, r.tree.value);
    }
    if lists != [] {
      assert RepoLists(cs, env, r, fact) <==>
             exists ls, f :: ls in lists && FileLists(env, r.name, ls, r.tree.value, f, fact);
    }
  }

  lemma BodyFactsAre(h: HttpSource, b: HttpBody, fact: Fact)
    requires ValidBody(b)
    ensures fact in BodyFacts(h, b) <==> BodyLists(h, b, fact)
  {
    MaskOfOne(h.category);
    hide MaskOf, Bit, CollapseV6;
    if BodyLists(h, b, fact) {
      var provider := fact.membership.provider;
      var p :| p in (if b.Single? then b.prefixes else b.groups[provider]) && fact.prefix == CollapseV6(p);
      assert fact == Fact(CollapseV6(p), Tag(h.name, h.list, provider, h.category));
    }
  }

  lemma AsnFactsAre(a: AsnSource, categories: seq<string>, fact: Fact)
    requires a.prefixes.Some? && AllValid(a.prefixes.value)
    ensures fact in AsnFacts(a, categories) <==> AsnLists(a, categories, fact)
  {
    forall c ensures MaskOf([c]) == Bit(c) { MaskOfOne(c); }
    hide MaskOf, Bit, CollapseV6;
    if AsnLists(a, categories, fact) {
      var c :| c in categories && fact.membership.category == Bit(c);
      var p :| p in a.prefixes.value && fact.prefix == CollapseV6(p);
      assert fact == Fact(CollapseV6(p), Tag("stat.ripe.net", a.list, a.provider, c));
    }
  }

  lemma FileFactsAre(f: FileSource, fact: Fact)
    requires f.content.Lines? && AllValid(f.content.prefixes)
    ensures fact in FileFacts(f) <==> LinesList(f, fact)
  {
    MaskOfOne(f.category);
    hide MaskOf, Bit, CollapseV6;
    if LinesList(f, fact) {
      var p :| p in f.content.prefixes && fact.prefix == CollapseV6(p);
      assert fact == Fact(CollapseV6(p), Tag(f.name, f.list, f.provider, f.category));
    }
  }

  /** What a build lists is what its selected sources list, under their own names. */
  lemma BuildFactsAre(cs: CategorySet, w: World, fact: Fact)
    requires w.Valid() && Readable(cs, w)
    ensures fact in BuildFacts(cs, w) <==> SourceLists(cs, w, fact)
  {
    ReposFactsAre(cs, w.env, w.repos, fact);
    HttpsFactsAre(cs, w.https, fact);
    AsnsFactsAre(cs, w.asns, fact);
    FilesFactsAre(cs, w.files, fact);
    hide ReposFacts, HttpsFacts, AsnsFacts, FilesFacts, RepoLists, BodyLists, AsnLists, LinesList;
  }

  lemma ReposFactsAre(cs: CategorySet, env: Env, rs: seq<RepoSource>, fact: Fact)
    requires env.Valid() && forall r :: r in rs ==> RepoReadable(cs, env, r)
    ensures fact in ReposFacts(cs, env, rs) <==> exists r :: r in rs && RepoLists(cs, env, r, fact)
  {
    hide RepoLists, RepoFacts;
    forall r | r in rs ensures fact in RepoFacts(cs, env, r) <==> RepoLists(cs, env, r, fact) {
      RepoFactsAre(cs, env, r, fact);
    }
  }

  lemma HttpsFactsAre(cs: CategorySet, hs: seq<HttpSource>, fact: Fact)
    requires ValidHttps(hs)
    ensures fact in HttpsFacts(cs, hs) <==>
              exists h :: h in hs && Selects(cs, h.category) && h.body.Some? && BodyLists(h, h.body.value, fact)
  {
    hide BodyFacts, BodyLists;
    forall h | h in hs
      ensures fact in HttpFacts(cs, h) <==>
                Selects(cs, h.category) && h.body.Some? && BodyLists(h, h.body.value, fact)
    {
      if h.body.Some? { BodyFactsAre(h, h.body.value, fact); }
    }
  }

  lemma AsnsFactsAre(cs: CategorySet, asns: seq<AsnSource>, fact: Fact)
    requires ValidAsns(asns)
    ensures fact in AsnsFacts(cs, asns) <==>
              exists a :: a in asns && a.prefixes.Some? && AsnLists(a, Kept(a.categories, NameSelected(cs)), fact)
  {
    hide AsnFacts, AsnLists;
    forall a | a in asns && a.prefixes.Some?
      ensures fact in SelectedAsnFacts(cs, a) <==> AsnLists(a, Kept(a.categories, NameSelected(cs)), fact)
    {
      AsnFactsAre(a, Kept(a.categories, NameSelected(cs)), fact);
    }
  }

  lemma FilesFactsAre(cs: CategorySet, fs: seq<FileSource>, fact: Fact)
    requires ValidFiles(fs)
    ensures fact in FilesFacts(cs, fs) <==>
              exists f :: f in fs && Selects(cs, f.category) && f.content.Lines? && LinesList(f, fact)
  {
    hide FileFacts, LinesList;
    forall f | f in fs
      ensures fact in SelectedFileFacts(cs, f) <==>
                Selects(cs, f.category) && f.content.Lines? && LinesList(f, fact)
    {
      if f.content.Lines? { FileFactsAre(f, fact); }
    }
  }

  // ---- the four loops ----

  /** The repository as this build gets to see it. */
  ghost function SeenRepo(r: RepoSource, dir: RepoDir?, now: int): RepoSource
    reads dir
  {
    r.(tree := SeenTree(r.tree, dir, now))
  }

  /** Every selected "**" pattern below a directory has a list there that a cache would keep. */
  ghost predicate RootsKept(cs: CategorySet, env: Env, r: RepoSource) {
    r.tree.Some? && Collectable(env, r.lists, r.tree.value) ==>
      forall ls :: ls in Kept(r.lists, InSelection(cs)) ==> RootKept(env, r.lists, r.tree.value, ls.glob)
  }

  /** It asks nothing of patterns that are not selected, or that keep their root whatever is cached. */
  lemma RootsOfSelected(cs: CategorySet, env: Env, r: RepoSource)
    requires r.tree.Some? && Collectable(env, r.lists, r.tree.value)
    ensures RootsKept(cs, env, r) <==>
              forall ls :: ls in r.lists && ls.category in cs && cs[ls.category]
                           && ls.glob.Deep? && ls.glob.root != [] && ls.glob.root != MARKER ==>
                exists f :: f in CachedFiles(env, r.lists, r.tree.value) && ls.glob.root <= f
  {
    assert forall ls :: ls in Kept(r.lists, InSelection(cs)) <==> ls in r.lists && Selects(cs, ls.category);
  }

  method CollectRepo(cs: CategorySet, env: Env, src: RepoSource, dir: RepoDir?, pass: Pass, store: Table)
    returns (ok: bool)
    requires env.Valid() && store.Valid() && Usable(env, src.lists, src.tree, dir, pass.now)
    modifies store, store.repr, dir
    ensures store.Valid() && fresh(store.repr - old(store.repr))
    ensures ok ==> RepoReadable(cs, env, old(SeenRepo(src, dir, pass.now)))
    ensures ok ==> store.facts == old(store.facts) + RepoFacts(cs, env, old(SeenRepo(src, dir, pass.now)))
    ensures var seen := old(SeenRepo(src, dir, pass.now));
            RepoReadable(cs, env, seen) && RootsKept(cs, env, seen) ==> ok
    ensures CacheAfter(env, src, dir, pass.now, old(SeenRepo(src, dir, pass.now)), old(FreshSince(dir, pass.now)))
  {
    ghost var seen := SeenRepo(src, dir, pass.now);
    var lists := SelectLists(cs, src.lists);
    if lists == [] {
      assert RepoFacts(cs, env, seen) == {};
      return true;
    }
    var fsys := RepoFS(env, src.lists, src.tree, dir, pass);
    if fsys == None {
      return false;
    }
    ServedCollectsTheClone(env, src.name, src.lists, seen.tree.value, fsys.value, lists);
    ok := Collect(env, src.name, lists, fsys.value, store);
  }

  /** What later builds get to see: as long as a cache that was fresh stays fresh, what this build
      saw, and otherwise what cloning gives now. */
  ghost predicate CacheAfter(env: Env, src: RepoSource, dir: RepoDir?, now: int, seen: RepoSource, since: Option<int>)
    reads dir
  {
    forall later :: now <= later ==>
      && Usable(env, src.lists, src.tree, dir, later)
      && SeenRepo(src, dir, later) == if since.Some? && later - since.value < CACHE_MAX_AGE then seen else src
  }

  /** When a fresh cache was written. */
  ghost function FreshSince(dir: RepoDir?, now: int): Option<int>
    reads dir
  {
    if dir != null && dir.Fresh(now) then Some(dir.markerTime) else None
  }

  lemma CacheUntouched(env: Env, src: RepoSource, dir: RepoDir?, now: int)
    requires Usable(env, src.lists, src.tree, dir, now)
    ensures CacheAfter(env, src, dir, now, SeenRepo(src, dir, now), FreshSince(dir, now))
  {}

  /** The cache directories of the repositories, one each, null where nothing is cached, and when the
      build gets to each. */
  datatype Caches = Caches(dirs: seq<RepoDir?>, passes: seq<Pass>)

  ghost predicate OneEach(rs: seq<RepoSource>, c: Caches) {
    && |c.dirs| == |c.passes| == |rs|
    && forall i, j :: 0 <= i < j < |c.dirs| && c.dirs[i] != null ==> c.dirs[i] != c.dirs[j]
  }

  ghost predicate AllUsable(env: Env, rs: seq<RepoSource>, c: Caches)
    reads c.dirs
  {
    OneEach(rs, c) && forall i :: 0 <= i < |rs| ==> UsableAt(env, rs, c, i)
  }

  ghost predicate UsableAt(env: Env, rs: seq<RepoSource>, c: Caches, i: nat)
    requires OneEach(rs, c) && i < |rs|
    reads c.dirs[i]
  {
    Usable(env, rs[i].lists, rs[i].tree, c.dirs[i], c.passes[i].now)
  }

  ghost function SeenRepos(rs: seq<RepoSource>, c: Caches): seq<RepoSource>
    requires OneEach(rs, c)
    reads c.dirs
  {
    seq(|rs|, i requires 0 <= i < |rs| reads c.dirs => SeenRepo(rs[i], c.dirs[i], c.passes[i].now))
  }

  /** Which caches are fresh when the build gets to them, and since when. */
  ghost function FreshDirs(c: Caches): seq<Option<int>>
    requires |c.dirs| == |c.passes|
    reads c.dirs
  {
    seq(|c.dirs|, i requires 0 <= i < |c.dirs| reads c.dirs => FreshSince(c.dirs[i], c.passes[i].now))
  }

  ghost predicate CachesAfter(env: Env, rs: seq<RepoSource>, c: Caches, seen: seq<RepoSource>, since: seq<Option<int>>)
    requires OneEach(rs, c) && |seen| == |since| == |rs|
    reads c.dirs
  {
    forall i :: 0 <= i < |rs| ==> CacheAfter(env, rs[i], c.dirs[i], c.passes[i].now, seen[i], since[i])
  }

  method CollectRepos(cs: CategorySet, env: Env, rs: seq<RepoSource>, c: Caches, store: Table) returns (ok: bool)
    requires env.Valid() && store.Valid() && AllUsable(env, rs, c)
    modifies store, store.repr, c.dirs
    ensures store.Valid() && fresh(store.repr - old(store.repr))
    ensures ok ==> forall r :: r in old(SeenRepos(rs, c)) ==> RepoReadable(cs, env, r)
    ensures ok ==> store.facts == old(store.facts) + ReposFacts(cs, env, old(SeenRepos(rs, c)))
    ensures (forall r :: r in old(SeenRepos(rs, c)) ==> RepoReadable(cs, env, r) && RootsKept(cs, env, r)) ==> ok
    ensures CachesAfter(env, rs, c, old(SeenRepos(rs, c)), old(FreshDirs(c)))
  {
    hide Usable, CacheAfter, SeenRepo, FreshSince, RepoReadable, RootsKept, RepoFacts, ReposFacts, Midway, CachesAfter;
    ghost var start, seen, since := store.facts, SeenRepos(rs, c), FreshDirs(c);
    ghost var done: set<Fact> := {};
    assert ReposFacts(cs, env, seen[..0]) == {} by { NoRepos(cs, env); }
    MidwayStarts(env, rs, c);
    for i := 0 to |rs|
      invariant store.Valid() && fresh(store.repr - old(store.repr))
      invariant forall r :: r in seen[..i] ==> RepoReadable(cs, env, r)
      invariant done == ReposFacts(cs, env, seen[..i]) && store.facts == start + done
      invariant Midway(env, rs, c, i, seen, since)
    {
      ok := CollectNext(cs, env, rs, c, i, store, seen, since);
      if !ok {
        MidwayEnds(env, rs, c, i + 1, seen, since);
        return;
      }
      SeenSnoc(cs, env, seen, i);
      done := done + RepoFacts(cs, env, seen[i]);
    }
    MidwayEnds(env, rs, c, |rs|, seen, since);
    assert seen[..|rs|] == seen;
    ok := true;
  }

  /** One round of the loop over repositories. */
  method CollectNext(cs: CategorySet, env: Env, rs: seq<RepoSource>, c: Caches, i: nat, store: Table,
                     ghost seen: seq<RepoSource>, ghost since: seq<Option<int>>) returns (ok: bool)
    requires env.Valid() && store.Valid() && i < |rs| && Midway(env, rs, c, i, seen, since)
    modifies store, store.repr, c.dirs[i]
    ensures store.Valid() && fresh(store.repr - old(store.repr))
    ensures Midway(env, rs, c, i + 1, seen, since) && seen[i] in seen
    ensures ok ==> RepoReadable(cs, env, seen[i]) && store.facts == old(store.facts) + RepoFacts(cs, env, seen[i])
    ensures RepoReadable(cs, env, seen[i]) && RootsKept(cs, env, seen[i]) ==> ok
  {
    hide Usable, CacheAfter, SeenRepo, FreshSince, RepoReadable, RootsKept, RepoFacts;
    MidwayAt(env, rs, c, i, seen, since);
    ok := CollectRepo(cs, env, rs[i], c.dirs[i], c.passes[i], store);
  }

  /** Before the i-th repository: every cache is ready for later builds, and those still to come are
      as they were at the start. */
  ghost predicate Midway(env: Env, rs: seq<RepoSource>, c: Caches, i: nat, seen: seq<RepoSource>,
                         since: seq<Option<int>>)
    reads c.dirs
  {
    && OneEach(rs, c) && i <= |seen| == |since| == |rs|
    && (forall k :: 0 <= k < |rs| ==> CacheAfter(env, rs[k], c.dirs[k], c.passes[k].now, seen[k], since[k]))
    && (forall k :: i <= k < |rs| ==> UsableAt(env, rs, c, k))
    && (forall k :: i <= k < |rs| ==> SeenRepo(rs[k], c.dirs[k], c.passes[k].now) == seen[k])
    && (forall k :: i <= k < |rs| ==> FreshSince(c.dirs[k], c.passes[k].now) == since[k])
  }

  lemma MidwayStarts(env: Env, rs: seq<RepoSource>, c: Caches)
    requires AllUsable(env, rs, c)
    ensures Midway(env, rs, c, 0, SeenRepos(rs, c), FreshDirs(c))
  {
    hide Usable, CacheAfter, SeenRepo, FreshSince;
    forall k | 0 <= k < |rs|
      ensures CacheAfter(env, rs[k], c.dirs[k], c.passes[k].now, SeenRepos(rs, c)[k], FreshDirs(c)[k])
    {
      assert UsableAt(env, rs, c, k);
      CacheUntouched(env, rs[k], c.dirs[k], c.passes[k].now);
    }
  }

  lemma MidwayAt(env: Env, rs: seq<RepoSource>, c: Caches, i: nat, seen: seq<RepoSource>, since: seq<Option<int>>)
    requires Midway(env, rs, c, i, seen, since) && i < |rs|
    ensures Usable(env, rs[i].lists, rs[i].tree, c.dirs[i], c.passes[i].now)
    ensures SeenRepo(rs[i], c.dirs[i], c.passes[i].now) == seen[i] && FreshSince(c.dirs[i], c.passes[i].now) == since[i]
    ensures seen[i] in seen
  {
    hide Usable, CacheAfter, SeenRepo, FreshSince;
    assert UsableAt(env, rs, c, i);
  }

  lemma MidwayEnds(env: Env, rs: seq<RepoSource>, c: Caches, i: nat, seen: seq<RepoSource>, since: seq<Option<int>>)
    requires Midway(env, rs, c, i, seen, since)
    ensures CachesAfter(env, rs, c, seen, since)
  {}

  lemma NoRepos(cs: CategorySet, env: Env)
    requires env.Valid()
    ensures ReposFacts(cs, env, []) == {}
  {}

  lemma SeenSnoc(cs: CategorySet, env: Env, seen: seq<RepoSource>, i: nat)
    requires env.Valid() && i < |seen|
    ensures seen[..i + 1] == seen[..i] + [seen[i]]
    ensures ReposFacts(cs, env, seen[..i + 1]) == ReposFacts(cs, env, seen[..i]) + RepoFacts(cs, env, seen[i])
  {
    assert seen[..i + 1] == seen[..i] + [seen[i]];
  }

  /** collectHTTP once the body is there: one membership, or one per group in any order. */
  method FoldBody(h: HttpSource, b: HttpBody, store: Table)
    requires store.Valid() && ValidBody(b)
    modifies store, store.repr
    ensures store.Valid() && fresh(store.repr - old(store.repr))
    ensures store.facts == old(store.facts) + BodyFacts(h, b)
    ensures forall fact :: fact in store.facts <==> fact in old(store.facts) || BodyLists(h, b, fact)
  {
    forall fact ensures fact in BodyFacts(h, b) <==> BodyLists(h, b, fact) { BodyFactsAre(h, b, fact); }
    hide BodyLists, FactsOf, WellFormed, Tag;
    if b.Single? {
      var _ := Fold(store, b.prefixes, Tag(h.name, h.list, h.provider, h.category));
      return;
    }
    ghost var start := store.facts;
    ghost var done: map<string, seq<Prefix>> := map[];
    var todo := b.groups.Keys;
    while todo != {}
      invariant done.Keys + todo == b.groups.Keys && (forall g :: g in done ==> done[g] == b.groups[g])
      invariant ValidBody(Grouped(done))
      invariant store.Valid() && fresh(store.repr - old(store.repr))
      invariant store.facts == start + BodyFacts(h, Grouped(done))
      decreases todo
    {
      var provider :| provider in todo;
      todo := todo - {provider};
      var _ := Fold(store, b.groups[provider], Tag(h.name, h.list, provider, h.category));
      OneMoreGroup(h, done, provider, b.groups[provider]);
      done := done[provider := b.groups[provider]];
    }
    assert done == b.groups;
  }

  lemma OneMoreGroup(h: HttpSource, done: map<string, seq<Prefix>>, provider: string, prefixes: seq<Prefix>)
    requires ValidBody(Grouped(done)) && AllValid(prefixes)
    requires provider in done ==> done[provider] == prefixes
    ensures ValidBody(Grouped(done[provider := prefixes]))
    ensures BodyFacts(h, Grouped(done[provider := prefixes]))
         == BodyFacts(h, Grouped(done)) + Folded(prefixes, Tag(h.name, h.list, provider, h.category))
  {
    var more := done[provider := prefixes];
    forall f ensures f in BodyFacts(h, Grouped(more))
                <==> f in BodyFacts(h, Grouped(done))
                     || f in Folded(prefixes, Tag(h.name, h.list, provider, h.category))
    {
      if f in BodyFacts(h, Grouped(more)) {
        var g, p :| g in more && p in more[g] && f == Fact(CollapseV6(p), Tag(h.name, h.list, g, h.category));
        if g != provider {
          assert g in done && p in done[g];
        }
      }
      if f in Folded(prefixes, Tag(h.name, h.list, provider, h.category)) {
        var p :| p in prefixes && f == Fact(CollapseV6(p), Tag(h.name, h.list, provider, h.category));
        assert provider in more && p in more[provider];
      }
      if f in BodyFacts(h, Grouped(done)) {
        var g, p :| g in done && p in done[g] && f == Fact(CollapseV6(p), Tag(h.name, h.list, g, h.category));
        assert g in more && p in more[g];
      }
    }
  }

  method CollectHttps(cs: CategorySet, hs: seq<HttpSource>, store: Table) returns (ok: bool)
    requires store.Valid() && ValidHttps(hs)
    modifies store, store.repr
    ensures store.Valid() && fresh(store.repr - old(store.repr))
    ensures ok <==> forall h :: h in hs ==> HttpReadable(cs, h)
    ensures ok ==> store.facts == old(store.facts) + HttpsFacts(cs, hs)
  {
    hide FactsOf, WellFormed;
    ghost var start := store.facts;
    ghost var done: set<Fact> := {};
    for i := 0 to |hs|
      invariant store.Valid() && fresh(store.repr - old(store.repr))
      invariant ValidHttps(hs[..i])
      invariant forall h :: h in hs[..i] ==> HttpReadable(cs, h)
      invariant done == HttpsFacts(cs, hs[..i]) && store.facts == start + done
    {
      var src := hs[i];
      assert hs[..i + 1] == hs[..i] + [src];
      done := done + HttpFacts(cs, src);
      if !Selects(cs, src.category) {
        continue;
      }
      if src.body == None {
        assert src in hs && !HttpReadable(cs, src);
        return false;
      }
      FoldBody(src, src.body.value, store);
    }
    assert hs[..|hs|] == hs;
    ok := true;
  }

  /** What a response announces may be out of range. */
  predicate InRange(p: Prefix) { p.bits <= Width(p.family) && p.Address().Valid() }

  ghost predicate CoveredBy(prefixes: seq<Prefix>, a: Addr) { exists p :: p in prefixes && InRange(p) && p.Covers(a) }

  /** The announcements in range, masked, in their order. */
  function Announced(announced: seq<Prefix>): seq<Prefix> {
    if announced == [] then []
    else
      var before, last := Announced(announced[..|announced| - 1]), announced[|announced| - 1];
      if InRange(last) then before + [last.Masked()] else before
  }

  /** asnPrefixes: those, which are over exactly the addresses that the valid announcements are over. */
  method AsnPrefixes(announced: seq<Prefix>) returns (out: seq<Prefix>)
    ensures out == Announced(announced) && AllValid(out)
    ensures forall a :: CoveredBy(out, a) <==> CoveredBy(announced, a)
    ensures forall q :: q in out <==> exists p :: p in announced && Announces(p, q)
  {
    out := [];
    for i := 0 to |announced|
      invariant out == Announced(announced[..i])
    {
      assert announced[..i + 1][..i] == announced[..i];
      if InRange(announced[i]) {
        out := out + [announced[i].Masked()];
      }
    }
    assert announced[..|announced|] == announced;
    AnnouncedCovers(announced);
    AnnouncedAre(announced);
  }

  /** The announcement is a prefix with no more bits than its family has, and this is its masked form. */
  predicate Announces(p: Prefix, q: Prefix) {
    p.bits <= Width(p.family) && Shr(p.value, Width(p.family)) == 0 && q == p.Masked()
  }

  lemma {:induction false} AnnouncedAre(announced: seq<Prefix>)
    ensures forall q :: q in Announced(announced) <==> exists p :: p in announced && Announces(p, q)
  {
    if announced != [] {
      var before, last := announced[..|announced| - 1], announced[|announced| - 1];
      AnnouncedAre(before);
      assert announced == before + [last];
      forall q ensures q in Announced(announced) <==> exists p :: p in announced && Announces(p, q) {
        assert q in Announced(announced) <==> q in Announced(before) || (InRange(last) && q == last.Masked());
        assert InRange(last) && q == last.Masked() <==> Announces(last, q);
        assert (exists p :: p in announced && Announces(p, q)) <==>
               Announces(last, q) || exists p :: p in before && Announces(p, q);
      }
    }
  }

  lemma {:induction false} AnnouncedCovers(announced: seq<Prefix>)
    ensures AllValid(Announced(announced))
    ensures forall a :: CoveredBy(Announced(announced), a) <==> CoveredBy(announced, a)
  {
    if announced != [] {
      var before, last := announced[..|announced| - 1], announced[|announced| - 1];
      AnnouncedCovers(before);
      assert announced == before + [last];
      if InRange(last) {
        MaskedIsValid(last);
      }
      forall a ensures CoveredBy(Announced(announced), a) <==> CoveredBy(announced, a) {
        AnnouncedMore(before, last, a);
        if InRange(last) {
          AnnouncedMore(Announced(before), last.Masked(), a);
        }
      }
    }
  }

  lemma AnnouncedMore(prefixes: seq<Prefix>, p: Prefix, a: Addr)
    ensures CoveredBy(prefixes + [p], a) <==> CoveredBy(prefixes, a) || (InRange(p) && p.Covers(a))
  {
    assert forall q :: q in prefixes + [p] <==> q in prefixes || q == p;
  }

  /** foldAS: every announced prefix, once per category. */
  method FoldAS(a: AsnSource, categories: seq<string>, store: Table)
    requires store.Valid() && a.prefixes.Some? && AllValid(a.prefixes.value)
    modifies store, store.repr
    ensures store.Valid() && fresh(store.repr - old(store.repr))
    ensures store.facts == old(store.facts) + AsnFacts(a, categories)
    ensures forall fact :: fact in store.facts <==> fact in old(store.facts) || AsnLists(a, categories, fact)
  {
    forall fact ensures fact in AsnFacts(a, categories) <==> AsnLists(a, categories, fact) {
      AsnFactsAre(a, categories, fact);
    }
    hide FactsOf, WellFormed, AsnLists, Tag;
    ghost var start := store.facts;
    for i := 0 to |categories|
      invariant store.Valid() && fresh(store.repr - old(store.repr))
      invariant store.facts == start + AsnFacts(a, categories[..i])
    {
      var m := Tag("stat.ripe.net", a.list, a.provider, categories[i]);
      var _ := Fold(store, a.prefixes.value, m);
      assert categories[..i + 1] == categories[..i] + [categories[i]];
      assert AsnFacts(a, categories[..i + 1]) == AsnFacts(a, categories[..i]) + Folded(a.prefixes.value, m);
    }
    assert categories[..|categories|] == categories;
  }

  method CollectAsn(cs: CategorySet, src: AsnSource, store: Table) returns (ok: bool)
    requires store.Valid() && (src.prefixes.Some? ==> AllValid(src.prefixes.value))
    modifies store, store.repr
    ensures store.Valid() && fresh(store.repr - old(store.repr))
    ensures ok <==> AsnReadable(cs, src)
    ensures ok ==> store.facts == old(store.facts) + SelectedAsnFacts(cs, src)
  {
    var categories := Intersect(cs, src.categories);
    if categories == [] {
      assert SelectedAsnFacts(cs, src) == {};
      return true;
    }
    if src.prefixes == None {
      return false;
    }
    FoldAS(src, categories, store);
    ok := true;
  }

  lemma AsnsSnoc(cs: CategorySet, asns: seq<AsnSource>, i: nat)
    requires ValidAsns(asns) && i < |asns|
    ensures asns[..i + 1] == asns[..i] + [asns[i]]
    ensures AsnsFacts(cs, asns[..i + 1]) == AsnsFacts(cs, asns[..i]) + SelectedAsnFacts(cs, asns[i])
  {
    assert asns[..i + 1] == asns[..i] + [asns[i]];
  }

  method CollectAsns(cs: CategorySet, asns: seq<AsnSource>, store: Table) returns (ok: bool)
    requires store.Valid() && ValidAsns(asns)
    modifies store, store.repr
    ensures store.Valid() && fresh(store.repr - old(store.repr))
    ensures ok <==> forall a :: a in asns ==> AsnReadable(cs, a)
    ensures ok ==> store.facts == old(store.facts) + AsnsFacts(cs, asns)
  {
    hide FactsOf, WellFormed;
    ghost var start := store.facts;
    ghost var done: set<Fact> := {};
    for i := 0 to |asns|
      invariant store.Valid() && fresh(store.repr - old(store.repr))
      invariant ValidAsns(asns[..i])
      invariant forall a :: a in asns[..i] ==> AsnReadable(cs, a)
      invariant done == AsnsFacts(cs, asns[..i]) && store.facts == start + done
    {
      ok := CollectAsn(cs, asns[i], store);
      if !ok {
        assert asns[i] in asns;
        return;
      }
      AsnsSnoc(cs, asns, i);
      done := done + SelectedAsnFacts(cs, asns[i]);
    }
    assert asns[..|asns|] == asns;
    ok := true;
  }

  method CollectFiles(cs: CategorySet, fs: seq<FileSource>, store: Table) returns (ok: bool)
    requires store.Valid() && ValidFiles(fs)
    modifies store, store.repr
    ensures store.Valid() && fresh(store.repr - old(store.repr))
    ensures ok <==> forall f :: f in fs ==> FileReadable(cs, f)
    ensures ok ==> store.facts == old(store.facts) + FilesFacts(cs, fs)
  {
    hide FactsOf, WellFormed;
    ghost var start := store.facts;
    ghost var done: set<Fact> := {};
    for i := 0 to |fs|
      invariant store.Valid() && fresh(store.repr - old(store.repr))
      invariant ValidFiles(fs[..i])
      invariant forall f :: f in fs[..i] ==> FileReadable(cs, f)
      invariant done == FilesFacts(cs, fs[..i]) && store.facts == start + done
    {
      var src := fs[i];
      assert fs[..i + 1] == fs[..i] + [src];
      done := done + SelectedFileFacts(cs, src);
      if !Selects(cs, src.category) {
        continue;
      }
      if !src.content.Lines? {
        assert src in fs && !FileReadable(cs, src);
        return false;
      }
      var _ := Fold(store, src.content.prefixes, Tag(src.name, src.list, src.provider, src.category));
    }
    assert fs[..|fs|] == fs;
    ok := true;
  }

  /** The sources as this build gets to see them: repositories through their caches. */
  ghost function Seen(w: World, c: Caches): World
    requires OneEach(w.repos, c)
    reads c.dirs
  {
    w.(repos := SeenRepos(w.repos, c))
  }

  ghost predicate AllRootsKept(cs: CategorySet, w: World) {
    forall r :: r in w.repos ==> RootsKept(cs, w.env, r)
  }

  /** The part of run that fills the store. */
  method CollectAll(cs: CategorySet, w: World, c: Caches) returns (store: Table, ok: bool)
    requires w.Valid() && AllUsable(w.env, w.repos, c)
    modifies c.dirs
    ensures fresh(store) && fresh(store.repr) && store.Valid()
    ensures ok ==> Readable(cs, old(Seen(w, c)))
    ensures ok ==> store.facts == BuildFacts(cs, old(Seen(w, c)))
    ensures ok ==> forall fact :: fact in store.facts <==> SourceLists(cs, old(Seen(w, c)), fact)
    ensures Readable(cs, old(Seen(w, c))) && AllRootsKept(cs, old(Seen(w, c))) ==> ok
    ensures CachesAfter(w.env, w.repos, c, old(SeenRepos(w.repos, c)), old(FreshDirs(c)))
  {
    hide ReposFacts, HttpsFacts, AsnsFacts, FilesFacts, RepoReadable, RootsKept, CachesAfter, SourceLists;
    ghost var seen := Seen(w, c);
    store := new Table();
    assert store.facts == {};
    ok := CollectRepos(cs, w.env, w.repos, c, store);
    if !ok { return; }
    ok := CollectRest(cs, seen, w.https, w.asns, w.files, store);
    if ok {
      forall fact ensures fact in store.facts <==> SourceLists(cs, seen, fact) { BuildFactsAre(cs, seen, fact); }
    }
  }

  /** The loops over the sources that are not repositories. */
  method CollectRest(cs: CategorySet, ghost w: World, https: seq<HttpSource>, asns: seq<AsnSource>,
                     files: seq<FileSource>, store: Table)
    returns (ok: bool)
    requires store.Valid() && w.Valid() && w.https == https && w.asns == asns && w.files == files
    requires store.facts == ReposFacts(cs, w.env, w.repos)
    modifies store, store.repr
    ensures store.Valid() && fresh(store.repr - old(store.repr))
    ensures ok <==> (forall h :: h in https ==> HttpReadable(cs, h)) && (forall a :: a in asns ==> AsnReadable(cs, a))
                    && (forall f :: f in files ==> FileReadable(cs, f))
    ensures ok ==> store.facts == BuildFacts(cs, w)
  {
    hide ReposFacts, HttpsFacts, AsnsFacts, FilesFacts, HttpReadable, AsnReadable, FileReadable;
    ghost var fromRepos := store.facts;
    ok := CollectHttps(cs, https, store);
    if !ok { return; }
    ghost var fromHttps := HttpsFacts(cs, https);
    ok := CollectAsns(cs, asns, store);
    if !ok { return; }
    assert store.facts == fromRepos + fromHttps + AsnsFacts(cs, asns);
    ok := CollectFiles(cs, files, store);
  }

  // ---- filtering commutes with building ----

  ghost function Restricted(facts: set<Fact>, cs: CategorySet): set<Fact> {
    set f | f in facts && Has(f.membership.category, SelectionMask(cs))
  }

  lemma RepoFiltered(cs: CategorySet, full: CategorySet, env: Env, r: RepoSource)
    requires env.Valid() && OnlyKnown(cs) && SelectsAll(full)
    requires RepoReadable(full, env, r)
    ensures RepoReadable(cs, env, r)
    ensures RepoFacts(cs, env, r) == Restricted(RepoFacts(full, env, r), cs)
  {
    var some, all := Kept(r.lists, InSelection(cs)), Kept(r.lists, InSelection(full));
    assert forall ls :: ls in some ==> ls in all;
    if some != [] {
      assert some[0] in all;
    }
    if all != [] {
      var t := r.tree.value;
      forall f
        ensures f in CollectFacts(env, r.name, some, t) <==> f in Restricted(CollectFacts(env, r.name, all, t), cs)
      {
        if f in CollectFacts(env, r.name, some, t) {
          var ls :| ls in some && f in ListFacts(env, r.name, ls, MatchFiles(env, t, ls.glob).value, t);
          SelectionByMask(cs, ls.category);
        }
        if f in Restricted(CollectFacts(env, r.name, all, t), cs) {
          var ls :| ls in all && f in ListFacts(env, r.name, ls, MatchFiles(env, t, ls.glob).value, t);
          SelectionByMask(cs, ls.category);
          assert ls in some;
        }
      }
    }
  }

  lemma BodyCategory(h: HttpSource, b: HttpBody, f: Fact)
    requires ValidBody(b) && f in BodyFacts(h, b)
    ensures f.membership.category == MaskOf([h.category])
  {}

  lemma HttpFiltered(cs: CategorySet, full: CategorySet, h: HttpSource)
    requires OnlyKnown(cs) && SelectsAll(full)
    requires h.body.Some? ==> ValidBody(h.body.value)
    ensures HttpFacts(cs, h) == Restricted(HttpFacts(full, h), cs)
  {
    SelectionByMask(cs, h.category);
    if h.body.Some? {
      forall f | f in BodyFacts(h, h.body.value) ensures f.membership.category == MaskOf([h.category]) {
        BodyCategory(h, h.body.value, f);
      }
    }
  }

  lemma AsnFiltered(cs: CategorySet, full: CategorySet, a: AsnSource)
    requires OnlyKnown(cs) && SelectsAll(full)
    requires a.prefixes.Some? ==> AllValid(a.prefixes.value)
    ensures AsnReadable(full, a) ==> AsnReadable(cs, a)
    ensures SelectedAsnFacts(cs, a) == Restricted(SelectedAsnFacts(full, a), cs)
  {
    var some, all := Kept(a.categories, NameSelected(cs)), Kept(a.categories, NameSelected(full));
    if some != [] {
      var c := some[0];
      assert c in some && NameSelected(cs)(c);
      assert NameSelected(full)(c) && c in all;
    }
    if a.prefixes.Some? {
      forall f ensures f in AsnFacts(a, some) <==> f in Restricted(AsnFacts(a, all), cs) {
        if f in AsnFacts(a, some) {
          var c, p :| c in some && p in a.prefixes.value
                      && f == Fact(CollapseV6(p), Tag("stat.ripe.net", a.list, a.provider, c));
          SelectionByMask(cs, c);
          assert c in all;
        }
        if f in Restricted(AsnFacts(a, all), cs) {
          var c, p :| c in all && p in a.prefixes.value
                      && f == Fact(CollapseV6(p), Tag("stat.ripe.net", a.list, a.provider, c));
          SelectionByMask(cs, c);
          assert c in some;
        }
      }
    }
  }

  lemma FileFiltered(cs: CategorySet, full: CategorySet, s: FileSource)
    requires OnlyKnown(cs) && SelectsAll(full)
    requires s.content.Lines? ==> AllValid(s.content.prefixes)
    ensures SelectedFileFacts(cs, s) == Restricted(SelectedFileFacts(full, s), cs)
  {
    SelectionByMask(cs, s.category);
  }

  lemma ReposFiltered(cs: CategorySet, full: CategorySet, env: Env, rs: seq<RepoSource>)
    requires env.Valid() && OnlyKnown(cs) && SelectsAll(full)
    requires forall r :: r in rs ==> RepoReadable(full, env, r)
    ensures forall r :: r in rs ==> RepoReadable(cs, env, r)
    ensures ReposFacts(cs, env, rs) == Restricted(ReposFacts(full, env, rs), cs)
  {
    forall r | r in rs
      ensures RepoReadable(cs, env, r) && RepoFacts(cs, env, r) == Restricted(RepoFacts(full, env, r), cs)
    {
      RepoFiltered(cs, full, env, r);
    }
    var some, all := ReposFacts(cs, env, rs), Restricted(ReposFacts(full, env, rs), cs);
    forall f | f in some ensures f in all {
      var r :| r in rs && f in RepoFacts(cs, env, r);
      assert f in Restricted(RepoFacts(full, env, r), cs);
    }
    forall f | f in all ensures f in some {
      var r :| r in rs && f in RepoFacts(full, env, r);
      assert f in Restricted(RepoFacts(full, env, r), cs);
    }
  }

  lemma HttpsFiltered(cs: CategorySet, full: CategorySet, hs: seq<HttpSource>)
    requires OnlyKnown(cs) && SelectsAll(full) && ValidHttps(hs)
    ensures HttpsFacts(cs, hs) == Restricted(HttpsFacts(full, hs), cs)
  {
    forall h | h in hs ensures HttpFacts(cs, h) == Restricted(HttpFacts(full, h), cs) { HttpFiltered(cs, full, h); }
  }

  lemma AsnsFiltered(cs: CategorySet, full: CategorySet, asns: seq<AsnSource>)
    requires OnlyKnown(cs) && SelectsAll(full) && ValidAsns(asns)
    requires forall a :: a in asns ==> AsnReadable(full, a)
    ensures forall a :: a in asns ==> AsnReadable(cs, a)
    ensures AsnsFacts(cs, asns) == Restricted(AsnsFacts(full, asns), cs)
  {
    forall a | a in asns
      ensures AsnReadable(cs, a) && SelectedAsnFacts(cs, a) == Restricted(SelectedAsnFacts(full, a), cs)
    {
      AsnFiltered(cs, full, a);
    }
    var some, all := AsnsFacts(cs, asns), Restricted(AsnsFacts(full, asns), cs);
    forall f | f in some ensures f in all {
      var a :| a in asns && f in SelectedAsnFacts(cs, a);
      assert f in Restricted(SelectedAsnFacts(full, a), cs);
    }
    forall f | f in all ensures f in some {
      var a :| a in asns && f in SelectedAsnFacts(full, a);
      assert f in Restricted(SelectedAsnFacts(full, a), cs);
    }
  }

  lemma FilesFiltered(cs: CategorySet, full: CategorySet, fs: seq<FileSource>)
    requires OnlyKnown(cs) && SelectsAll(full) && ValidFiles(fs)
    ensures FilesFacts(cs, fs) == Restricted(FilesFacts(full, fs), cs)
  {
    forall s | s in fs ensures SelectedFileFacts(cs, s) == Restricted(SelectedFileFacts(full, s), cs) {
      FileFiltered(cs, full, s);
    }
  }

  /** Narrowing the sources is narrowing the result: when the full build can read its sources
      so can the filtered one, and it lists exactly the full build's selected memberships. */
  lemma FilteringCommutes(cs: CategorySet, full: CategorySet, w: World)
    requires w.Valid() && OnlyKnown(cs) && SelectsAll(full) && Readable(full, w)
    ensures Readable(cs, w)
    ensures BuildFacts(cs, w) == Restricted(BuildFacts(full, w), cs)
  {
    hide ReposFacts, HttpsFacts, AsnsFacts, FilesFacts, RepoReadable;
    ReposFiltered(cs, full, w.env, w.repos);
    HttpsFiltered(cs, full, w.https);
    AsnsFiltered(cs, full, w.asns);
    FilesFiltered(cs, full, w.files);
  }

  ghost function RestrictedMembers(ms: set<ListMembership>, cs: CategorySet): set<ListMembership> {
    set m | m in ms && Has(m.category, SelectionMask(cs))
  }

  /** On every address, the filtered build answers with the full build's memberships in the
      selected categories, and finds the address exactly when there are any. */
  lemma FilteredAnswer(cs: CategorySet, full: CategorySet, w: World, v: View, merged: View,
                       v': View, merged': View, a: Addr)
    requires w.Valid() && OnlyKnown(cs) && SelectsAll(full) && Readable(full, w)
    requires WellFormed(v) && FactsOf(v) == BuildFacts(full, w) && IsMerge(v, merged)
    requires WellFormed(v') && FactsOf(v') == BuildFacts(cs, w) && IsMerge(v', merged')
    ensures Answer(merged', a)
         == (match Answer(merged, a)
             case None => None
             case Some(ms) => NonEmpty(RestrictedMembers(ms, cs)))
  {
    FilteringCommutes(cs, full, w);
    MergedAnswer(v, merged, a);
    MergedAnswer(v', merged', a);
    RestrictedCovering(BuildFacts(full, w), cs, a);
  }

  lemma RestrictedCovering(facts: set<Fact>, cs: CategorySet, a: Addr)
    ensures Covering(Restricted(facts, cs), a) == RestrictedMembers(Covering(facts, a), cs)
  {}
}
