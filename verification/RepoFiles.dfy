/** A source repository's list files: globbing, collecting, and the on-disk cache that every
    build shares (cmd/mkdatabase/sources.go). */
module RepoFiles {
  import opened Prefixes
  import opened Categories
  import opened Records
  import opened Stores

  type Path = seq<string>

  /** Regular files by path; the directories are the proper beginnings of those paths. */
  type Tree = map<Path, string>

  /** A list pattern, already split: no "**", or the directory before "**" and the file name
      pattern after it. */
  datatype Glob = Plain(pattern: string) | Deep(root: Path, base: string)

  /** parser names the function that reads a list's lines. */
  datatype ListSpec = ListSpec(glob: Glob, category: string, provider: string, parser: string)

  /** The library and per-format functions the loops here call. */
  datatype Env = Env(
    matchPath: (string, Path) -> bool,
    matchName: (string, string) -> bool,
    parse: (string, string) -> seq<Prefix>,
    deriveProvider: Path -> string,
    pathText: Path -> string
  ) {
    ghost predicate Valid() {
      forall parser, data :: AllValid(parse(parser, data))
    }
  }

  ghost predicate ValidTree(t: Tree) {
    && [] !in t
    && forall f, g :: f in t && g in t && f <= g ==> f == g
  }

  predicate IsDir(t: Tree, d: Path) {
    d == [] || exists f :: f in t && d < f
  }

  function DirsOf(t: Tree): set<Path> {
    set f, k | f in t && 0 < k < |f| :: f[..k]
  }

  predicate RootExists(t: Tree, root: Path) { root in t || IsDir(t, root) }

  /** matchFiles. A plain pattern may name a directory; a "**" pattern fails when its root
      directory is missing. */
  function MatchFiles(env: Env, t: Tree, g: Glob): Option<set<Path>> {
    match g
    case Plain(pattern) =>
      Some((set f | f in t && env.matchPath(pattern, f)) + (set d | d in DirsOf(t) && env.matchPath(pattern, d)))
    case Deep(root, base) =>
      if !RootExists(t, root) then None
      else Some(set f | f in t && f != [] && root <= f && env.matchName(base, f[|f| - 1]))
  }

  function MembershipFor(env: Env, repo: string, ls: ListSpec, file: Path): ListMembership {
    ListMembership(repo, env.pathText(file),
                   if ls.provider == "" then env.deriveProvider(file) else ls.provider,
                   MaskOf([ls.category]))
  }

  /** Every pattern matches and every match is a readable file. */
  ghost predicate Collectable(env: Env, lists: seq<ListSpec>, t: Tree) {
    forall ls :: ls in lists ==> MatchFiles(env, t, ls.glob).Some? && MatchFiles(env, t, ls.glob).value <= t.Keys
  }

  ghost function ListFacts(env: Env, repo: string, ls: ListSpec, files: set<Path>, t: Tree): set<Fact>
    requires env.Valid()
  {
    set f, p | f in files && f in t && p in env.parse(ls.parser, t[f])
      :: Fact(CollapseV6(p), MembershipFor(env, repo, ls, f))
  }

  /** What collecting some lists from a tree lists. */
  ghost function CollectFacts(env: Env, repo: string, lists: seq<ListSpec>, t: Tree): set<Fact>
    requires env.Valid() && Collectable(env, lists, t)
  {
    set ls, fact | ls in lists && fact in ListFacts(env, repo, ls, MatchFiles(env, t, ls.glob).value, t) :: fact
  }

  // ---- which files are lists, and what they list ----

  /** The pattern picks the file: by its whole path, or at any depth below the root by its last name. */
  ghost predicate Picks(env: Env, g: Glob, f: Path) {
    match g
    case Plain(pattern) => env.matchPath(pattern, f)
    case Deep(root, base) => f != [] && root <= f && env.matchName(base, f[|f| - 1])
  }

  /** The pattern can be followed: its root is there, or it picks no directory. */
  ghost predicate Followed(env: Env, g: Glob, t: Tree) {
    match g
    case Plain(pattern) => forall f, k :: f in t && 0 < k < |f| && env.matchPath(pattern, f[..k]) ==> f[..k] in t
    case Deep(root, _) => root == [] || exists f :: f in t && root <= f
  }

  /** A file that the list's pattern picks lists this: one of the prefixes read from it, collapsed,
      under the repository's name, the file's path, the provider and the category. */
  ghost predicate FileLists(env: Env, repo: string, ls: ListSpec, t: Tree, f: Path, fact: Fact)
    requires env.Valid()
  {
    && f in t && Picks(env, ls.glob, f) && Collapses(env.parse(ls.parser, t[f]), fact.prefix)
    && fact.membership.repository == repo && fact.membership.list == env.pathText(f)
    && fact.membership.provider == (if ls.provider == "" then env.deriveProvider(f) else ls.provider)
    && fact.membership.category == Bit(ls.category)
  }

  /** Below the root of a "**" pattern a file is picked by its name alone, however deep it lies. */
  lemma AnyDepth(env: Env, root: Path, base: string, middle: Path, name: string)
    ensures Picks(env, Deep(root, base), root + middle + [name]) <==> env.matchName(base, name)
  {
    assert root <= root + middle + [name];
  }

  /** And nothing is picked that is not the root itself or below it. */
  lemma OnlyBelow(env: Env, root: Path, base: string, f: Path)
    requires Picks(env, Deep(root, base), f)
    ensures f == root || exists middle, name :: f == root + middle + [name]
  {
    if f != root {
      assert f == root + f[|root|..|f| - 1] + [f[|f| - 1]];
    }
  }

  /** What is matched is what the pattern picks, and that it cannot be followed does not go unnoticed. */
  lemma MatchedArePicked(env: Env, t: Tree, g: Glob)
    ensures MatchFiles(env, t, g).Some? && MatchFiles(env, t, g).value <= t.Keys <==> Followed(env, g, t)
    ensures Followed(env, g, t) ==>
              forall f :: f in MatchFiles(env, t, g).value <==> f in t && Picks(env, g, f)
  {
    if g.Plain? {
      forall f, k | f in t && 0 < k < |f| ensures f[..k] in DirsOf(t) {}
    } else {
      assert RootExists(t, g.root) <==> Followed(env, g, t) by {
        if f :| f in t && g.root <= f {
          assert f == g.root || g.root < f;
        }
        if RootExists(t, g.root) && g.root != [] && g.root !in t {
          var f :| f in t && g.root < f;
          assert g.root <= f;
        }
      }
    }
  }

  lemma ListFactsAre(env: Env, repo: string, ls: ListSpec, t: Tree)
    requires env.Valid() && Followed(env, ls.glob, t)
    ensures MatchFiles(env, t, ls.glob).Some?
    ensures
      var facts := ListFacts(env, repo, ls, MatchFiles(env, t, ls.glob).value, t);
      forall fact :: fact in facts <==> exists f :: FileLists(env, repo, ls, t, f, fact)
  {
    MatchedArePicked(env, t, ls.glob);
    MaskOfOne(ls.category);
    hide Picks, MatchFiles, Followed, MaskOf, Bit, CollapseV6;
    var files := MatchFiles(env, t, ls.glob).value;
    forall fact
      ensures fact in ListFacts(env, repo, ls, files, t) <==> exists f :: FileLists(env, repo, ls, t, f, fact)
    {
      if f :| FileLists(env, repo, ls, t, f, fact) {
        var p :| p in env.parse(ls.parser, t[f]) && fact.prefix == CollapseV6(p);
        assert fact == Fact(CollapseV6(p), MembershipFor(env, repo, ls, f));
      }
      if fact in ListFacts(env, repo, ls, files, t) {
        var f, p :| f in files && f in t && p in env.parse(ls.parser, t[f])
                    && fact == Fact(CollapseV6(p), MembershipFor(env, repo, ls, f));
        assert FileLists(env, repo, ls, t, f, fact);
      }
    }
  }

  /** Collecting lists from a tree lists exactly what the files that their patterns pick list. */
  lemma CollectFactsAre(env: Env, repo: string, lists: seq<ListSpec>, t: Tree)
    requires env.Valid()
    ensures Collectable(env, lists, t) <==> forall ls :: ls in lists ==> Followed(env, ls.glob, t)
    ensures Collectable(env, lists, t) ==>
              forall fact :: fact in CollectFacts(env, repo, lists, t) <==>
                exists ls, f :: ls in lists && FileLists(env, repo, ls, t, f, fact)
  {
    forall ls | ls in lists
      ensures MatchFiles(env, t, ls.glob).Some? && MatchFiles(env, t, ls.glob).value <= t.Keys
         <==> Followed(env, ls.glob, t)
      ensures Followed(env, ls.glob, t) ==>
                forall fact :: fact in ListFacts(env, repo, ls, MatchFiles(env, t, ls.glob).value, t)
                          <==> exists f :: FileLists(env, repo, ls, t, f, fact)
    {
      MatchedArePicked(env, t, ls.glob);
      if Followed(env, ls.glob, t) {
        ListFactsAre(env, repo, ls, t);
      }
    }
    hide MatchFiles, ListFacts, FileLists, Followed, Picks;
    if Collectable(env, lists, t) {
      forall fact
        ensures fact in CollectFacts(env, repo, lists, t) <==>
                  exists ls, f :: ls in lists && FileLists(env, repo, ls, t, f, fact)
      {
        if fact in CollectFacts(env, repo, lists, t) {
          var ls :| ls in lists && fact in ListFacts(env, repo, ls, MatchFiles(env, t, ls.glob).value, t);
          var f :| FileLists(env, repo, ls, t, f, fact);
        }
        if ls, f :| ls in lists && FileLists(env, repo, ls, t, f, fact) {
          assert fact in ListFacts(env, repo, ls, MatchFiles(env, t, ls.glob).value, t);
        }
      }
    }
  }

  // ---- collecting ----

  method CollectList(env: Env, repo: string, ls: ListSpec, t: Tree, store: Table) returns (ok: bool)
    requires env.Valid() && store.Valid()
    modifies store, store.repr
    ensures store.Valid() && fresh(store.repr - old(store.repr))
    ensures ok <==> Collectable(env, [ls], t)
    ensures ok <==> Followed(env, ls.glob, t)
    ensures ok ==> store.facts == old(store.facts) + ListFacts(env, repo, ls, MatchFiles(env, t, ls.glob).value, t)
    ensures ok ==> forall fact :: fact in store.facts <==>
              fact in old(store.facts) || exists f :: FileLists(env, repo, ls, t, f, fact)
  {
    hide FileLists, Followed, MatchFiles, ListFacts, MembershipFor, Folded, FactsOf, WellFormed;
    assert ls in [ls];
    NoFiles(env, repo, ls, t);
    MatchedArePicked(env, t, ls.glob);
    if Followed(env, ls.glob, t) {
      ListFactsAre(env, repo, ls, t);
    }
    var files := MatchFiles(env, t, ls.glob);
    if files == None {
      return false;
    }
    ghost var start := store.facts;
    var todo := files.value;
    ghost var done: set<Path> := {};
    while todo != {}
      invariant done + todo == files.value && done <= t.Keys
      invariant store.Valid() && fresh(store.repr - old(store.repr))
      invariant store.facts == start + ListFacts(env, repo, ls, done, t)
      decreases todo
    {
      var file :| file in todo;
      if file !in t {
        assert file in files.value;
        return false;
      }
      var prefixes := env.parse(ls.parser, t[file]);
      var m := MembershipFor(env, repo, ls, file);
      var _ := Fold(store, prefixes, m);
      OneMoreFile(env, repo, ls, done, file, t);
      done := done + {file};
      todo := todo - {file};
    }
    ok := true;
  }

  lemma NoFiles(env: Env, repo: string, ls: ListSpec, t: Tree)
    requires env.Valid()
    ensures ListFacts(env, repo, ls, {}, t) == {}
  {}

  lemma OneMoreFile(env: Env, repo: string, ls: ListSpec, done: set<Path>, file: Path, t: Tree)
    requires env.Valid() && file in t
    ensures AllValid(env.parse(ls.parser, t[file]))
    ensures ListFacts(env, repo, ls, done + {file}, t)
         == ListFacts(env, repo, ls, done, t)
            + Folded(env.parse(ls.parser, t[file]), MembershipFor(env, repo, ls, file))
  {}

  /** collect: folds every file of the given lists, or reports a missing or unreadable one. */
  method Collect(env: Env, repo: string, lists: seq<ListSpec>, t: Tree, store: Table) returns (ok: bool)
    requires env.Valid() && store.Valid()
    modifies store, store.repr
    ensures store.Valid() && fresh(store.repr - old(store.repr))
    ensures ok <==> Collectable(env, lists, t)
    ensures ok <==> forall ls :: ls in lists ==> Followed(env, ls.glob, t)
    ensures ok ==> store.facts == old(store.facts) + CollectFacts(env, repo, lists, t)
    ensures ok ==> forall fact :: fact in store.facts <==>
              fact in old(store.facts) || exists ls, f :: ls in lists && FileLists(env, repo, ls, t, f, fact)
  {
    hide Collectable, CollectFacts, ListFacts, FileLists, Followed;
    CollectFactsAre(env, repo, lists, t);
    ghost var start := store.facts;
    NoLists(env, repo, t);
    for i := 0 to |lists|
      invariant Collectable(env, lists[..i], t)
      invariant store.Valid() && fresh(store.repr - old(store.repr))
      invariant store.facts == start + CollectFacts(env, repo, lists[..i], t)
    {
      var listed := CollectList(env, repo, lists[i], t, store);
      MoreLists(env, repo, lists, i, t);
      if !listed {
        return false;
      }
    }
    assert lists[..|lists|] == lists;
    ok := true;
  }

  lemma NoLists(env: Env, repo: string, t: Tree)
    requires env.Valid()
    ensures Collectable(env, [], t) && CollectFacts(env, repo, [], t) == {}
  {}

  lemma MoreLists(env: Env, repo: string, lists: seq<ListSpec>, i: nat, t: Tree)
    requires env.Valid() && i < |lists| && Collectable(env, lists[..i], t)
    ensures Collectable(env, lists[..i + 1], t) <==> Collectable(env, [lists[i]], t)
    ensures !Collectable(env, [lists[i]], t) ==> !Collectable(env, lists, t)
    ensures Collectable(env, lists[..i + 1], t) ==> MatchFiles(env, t, lists[i].glob).Some?
    ensures Collectable(env, lists[..i + 1], t) ==>
              var files := MatchFiles(env, t, lists[i].glob).value;
              CollectFacts(env, repo, lists[..i + 1], t)
              == CollectFacts(env, repo, lists[..i], t) + ListFacts(env, repo, lists[i], files, t)
  {
    assert lists[..i + 1] == lists[..i] + [lists[i]];
    assert lists[i] in lists && lists[i] in [lists[i]];
  }

  // ---- the shared cache of a repository ----

  const MARKER: Path := [".fetched"]

  /** 23 hours, in seconds. */
  const CACHE_MAX_AGE: int := 82800

  /** The files cacheRepo copies out of a clone. */
  ghost function CachedFiles(env: Env, lists: seq<ListSpec>, clone: Tree): set<Path>
    requires Collectable(env, lists, clone)
  {
    set ls, f | ls in lists && f in MatchFiles(env, clone, ls.glob).value :: f
  }

  /** A completely written cache directory. */
  ghost function CachedTree(env: Env, lists: seq<ListSpec>, clone: Tree): Tree
    requires Collectable(env, lists, clone)
  {
    Copies(clone, CachedFiles(env, lists, clone))[MARKER := ""]
  }

  /** Whether a pattern picks the marker out of any tree that has it at its root. */
  predicate MatchesMarker(env: Env, g: Glob) {
    match g
    case Plain(pattern) => env.matchPath(pattern, MARKER)
    case Deep(root, base) => root <= MARKER && env.matchName(base, ".fetched")
  }

  ghost predicate MarkerFree(env: Env, lists: seq<ListSpec>) {
    forall ls :: ls in lists ==> !MatchesMarker(env, ls.glob)
  }

  /** A clone whose cached files leave room for the marker at the root. */
  ghost predicate Cacheable(env: Env, lists: seq<ListSpec>, clone: Tree) {
    && ValidTree(clone) && Collectable(env, lists, clone)
    && forall f :: f in CachedFiles(env, lists, clone) ==> !(MARKER < f)
  }

  /** For a "**" pattern below a directory: some cached file keeps that directory in being. */
  ghost predicate RootKept(env: Env, lists: seq<ListSpec>, clone: Tree, g: Glob)
    requires Collectable(env, lists, clone)
  {
    g.Deep? && g.root != [] && g.root != MARKER ==> exists f :: f in CachedFiles(env, lists, clone) && g.root <= f
  }

  lemma RootInCache(env: Env, lists: seq<ListSpec>, clone: Tree, g: Glob)
    requires Cacheable(env, lists, clone) && g.Deep?
    ensures RootExists(CachedTree(env, lists, clone), g.root) <==> RootKept(env, lists, clone, g)
  {
    var served := CachedTree(env, lists, clone);
    if g.root != [] && g.root != MARKER && RootExists(served, g.root) {
      var f :| f in served && g.root <= f;
      assert f != MARKER;
    }
    if g.root != [] && g.root != MARKER && RootKept(env, lists, clone, g) {
      var f :| f in CachedFiles(env, lists, clone) && g.root <= f;
      assert f in served && (g.root == f || g.root < f);
    }
  }

  lemma NoDirMatches(t: Tree, d: Path)
    requires ValidTree(t) && d in DirsOf(t)
    ensures d !in t
  {
    var f, k :| f in t && 0 < k < |f| && d == f[..k];
    assert d <= f;
  }

  lemma CachedBytes(env: Env, lists: seq<ListSpec>, clone: Tree, ls: ListSpec)
    requires Cacheable(env, lists, clone) && MarkerFree(env, lists) && ls in lists
    ensures
      var served := CachedTree(env, lists, clone);
      forall f :: f in MatchFiles(env, clone, ls.glob).value ==> f != MARKER && f in served && served[f] == clone[f]
  {
    forall f | f in MatchFiles(env, clone, ls.glob).value ensures f != MARKER && f in CachedFiles(env, lists, clone) {
      NeverMarker(env, ls, clone, f);
    }
  }

  lemma CachedPlain(env: Env, lists: seq<ListSpec>, clone: Tree, ls: ListSpec)
    requires Cacheable(env, lists, clone) && MarkerFree(env, lists) && ls in lists && ls.glob.Plain?
    ensures MatchFiles(env, CachedTree(env, lists, clone), ls.glob) == MatchFiles(env, clone, ls.glob)
  {
    var pattern := ls.glob.pattern;
    var served := CachedTree(env, lists, clone);
    CachedBytes(env, lists, clone, ls);
    forall d | d in DirsOf(served) ensures d in DirsOf(clone) {
      var f, k :| f in served && 0 < k < |f| && d == f[..k];
      assert f != MARKER && f in clone;
    }
    forall d | d in DirsOf(clone) ensures !env.matchPath(pattern, d) {
      NoDirMatches(clone, d);
      assert d !in MatchFiles(env, clone, ls.glob).value;
    }
    var found, wanted := MatchFiles(env, served, ls.glob).value, MatchFiles(env, clone, ls.glob).value;
    forall f | f in found ensures f in wanted {
      assert f != MARKER;
    }
    forall f | f in wanted ensures f in found {
      assert f in served && env.matchPath(pattern, f);
    }
    assert found == wanted;
  }

  lemma CachedDeep(env: Env, lists: seq<ListSpec>, clone: Tree, ls: ListSpec)
    requires Cacheable(env, lists, clone) && MarkerFree(env, lists) && ls in lists && ls.glob.Deep?
    requires RootExists(CachedTree(env, lists, clone), ls.glob.root)
    ensures MatchFiles(env, CachedTree(env, lists, clone), ls.glob) == MatchFiles(env, clone, ls.glob)
  {
    var served := CachedTree(env, lists, clone);
    CachedBytes(env, lists, clone, ls);
    var found, wanted := MatchFiles(env, served, ls.glob).value, MatchFiles(env, clone, ls.glob).value;
    forall f | f in found ensures f in wanted {
      assert f != MARKER;
    }
    assert found == wanted;
  }

  /** One list's pattern on the cached tree: it fails exactly when its root was not kept, and
      otherwise matches what it matched in the clone, with the same bytes. */
  lemma CachedMatches(env: Env, lists: seq<ListSpec>, clone: Tree, ls: ListSpec)
    requires Cacheable(env, lists, clone) && MarkerFree(env, lists) && ls in lists
    ensures
      var served := CachedTree(env, lists, clone);
      if RootKept(env, lists, clone, ls.glob) then MatchFiles(env, served, ls.glob) == MatchFiles(env, clone, ls.glob)
      else MatchFiles(env, served, ls.glob) == None
    ensures
      var served := CachedTree(env, lists, clone);
      forall f :: f in MatchFiles(env, clone, ls.glob).value ==> f in served && served[f] == clone[f]
    ensures forall f :: f in MatchFiles(env, clone, ls.glob).value <==> f in clone && Picks(env, ls.glob, f)
  {
    CachedBytes(env, lists, clone, ls);
    MatchedArePicked(env, clone, ls.glob);
    match ls.glob {
      case Plain(_) => CachedPlain(env, lists, clone, ls);
      case Deep(root, _) =>
        RootInCache(env, lists, clone, ls.glob);
        if RootExists(CachedTree(env, lists, clone), root) {
          CachedDeep(env, lists, clone, ls);
        }
    }
  }

  /** A complete cache has the marker and, byte for byte, exactly the clone's files that some list of the
      repository picks. */
  lemma CachedTreeIs(env: Env, lists: seq<ListSpec>, clone: Tree)
    requires Cacheable(env, lists, clone) && MarkerFree(env, lists)
    ensures
      var served := CachedTree(env, lists, clone);
      && MARKER in served
      && forall f :: f != MARKER ==>
           && (f in served <==> f in clone && exists ls :: ls in lists && Picks(env, ls.glob, f))
           && (f in served ==> served[f] == clone[f])
  {
    forall ls, f | ls in lists
      ensures f in MatchFiles(env, clone, ls.glob).value <==> f in clone && Picks(env, ls.glob, f)
    {
      MatchedArePicked(env, clone, ls.glob);
    }
  }

  /** Collecting the selected lists from a complete cache of a clone is collecting them from
      the clone, exactly when every "**" root among them was kept. */
  lemma CollectingFromCache(env: Env, repo: string, lists: seq<ListSpec>, clone: Tree, selected: seq<ListSpec>)
    requires env.Valid() && Cacheable(env, lists, clone) && MarkerFree(env, lists)
    requires forall ls :: ls in selected ==> ls in lists
    ensures Collectable(env, selected, clone)
    ensures
      var served := CachedTree(env, lists, clone);
      Collectable(env, selected, served) <==> forall ls :: ls in selected ==> RootKept(env, lists, clone, ls.glob)
    ensures
      var served := CachedTree(env, lists, clone);
      Collectable(env, selected, served) ==>
        CollectFacts(env, repo, selected, served) == CollectFacts(env, repo, selected, clone)
  {
    var served := CachedTree(env, lists, clone);
    forall ls | ls in selected
      ensures RootKept(env, lists, clone, ls.glob) <==>
                MatchFiles(env, served, ls.glob).Some? && MatchFiles(env, served, ls.glob).value <= served.Keys
      ensures RootKept(env, lists, clone, ls.glob) ==>
                (ListFacts(env, repo, ls, MatchFiles(env, served, ls.glob).value, served)
                == ListFacts(env, repo, ls, MatchFiles(env, clone, ls.glob).value, clone))
    {
      CachedMatches(env, lists, clone, ls);
    }
  }

  lemma EmptyRootVanishes(env: Env, ls: ListSpec, clone: Tree)
    requires ValidTree(clone) && ls.glob.Deep? && ls.glob.root != [] && ls.glob.root != MARKER
    requires MatchFiles(env, clone, ls.glob) == Some({})
    ensures Cacheable(env, [ls], clone)
    ensures MatchFiles(env, CachedTree(env, [ls], clone), ls.glob) == None
  {
    assert CachedFiles(env, [ls], clone) == {};
    RootInCache(env, [ls], clone, ls.glob);
  }

  /** A "**" pattern below a directory can fail on the cache of a clone it collects from: the
      directory is there in the clone, but none of its files is a list. */
  lemma CachedRootCanVanish(env: Env)
    requires !env.matchName("*.txt", "readme.md")
    ensures
      var ls := ListSpec(Deep(["Countries"], "*.txt"), PROXY, "", "lines");
      var clone: Tree := map[["Countries", "readme.md"] := "no lists yet"];
      && Cacheable(env, [ls], clone) && MarkerFree(env, [ls])
      && MatchFiles(env, clone, ls.glob) == Some({})
      && MatchFiles(env, CachedTree(env, [ls], clone), ls.glob) == None
  {
    var root, readme := ["Countries"], ["Countries", "readme.md"];
    var ls := ListSpec(Deep(root, "*.txt"), PROXY, "", "lines");
    var clone: Tree := map[readme := "no lists yet"];
    assert "Countries"[0] != ".fetched"[0];
    assert root[0] != MARKER[0];
    NothingMatches(env, root, readme, clone);
    EmptyRootVanishes(env, ls, clone);
  }

  lemma NothingMatches(env: Env, root: Path, readme: Path, clone: Tree)
    requires !env.matchName("*.txt", "readme.md") && root == ["Countries"] && readme == ["Countries", "readme.md"]
    requires clone.Keys == {readme}
    ensures MatchFiles(env, clone, Deep(root, "*.txt")) == Some({})
  {
    assert root < readme && readme[|readme| - 1] == "readme.md";
    assert readme in clone && IsDir(clone, root);
    assert MatchFiles(env, clone, Deep(root, "*.txt")).value == {};
  }

  /** The cache directory of one repository. */
  class RepoDir {
    var files: Tree
    var markerTime: int
    /** The clone the marker vouches for. */
    ghost var origin: Tree

    constructor ()
      ensures files == map[]
    {
      files := map[];
      origin := map[];
    }

    /** cachedRepoFresh. */
    predicate Fresh(now: int)
      reads this
    {
      MARKER in files && now - markerTime < CACHE_MAX_AGE
    }

    /** From now on, a fresh marker stands on a complete cache of origin. */
    ghost predicate Vouched(env: Env, lists: seq<ListSpec>, now: int)
      reads this
    {
      Fresh(now) ==> Cacheable(env, lists, origin) && files == CachedTree(env, lists, origin)
    }
  }

  /** os.RemoveAll, stopped by a crash or an error after some number of removals: the marker may
      outlive list files, but it keeps its old time. */
  method RemoveAll(dir: RepoDir, steps: nat) returns (left: nat, done: bool)
    modifies dir`files
    ensures done ==> dir.files == map[]
    ensures dir.files.Keys <= old(dir.files.Keys)
  {
    left := steps;
    while dir.files != map[]
      invariant dir.files.Keys <= old(dir.files.Keys)
      decreases dir.files.Keys
    {
      if left == 0 {
        return 0, false;
      }
      assert dir.files.Keys != {};
      var f :| f in dir.files;
      dir.files := dir.files - {f};
      left := left - 1;
    }
    done := true;
  }

  function Copies(clone: Tree, wanted: set<Path>): Tree {
    map f | f in wanted && f in clone :: clone[f]
  }

  lemma CopyOne(before: Tree, clone: Tree, written: set<Path>, file: Path)
    requires file in clone
    ensures (before + Copies(clone, written))[file := clone[file]] == before + Copies(clone, written + {file})
  {}

  lemma CopyMore(clone: Tree, a: set<Path>, b: set<Path>)
    ensures Copies(clone, a) + Copies(clone, b) == Copies(clone, a + b)
  {}

  /** One list's files into the directory; a write cut short leaves a truncated file. */
  method CacheList(env: Env, ls: ListSpec, clone: Tree, dir: RepoDir, steps: nat, cut: nat)
    returns (left: nat, done: bool)
    requires MARKER !in dir.files && !MatchesMarker(env, ls.glob)
    modifies dir`files
    ensures MARKER !in dir.files
    ensures done ==> Collectable(env, [ls], clone)
    ensures done ==> var wanted := MatchFiles(env, clone, ls.glob).value;
              dir.files == old(dir.files) + Copies(clone, wanted)
  {
    left := steps;
    assert ls in [ls];
    var files := MatchFiles(env, clone, ls.glob);
    if files == None {
      return left, false;
    }
    var todo := files.value;
    ghost var written: set<Path> := {};
    while todo != {}
      invariant written + todo == files.value && written <= clone.Keys && written !! todo
      invariant MARKER !in dir.files
      invariant dir.files == old(dir.files) + Copies(clone, written)
      decreases todo
    {
      var file :| file in todo;
      if file !in clone {
        return left, false;
      }
      NeverMarker(env, ls, clone, file);
      if left == 0 {
        dir.files := dir.files[file := if cut <= |clone[file]| then clone[file][..cut] else clone[file]];
        return left, false;
      }
      CopyOne(old(dir.files), clone, written, file);
      dir.files := dir.files[file := clone[file]];
      left := left - 1;
      written := written + {file};
      todo := todo - {file};
    }
    done := true;
  }

  lemma NeverMarker(env: Env, ls: ListSpec, clone: Tree, file: Path)
    requires !MatchesMarker(env, ls.glob)
    requires MatchFiles(env, clone, ls.glob).Some? && file in MatchFiles(env, clone, ls.glob).value
    ensures file != MARKER
  {
    assert MARKER[|MARKER| - 1] == ".fetched";
  }

  lemma OneMoreList(env: Env, lists: seq<ListSpec>, i: nat, clone: Tree)
    requires i < |lists| && Collectable(env, lists[..i], clone) && Collectable(env, [lists[i]], clone)
    ensures Collectable(env, lists[..i + 1], clone)
    ensures CachedFiles(env, lists[..i + 1], clone)
         == CachedFiles(env, lists[..i], clone) + MatchFiles(env, clone, lists[i].glob).value
  {
    assert lists[..i + 1] == lists[..i] + [lists[i]];
    assert lists[i] in [lists[i]];
  }

  /** cacheRepo: rebuilds the directory from every list the repository has, marker last. It may
      stop after any number of file operations. */
  method CacheRepo(env: Env, lists: seq<ListSpec>, clone: Tree, dir: RepoDir, now: int, steps: nat, cut: nat)
    returns (done: bool)
    requires ValidTree(clone) && MarkerFree(env, lists)
    modifies dir
    ensures done ==> Cacheable(env, lists, clone) && dir.origin == clone
    ensures done ==> dir.files == CachedTree(env, lists, clone) && dir.markerTime == now
    ensures !done ==> dir.origin == old(dir.origin)
    ensures !done && MARKER in dir.files ==> MARKER in old(dir.files) && dir.markerTime == old(dir.markerTime)
  {
    var left, ok := RemoveAll(dir, steps);
    if !ok {
      return false;
    }
    for i := 0 to |lists|
      invariant dir.origin == old(dir.origin)
      invariant MARKER !in dir.files && Collectable(env, lists[..i], clone)
      invariant dir.files == Copies(clone, CachedFiles(env, lists[..i], clone))
    {
      assert lists[i] in lists;
      left, ok := CacheList(env, lists[i], clone, dir, left, cut);
      if !ok {
        return false;
      }
      OneMoreList(env, lists, i, clone);
      CopyMore(clone, CachedFiles(env, lists[..i], clone), MatchFiles(env, clone, lists[i].glob).value);
    }
    assert lists[..|lists|] == lists;
    if left == 0 || IsDirInDir(dir) {
      return false;
    }
    assert forall f :: f in CachedFiles(env, lists, clone) ==> f in dir.files;
    dir.files := dir.files[MARKER := ""];
    dir.markerTime := now;
    dir.origin := clone;
    done := true;
  }

  predicate IsDirInDir(dir: RepoDir)
    reads dir
  {
    IsDir(dir.files, MARKER)
  }

  /** When a build reaches the cache, and where its writing stops. */
  datatype Pass = Pass(now: int, steps: nat, cut: nat)

  /** The clone a build gets to see: the one a fresh cache was made from, else a new one. Without a
      cache directory there is only the new one. */
  ghost function SeenTree(clone: Option<Tree>, dir: RepoDir?, now: int): Option<Tree>
    reads dir
  {
    if dir != null && dir.Fresh(now) then Some(dir.origin) else clone
  }

  ghost predicate Usable(env: Env, lists: seq<ListSpec>, clone: Option<Tree>, dir: RepoDir?, now: int)
    reads dir
  {
    && MarkerFree(env, lists) && (clone.Some? ==> ValidTree(clone.value))
    && (dir != null ==> dir.Vouched(env, lists, now))
  }

  /** repoFS: a copy of the clone the build gets to see. */
  method RepoFS(env: Env, lists: seq<ListSpec>, clone: Option<Tree>, dir: RepoDir?, pass: Pass)
    returns (fsys: Option<Tree>)
    requires Usable(env, lists, clone, dir, pass.now)
    modifies dir
    ensures fsys.Some? <==> old(SeenTree(clone, dir, pass.now)).Some?
    ensures fsys.Some? ==> Copied(env, lists, old(SeenTree(clone, dir, pass.now)).value, fsys.value)
    ensures dir != null ==> forall later :: pass.now <= later ==> dir.Vouched(env, lists, later)
    ensures dir != null && old(MARKER in dir.files && pass.now - dir.markerTime < CACHE_MAX_AGE) ==>
              && fsys == Some(dir.files) && dir.files == old(dir.files)
              && dir.markerTime == old(dir.markerTime) && dir.origin == old(dir.origin)
    ensures dir == null || !old(MARKER in dir.files && pass.now - dir.markerTime < CACHE_MAX_AGE) ==>
              (fsys.Some? <==> clone.Some?) && (clone.Some? ==> Copied(env, lists, clone.value, fsys.value))
    ensures dir != null && !old(dir.Fresh(pass.now)) ==>
              forall later :: pass.now <= later && dir.Fresh(later) ==> clone == Some(dir.origin)
    ensures dir != null && MARKER in dir.files ==>
              clone == Some(dir.origin) || (MARKER in old(dir.files) && dir.origin == old(dir.origin))
  {
    if dir != null && dir.Fresh(pass.now) {
      return Some(dir.files);
    }
    if clone == None {
      return None;
    }
    if dir == null {
      return clone;
    }
    var cached := CacheRepo(env, lists, clone.value, dir, pass.now, pass.steps, pass.cut);
    fsys := if cached then Some(dir.files) else clone;
  }

  /** One build's use of the cache, and what cloning would give. */
  datatype Visit = Visit(clone: Option<Tree>, pass: Pass)

  /** One of the first n builds had a clone of which t is a complete copy. */
  ghost predicate Serves(env: Env, lists: seq<ListSpec>, visits: seq<Visit>, n: nat, t: Tree)
    requires n <= |visits|
  {
    exists j :: 0 <= j < n && visits[j].clone.Some? && Copied(env, lists, visits[j].clone.value, t)
  }

  /** The clone itself, or its cached lists, all of them. */
  ghost predicate Copied(env: Env, lists: seq<ListSpec>, clone: Tree, t: Tree) {
    t == clone || (Cacheable(env, lists, clone) && t == CachedTree(env, lists, clone))
  }

  ghost predicate ClonedBy(visits: seq<Visit>, n: nat, from: Tree)
    requires n <= |visits|
  {
    exists j :: 0 <= j < n && visits[j].clone == Some(from)
  }

  lemma ClonedLater(visits: seq<Visit>, i: nat, from: Tree)
    requires i < |visits|
    ensures ClonedBy(visits, i + 1, from) <==> ClonedBy(visits, i, from) || visits[i].clone == Some(from)
  {}

  lemma ServedNow(env: Env, lists: seq<ListSpec>, visits: seq<Visit>, n: nat, from: Tree, t: Tree)
    requires n <= |visits| && ClonedBy(visits, n, from) && Copied(env, lists, from, t)
    ensures Serves(env, lists, visits, n, t)
  {
    var j :| 0 <= j < n && visits[j].clone == Some(from);
    assert Copied(env, lists, visits[j].clone.value, t);
  }

  /** Any sequence of builds over one cache directory, with crashes anywhere: every tree served
      is a clone made by this or an earlier build, or the complete cache of one, and a build that
      can clone is always served. */
  method ServeBuilds(env: Env, lists: seq<ListSpec>, visits: seq<Visit>) returns (served: seq<Option<Tree>>)
    requires MarkerFree(env, lists)
    requires forall i :: 0 <= i < |visits| && visits[i].clone.Some? ==> ValidTree(visits[i].clone.value)
    requires forall i, j :: 0 <= i < j < |visits| ==> visits[i].pass.now <= visits[j].pass.now
    ensures |served| == |visits|
    ensures forall i :: 0 <= i < |visits| && served[i].Some? ==> Serves(env, lists, visits, i + 1, served[i].value)
    ensures forall i :: 0 <= i < |visits| && visits[i].clone.Some? ==> served[i].Some?
  {
    var dir := new RepoDir();
    served := [];
    for i := 0 to |visits|
      invariant |served| == i
      invariant i < |visits| ==> dir.Vouched(env, lists, visits[i].pass.now)
      invariant MARKER in dir.files ==> ClonedBy(visits, i, dir.origin)
      invariant forall k :: 0 <= k < i && served[k].Some? ==> Serves(env, lists, visits, k + 1, served[k].value)
      invariant forall k :: 0 <= k < i && visits[k].clone.Some? ==> served[k].Some?
    {
      var v := visits[i];
      ghost var seen := SeenTree(v.clone, dir, v.pass.now);
      var fsys := RepoFS(env, lists, v.clone, dir, v.pass);
      ClonedLater(visits, i, dir.origin);
      if fsys.Some? {
        ClonedLater(visits, i, seen.value);
        ServedNow(env, lists, visits, i + 1, seen.value, fsys.value);
      }
      served := served + [fsys];
    }
  }

  /** What such a served tree gives a build: the lists its selection asks for, as in the clone. It
      cannot be collected exactly when the clone cannot, or it is a cache that has not kept the
      root of a selected pattern, which patterns without "**" or with "**" at the root always do. */
  lemma ServedCollectsTheClone(env: Env, repo: string, lists: seq<ListSpec>, from: Tree, served: Tree,
                               selected: seq<ListSpec>)
    requires env.Valid() && MarkerFree(env, lists)
    requires Copied(env, lists, from, served)
    requires forall ls :: ls in selected ==> ls in lists
    ensures Collectable(env, selected, served) <==>
              && Collectable(env, selected, from)
              && (served == from || forall ls :: ls in selected ==> RootKept(env, lists, from, ls.glob))
    ensures (forall ls :: ls in selected ==> ls.glob.Plain? || ls.glob.root == []) ==>
              (Collectable(env, selected, served) <==> Collectable(env, selected, from))
    ensures Collectable(env, selected, served) ==>
              CollectFacts(env, repo, selected, served) == CollectFacts(env, repo, selected, from)
  {
    if served != from {
      CollectingFromCache(env, repo, lists, from, selected);
    }
  }
}
