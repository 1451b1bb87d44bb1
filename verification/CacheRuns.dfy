/** One refresh from beginning to end, for both stores: what it leaves behind given how the outside
    world behaves, that this is a run of the protocol, and what a failed and a successful one mean
    (cmd/reputationdbd/internal/dbcache/cache.go, caddy/maat/store.go). */
module CacheRuns {
  import opened Prefixes
  import opened Records
  import opened MappedProtocol

  /** How far a download gets. */
  datatype Transfer = NoBody | CutShort | NotMoved(content: Content) | Moved(content: Content)

  /** What the outside world does during one refresh. */
  datatype World = World(
    current: Option<Build>,
    cachedOpens: bool,
    transfer: Transfer,
    freshOpens: bool,
    removes: File -> bool,
    tempName: nat
  )

  /** The result of one refresh: the state it leaves, and whether it reports an error. */
  datatype Finish = Finish(state: State, err: bool)

  /** Between refreshes, with no query running and nothing closed. */
  ghost predicate AtRest(s: State) {
    Inv(s) && s.refresh == Idle && s.writer == None && s.readers == map[] && s.closer == NotCalled && !s.loopDone
  }

  /** The bucket's source never gives an empty version, and no name is reused for staging. */
  ghost predicate Admits(s: State, w: World) {
    && (w.current.Some? && s.kind == DbCache ==> w.current.value.version != "")
    && Staging(w.tempName) !in s.files
  }

  predicate Opens(files: map<File, Content>, f: File, lucky: bool) {
    lucky && f in files && files[f].Mmdb?
  }

  function Mapped(b: Build, content: Content): Mapping
    requires content.Mmdb?
  {
    Mapping(b.File(), b.version, match b.createdAt case Some(t) => t case None => content.builtAt, content)
  }

  /** The directory once what was mapped has been released in favour of keep. */
  function Released(files: map<File, Content>, db: Option<Handle>, path: Option<File>, keep: Option<File>,
                    removes: File -> bool)
    : map<File, Content>
  {
    if db.Some? && path.Some? && path != keep && removes(path.value) then files - {path.value} else files
  }

  /** The directory once everything else that looks like a database is gone. */
  function Swept(files: map<File, Content>, keep: File, removes: File -> bool): map<File, Content> {
    files - set f | f in files && f.Sweepable() && f != keep && removes(f)
  }

  function Less<T>(open: set<T>, h: Option<T>): set<T> {
    if h.Some? then open - {h.value} else open
  }

  ghost function Loaded(s: State, b: Build, removes: File -> bool): State
    requires b.File() in s.files && s.files[b.File()].Mmdb?
  {
    var h := |s.mappings|;
    var m := Mapped(b, s.files[b.File()]);
    var released := Released(s.files, s.db, s.path, Some(b.File()), removes);
    s.(mappings := s.mappings + [m], open := Less(s.open + {h}, s.db), db := Some(h), path := Some(b.File()),
       version := b.version, createdAt := m.createdAt,
       files := if s.kind == DbCache then Swept(released, b.File(), removes) else released)
  }

  ghost function Unloaded(s: State, removes: File -> bool): State {
    s.(db := None, path := None, version := "", open := Less(s.open, s.db),
       files := Released(s.files, s.db, s.path, None, removes))
  }

  /** What is given up before a finished download is moved into place. */
  ghost function GivenUp(s: State, b: Build, removes: File -> bool): State {
    if s.kind == Caddy && s.path == Some(b.File()) then Unloaded(s, removes) else s
  }

  ghost function Downloaded(s: State, b: Build, w: World): State {
    if w.transfer.NoBody? || w.transfer.CutShort? then s
    else if w.transfer.NotMoved? then GivenUp(s, b, w.removes)
    else
      var t := GivenUp(s, b, w.removes);
      t.(files := t.files[b.File() := w.transfer.content])
  }

  /** The bucket's store removes a download that does not open. */
  ghost function Discarded(s: State, b: Build, removes: File -> bool): State {
    if s.kind == DbCache && removes(b.File()) then s.(files := s.files - {b.File()}) else s
  }

  ghost function Fetched(s: State, b: Build, w: World): Finish {
    var t := Downloaded(s, b, w);
    if !w.transfer.Moved? then Finish(t, true)
    else if Opens(t.files, b.File(), w.freshOpens) then Finish(Loaded(t, b, w.removes), false)
    else Finish(Discarded(t, b, w.removes), true)
  }

  ghost function Refreshed(s: State, w: World): Finish {
    if w.current == None then Finish(s, true)
    else
      var b := w.current.value;
      if b.version != "" && b.version == s.version then Finish(s, false)
      else if b.version != "" && Opens(s.files, b.File(), w.cachedOpens) then Finish(Loaded(s, b, w.removes), false)
      else Fetched(s, b, w)
  }

  // ---- each part is a run of the protocol ----

  lemma Sweeps(s0: State, es: seq<Event>, s: State, removes: File -> bool) returns (es': seq<Event>)
    requires Run(s0, es) == Some(s) && s.refresh.Sweeping? && s.kind == DbCache
    ensures Run(s0, es') == Some(s.(refresh := Idle, files := Swept(s.files, s.refresh.keep, removes)))
    decreases s.files.Keys
  {
    hide Run;
    var keep := s.refresh.keep;
    if f :| f in s.files && f.Sweepable() && f != keep && removes(f) {
      Extend(s0, es, SweepRemove(f));
      SweptAfter(s.files, keep, removes, f);
      es' := Sweeps(s0, es + [SweepRemove(f)], s.(files := s.files - {f}), removes);
    } else {
      Extend(s0, es, SweepDone);
      es' := es + [SweepDone];
      assert Swept(s.files, keep, removes) == s.files;
    }
  }

  lemma SweptAfter(files: map<File, Content>, keep: File, removes: File -> bool, f: File)
    requires f in files && f.Sweepable() && f != keep && removes(f)
    ensures Swept(files - {f}, keep, removes) == Swept(files, keep, removes)
    ensures (files - {f}).Keys < files.Keys
  {
    assert f in files.Keys;
  }

  lemma Releases(s0: State, es: seq<Event>, s: State, removes: File -> bool) returns (es': seq<Event>)
    requires Run(s0, es) == Some(s) && s.refresh.Retiring?
    ensures Run(s0, es') == Some(s.(
      refresh := Sweeping(s.refresh.keep), open := Less(s.open, s.refresh.retired),
      files := Released(s.files, s.refresh.retired, s.refresh.oldFile, Some(s.refresh.keep), removes)))
  {
    hide Run;
    Extend(s0, es, CloseRetired);
    es' := es + [CloseRetired];
    var r := s.refresh;
    if r.retired.Some? && r.oldFile.Some? && r.oldFile != Some(r.keep) {
      var t := s.(open := s.open - {r.retired.value}, refresh := RemovingOld(r.keep, r.oldFile.value));
      es' := Removes(s0, es', t, removes(r.oldFile.value));
    }
  }

  lemma Removes(s0: State, es: seq<Event>, s: State, removed: bool) returns (es': seq<Event>)
    requires Run(s0, es) == Some(s) && s.refresh.RemovingOld?
    ensures Run(s0, es') == Some(s.(refresh := Sweeping(s.refresh.keep),
                                    files := if removed then s.files - {s.refresh.gone} else s.files))
  {
    hide Run;
    Extend(s0, es, RemoveRetired(removed));
    es' := es + [RemoveRetired(removed)];
  }

  lemma Swaps(s0: State, es: seq<Event>, s: State) returns (es': seq<Event>)
    requires Run(s0, es) == Some(s) && s.refresh.SwapWaiting? && s.refresh.handle < |s.mappings| && LockFree(s)
    ensures
      var m := s.mappings[s.refresh.handle];
      Run(s0, es') == Some(s.(db := Some(s.refresh.handle), path := Some(m.file), version := m.version,
        createdAt := m.createdAt, refresh := Retiring(m.file, s.db, s.path)))
  {
    hide Run;
    Extend(s0, es, LockForRefresh);
    es' := es + [LockForRefresh];
    Extend(s0, es', Swap);
    es' := es' + [Swap];
  }

  /** Loading the file that was found, or that was just moved into place. */
  lemma Loads(s0: State, es: seq<Event>, s: State, removes: File -> bool) returns (es': seq<Event>)
    requires Run(s0, es) == Some(s) && (s.refresh.OpeningCached? || s.refresh.OpeningFresh?) && LockFree(s)
    requires Opens(s.files, s.refresh.b.File(), true)
    ensures Run(s0, es') == Some(Loaded(s, s.refresh.b, removes).(refresh := Idle))
  {
    hide Run;
    var b := s.refresh.b;
    var e := if s.refresh.OpeningCached? then OpenCached(true) else OpenFresh(true);
    Extend(s0, es, e);
    var h := |s.mappings|;
    var m := Mapped(b, s.files[b.File()]);
    var t := s.(mappings := s.mappings + [m], open := s.open + {h}, refresh := SwapWaiting(b, h));
    es' := Swaps(s0, es + [e], t);
    t := t.(db := Some(h), path := Some(b.File()), version := b.version, createdAt := m.createdAt,
            refresh := Retiring(b.File(), s.db, s.path));
    es' := Releases(s0, es', t, removes);
    t := t.(refresh := Sweeping(b.File()), open := Less(t.open, s.db),
            files := Released(s.files, s.db, s.path, Some(b.File()), removes));
    es' := Ends(s0, es', t, removes);
  }

  lemma Ends(s0: State, es: seq<Event>, s: State, removes: File -> bool) returns (es': seq<Event>)
    requires Run(s0, es) == Some(s) && s.refresh.Sweeping?
    ensures Run(s0, es') == Some(s.(refresh := Idle,
      files := if s.kind == DbCache then Swept(s.files, s.refresh.keep, removes) else s.files))
  {
    hide Run;
    if s.kind == DbCache {
      es' := Sweeps(s0, es, s, removes);
    } else {
      Extend(s0, es, SweepDone);
      es' := es + [SweepDone];
    }
  }

  /** Unmapping before the rename. */
  lemma Unloads(s0: State, es: seq<Event>, s: State, removes: File -> bool) returns (es': seq<Event>)
    requires Run(s0, es) == Some(s) && s.refresh.UnloadWaiting? && LockFree(s)
    ensures Run(s0, es') == Some(Unloaded(s, removes).(refresh := Renaming(s.refresh.b, s.refresh.tmp)))
  {
    hide Run;
    var b, tmp := s.refresh.b, s.refresh.tmp;
    Extend(s0, es, LockForRefresh);
    es' := es + [LockForRefresh];
    Extend(s0, es', Unload);
    es' := es' + [Unload];
    var t := s.(db := None, path := None, version := "", refresh := UnloadClosing(b, tmp, s.db, s.path));
    es' := ClosesUnloaded(s0, es', t, removes);
  }

  lemma ClosesUnloaded(s0: State, es: seq<Event>, s: State, removes: File -> bool) returns (es': seq<Event>)
    requires Run(s0, es) == Some(s) && s.refresh.UnloadClosing?
    ensures Run(s0, es') == Some(s.(refresh := Renaming(s.refresh.b, s.refresh.tmp),
                                    open := Less(s.open, s.refresh.retired),
                                    files := Released(s.files, s.refresh.retired, s.refresh.oldFile, None, removes)))
  {
    hide Run;
    var r := s.refresh;
    Extend(s0, es, CloseUnloaded);
    es' := es + [CloseUnloaded];
    if r.retired.Some? && r.oldFile.Some? {
      var e := RemoveUnloaded(removes(r.oldFile.value));
      Extend(s0, es', e);
      es' := es' + [e];
    }
  }

  /** Writing the staging file. */
  lemma Stages(s0: State, es: seq<Event>, s: State, tmp: nat, content: Content) returns (es': seq<Event>)
    requires Run(s0, es) == Some(s) && s.refresh.Downloading? && Staging(tmp) !in s.files
    ensures Run(s0, es') == Some(s.(files := s.files[Staging(tmp) := content], refresh := Written(s.refresh.b, tmp)))
  {
    hide Run;
    Extend(s0, es, CreateStaging(tmp));
    es' := es + [CreateStaging(tmp)];
    Extend(s0, es', StagingWritten(content));
    es' := es' + [StagingWritten(content)];
    assert s.files[Staging(tmp) := Unusable][Staging(tmp) := content] == s.files[Staging(tmp) := content];
  }

  /** A download that brings nothing home. */
  lemma Aborts(s0: State, es: seq<Event>, s: State, w: World) returns (es': seq<Event>)
    requires Run(s0, es) == Some(s) && s.refresh.Downloading? && Staging(w.tempName) !in s.files
    requires w.transfer.NoBody? || w.transfer.CutShort?
    ensures Run(s0, es') == Some(s.(refresh := Idle))
  {
    hide Run;
    if w.transfer.NoBody? {
      Extend(s0, es, DownloadFails);
      es' := es + [DownloadFails];
    } else {
      Extend(s0, es, CreateStaging(w.tempName));
      es' := es + [CreateStaging(w.tempName)];
      Extend(s0, es', StagingFails);
      es' := es' + [StagingFails];
      assert s.files[Staging(w.tempName) := Unusable] - {Staging(w.tempName)} == s.files;
    }
  }

  /** From a complete staging file to the moment before it is moved. */
  lemma Clears(s0: State, es: seq<Event>, s: State, removes: File -> bool) returns (es': seq<Event>)
    requires Run(s0, es) == Some(s) && s.refresh.Written? && LockFree(s)
    ensures Run(s0, es') == Some(GivenUp(s, s.refresh.b, removes).(refresh := Renaming(s.refresh.b, s.refresh.tmp)))
  {
    hide Run;
    var b, tmp := s.refresh.b, s.refresh.tmp;
    Extend(s0, es, CheckMapped);
    es' := es + [CheckMapped];
    if s.kind == Caddy && s.path == Some(b.File()) {
      es' := Unloads(s0, es', s.(refresh := UnloadWaiting(b, tmp)), removes);
    }
  }

  /** Moving the staging file into place, or failing to. */
  lemma Moves(s0: State, es: seq<Event>, s: State, moved: bool) returns (es': seq<Event>)
    requires Run(s0, es) == Some(s) && s.refresh.Renaming? && Staging(s.refresh.tmp) in s.files
    ensures
      var tmp := Staging(s.refresh.tmp);
      var rest := s.files - {tmp};
      Run(s0, es') == Some(
        if moved then s.(files := rest[s.refresh.b.File() := s.files[tmp]], refresh := OpeningFresh(s.refresh.b))
        else s.(files := rest, refresh := Idle))
  {
    hide Run;
    var e := if moved then Rename else RenameFails;
    Extend(s0, es, e);
    es' := es + [e];
  }

  lemma Downloads(s0: State, es: seq<Event>, s: State, w: World) returns (es': seq<Event>)
    requires Run(s0, es) == Some(s) && s.refresh.Downloading? && LockFree(s) && Staging(w.tempName) !in s.files
    requires s.path.Some? ==> s.path.value.Database?
    ensures
      var next := if w.transfer.Moved? then OpeningFresh(s.refresh.b) else Idle;
      Run(s0, es') == Some(Downloaded(s, s.refresh.b, w).(refresh := next))
  {
    hide Run;
    var b, tmp := s.refresh.b, Staging(w.tempName);
    if w.transfer.NoBody? || w.transfer.CutShort? {
      es' := Aborts(s0, es, s, w);
    } else {
      var content := w.transfer.content;
      es' := Stages(s0, es, s, w.tempName, content);
      var t := s.(files := s.files[tmp := content], refresh := Written(b, w.tempName));
      es' := Clears(s0, es', t, w.removes);
      t := GivenUp(t, b, w.removes).(refresh := Renaming(b, w.tempName));
      es' := Moves(s0, es', t, w.transfer.Moved?);
      hide GivenUp;
      StagedGivenUp(s, b, w, content);
    }
  }

  /** The staging file is in nobody's way. */
  lemma StagedGivenUp(s: State, b: Build, w: World, content: Content)
    requires Staging(w.tempName) !in s.files && (s.path.Some? ==> s.path.value.Database?)
    ensures
      var tmp := Staging(w.tempName);
      var t := GivenUp(s.(files := s.files[tmp := content], refresh := Written(b, w.tempName)), b, w.removes);
      && t.files - {tmp} == GivenUp(s, b, w.removes).files && tmp in t.files && t.files[tmp] == content
      && t == GivenUp(s, b, w.removes).(files := t.files, refresh := Written(b, w.tempName))
  {}

  /** From the comparison on: what is on disk, or a download. */
  lemma Fetches(s0: State, es: seq<Event>, s: State, w: World) returns (es': seq<Event>)
    requires Run(s0, es) == Some(s) && s.refresh.Downloading? && LockFree(s) && Staging(w.tempName) !in s.files
    requires s.path.Some? ==> s.path.value.Database?
    ensures Run(s0, es') == Some(Fetched(s, s.refresh.b, w).state.(refresh := Idle))
  {
    hide Run;
    var b := s.refresh.b;
    es' := Downloads(s0, es, s, w);
    if w.transfer.Moved? {
      var t := Downloaded(s, b, w).(refresh := OpeningFresh(b));
      if Opens(t.files, b.File(), w.freshOpens) {
        es' := Loads(s0, es', t, w.removes);
      } else {
        es' := Rejects(s0, es', t, w.removes);
      }
    }
  }

  lemma Rejects(s0: State, es: seq<Event>, s: State, removes: File -> bool) returns (es': seq<Event>)
    requires Run(s0, es) == Some(s) && s.refresh.OpeningFresh?
    ensures Run(s0, es') == Some(Discarded(s, s.refresh.b, removes).(refresh := Idle))
  {
    hide Run;
    var b := s.refresh.b;
    Extend(s0, es, OpenFresh(false));
    es' := es + [OpenFresh(false)];
    if s.kind == DbCache {
      es' := Discards(s0, es', s.(refresh := Discarding(b)), removes(b.File()));
    }
  }

  lemma Discards(s0: State, es: seq<Event>, s: State, removed: bool) returns (es': seq<Event>)
    requires Run(s0, es) == Some(s) && s.refresh.Discarding?
    ensures Run(s0, es') == Some(s.(refresh := Idle,
                                    files := if removed then s.files - {s.refresh.b.File()} else s.files))
  {
    hide Run;
    Extend(s0, es, Discard(removed));
    es' := es + [Discard(removed)];
  }

  /** Asking the source and comparing. */
  lemma Asks(s: State, w: World, who: Caller) returns (es: seq<Event>)
    requires s.refresh == Idle && s.writer == None && s.closer == NotCalled && !s.loopDone && Admits(s, w)
    ensures
      var known := w.current.Some? && w.current.value.version != "" && w.current.value.version == s.version;
      Run(s, es) == Some(s.(caller := who,
                            refresh := if w.current == None || known then Idle else Checking(w.current.value)))
  {
    hide Run;
    NoSteps(s);
    Extend(s, [], BeginRefresh(who));
    es := [] + [BeginRefresh(who)];
    if w.current == None {
      Extend(s, es, SourceFails);
      es := es + [SourceFails];
    } else {
      Extend(s, es, SourceGives(w.current.value));
      es := es + [SourceGives(w.current.value)];
      Extend(s, es, CompareVersion);
      es := es + [CompareVersion];
    }
  }

  /** Looking for the build on disk. */
  lemma Stats(s0: State, es: seq<Event>, s: State, w: World) returns (es': seq<Event>)
    requires Run(s0, es) == Some(s) && s.refresh.Checking?
    ensures
      var b := s.refresh.b;
      var opens := b.version != "" && Opens(s.files, b.File(), w.cachedOpens);
      Run(s0, es') == Some(s.(refresh := if opens then OpeningCached(b) else Downloading(b)))
  {
    hide Run;
    var b := s.refresh.b;
    Extend(s0, es, StatFile);
    es' := es + [StatFile];
    if b.version != "" && b.File() in s.files && !Opens(s.files, b.File(), w.cachedOpens) {
      Extend(s0, es', OpenCached(false));
      es' := es' + [OpenCached(false)];
    }
  }

  /** Where the refresh stands and who asked for it do not show in what loading leaves. */
  lemma LoadedFrom(s: State, r: Refresh, who: Caller, b: Build, removes: File -> bool)
    requires Opens(s.files, b.File(), true)
    ensures Loaded(s.(refresh := r, caller := who), b, removes) == Loaded(s, b, removes).(refresh := r, caller := who)
  {}

  lemma GivenUpFrom(s: State, r: Refresh, who: Caller, b: Build, removes: File -> bool)
    ensures GivenUp(s.(refresh := r, caller := who), b, removes) == GivenUp(s, b, removes).(refresh := r, caller := who)
  {}

  lemma DownloadedFrom(s: State, r: Refresh, who: Caller, b: Build, w: World)
    ensures Downloaded(s.(refresh := r, caller := who), b, w) == Downloaded(s, b, w).(refresh := r, caller := who)
  {
    GivenUpFrom(s, r, who, b, w.removes);
  }

  lemma FetchedFrom(s: State, r: Refresh, who: Caller, b: Build, w: World)
    ensures Fetched(s.(refresh := r, caller := who), b, w).state == Fetched(s, b, w).state.(refresh := r, caller := who)
  {
    DownloadedFrom(s, r, who, b, w);
    var t := Downloaded(s, b, w);
    if w.transfer.Moved? && Opens(t.files, b.File(), w.freshOpens) {
      LoadedFrom(t, r, who, b, w.removes);
    }
  }

  lemma Caches(s0: State, es: seq<Event>, s: State, w: World) returns (es': seq<Event>)
    requires Run(s0, es) == Some(s) && s.refresh.Checking? && LockFree(s)
    requires s.refresh.b.version != "" && Opens(s.files, s.refresh.b.File(), w.cachedOpens)
    ensures Run(s0, es') == Some(Loaded(s, s.refresh.b, w.removes).(refresh := Idle))
  {
    hide Run;
    var b := s.refresh.b;
    es' := Stats(s0, es, s, w);
    es' := Loads(s0, es', s.(refresh := OpeningCached(b)), w.removes);
    LoadedFrom(s, OpeningCached(b), s.caller, b, w.removes);
  }

  lemma Renews(s0: State, es: seq<Event>, s: State, w: World) returns (es': seq<Event>)
    requires Run(s0, es) == Some(s) && s.refresh.Checking? && LockFree(s) && Staging(w.tempName) !in s.files
    requires s.path.Some? ==> s.path.value.Database?
    requires !(s.refresh.b.version != "" && Opens(s.files, s.refresh.b.File(), w.cachedOpens))
    ensures Run(s0, es') == Some(Fetched(s, s.refresh.b, w).state.(refresh := Idle))
  {
    hide Run;
    es' := Stats(s0, es, s, w);
    es' := FetchesFor(s0, es', s, s.refresh.b, w);
  }

  lemma FetchesFor(s0: State, es: seq<Event>, s: State, b: Build, w: World) returns (es': seq<Event>)
    requires Run(s0, es) == Some(s.(refresh := Downloading(b))) && LockFree(s) && Staging(w.tempName) !in s.files
    requires s.path.Some? ==> s.path.value.Database?
    ensures Run(s0, es') == Some(Fetched(s, b, w).state.(refresh := Idle))
  {
    hide Run;
    var t := s.(refresh := Downloading(b), caller := s.caller);
    assert t == s.(refresh := Downloading(b));
    FetchedFrom(s, Downloading(b), s.caller, b, w);
    var after := Fetched(s, b, w).state;
    assert Fetched(t, b, w).state == after.(refresh := Downloading(b), caller := s.caller);
    FetchedIdle(s, b, w);
    es' := Fetches(s0, es, t, w);
  }

  /** One refresh of the code, whatever the world does, is a run of the protocol. */
  lemma RefreshIsRun(s: State, w: World, who: Caller) returns (es: seq<Event>)
    requires AtRest(s) && Admits(s, w)
    ensures Run(s, es) == Some(Refreshed(s, w).state.(caller := who))
  {
    hide Run;
    es := Asks(s, w, who);
    if w.current.Some? && !(w.current.value.version != "" && w.current.value.version == s.version) {
      var b := w.current.value;
      es := Proceeds(s, es, w, who, b);
    }
  }

  lemma Proceeds(s: State, es: seq<Event>, w: World, who: Caller, b: Build) returns (es': seq<Event>)
    requires LockFree(s) && Staging(w.tempName) !in s.files && (s.path.Some? ==> s.path.value.Database?)
             && s.refresh == Idle
    requires Run(s, es) == Some(s.(caller := who, refresh := Checking(b)))
    ensures
      var cached := b.version != "" && Opens(s.files, b.File(), w.cachedOpens);
      Run(s, es') == Some((if cached then Loaded(s, b, w.removes) else Fetched(s, b, w).state).(caller := who))
  {
    hide Run;
    if b.version != "" && Opens(s.files, b.File(), w.cachedOpens) {
      es' := Caches(s, es, s.(caller := who, refresh := Checking(b)), w);
      LoadedFrom(s, Checking(b), who, b, w.removes);
    } else {
      es' := Renews(s, es, s.(caller := who, refresh := Checking(b)), w);
      FetchedFrom(s, Checking(b), who, b, w);
      FetchedIdle(s, b, w);
    }
  }

  lemma FetchedIdle(s: State, b: Build, w: World)
    ensures Fetched(s, b, w).state.refresh == s.refresh && Fetched(s, b, w).state.caller == s.caller
  {}

  /** So it keeps every invariant of the protocol. */
  lemma RefreshKeeps(s: State, w: World, who: Caller)
    requires AtRest(s) && Admits(s, w)
    ensures AtRest(Refreshed(s, w).state.(caller := who))
  {
    var es := RefreshIsRun(s, w, who);
    RunKeeps(s, es);
    Untouched(s, w);
  }

  /** The fields that are not the cache's own. */
  ghost predicate SameRest(s: State, t: State) {
    && t.kind == s.kind && t.refresh == s.refresh && t.writer == s.writer && t.readers == s.readers
    && t.responses == s.responses && t.closer == s.closer && t.loopDone == s.loopDone && t.cancelled == s.cancelled
  }

  lemma LoadedTouches(s: State, b: Build, removes: File -> bool)
    requires Opens(s.files, b.File(), true)
    ensures SameRest(s, Loaded(s, b, removes))
  {}

  lemma FetchedTouches(s: State, b: Build, w: World)
    ensures SameRest(s, Fetched(s, b, w).state)
  {
    var t := Downloaded(s, b, w);
    DownloadedTouches(s, b, w);
    if w.transfer.Moved? && Opens(t.files, b.File(), w.freshOpens) {
      hide Loaded, Downloaded;
      LoadedTouches(t, b, w.removes);
    }
  }

  lemma DownloadedTouches(s: State, b: Build, w: World)
    ensures SameRest(s, Downloaded(s, b, w))
  {}

  /** A refresh leaves the locks, the queries and the closer alone. */
  lemma Untouched(s: State, w: World)
    ensures SameRest(s, Refreshed(s, w).state)
  {
    if w.current.Some? {
      var b := w.current.value;
      FetchedTouches(s, b, w);
      if Opens(s.files, b.File(), w.cachedOpens) {
        LoadedTouches(s, b, w.removes);
      }
    }
  }

  // ---- what a failed refresh and a successful one leave ----

  /** A failed refresh of the server's cache changes nothing but the directory, where no file
      appears that could be removed, and no file changes but the one of the build asked for. */
  lemma FailedRefreshKeepsServing(s: State, w: World, f: File)
    requires AtRest(s) && Admits(s, w) && s.kind == DbCache && Refreshed(s, w).err
    ensures
      var t := Refreshed(s, w).state;
      var target := if w.current.Some? then Some(w.current.value.File()) else None;
      && t == s.(files := t.files) && (target.Some? ==> s.path != target)
      && (f in t.files ==> f in s.files || (Some(f) == target && !w.removes(f)))
      && (Some(f) != target ==> (f in t.files <==> f in s.files) && (f in s.files ==> t.files[f] == s.files[f]))
  {}

  /** The file of the build asked for is left exactly when a finished download that did not open
      could not be removed, or, with no finished download, when it was there before; then it is
      what it was, usable or not. */
  lemma FailedRefreshLeavesTarget(s: State, w: World)
    requires AtRest(s) && Admits(s, w) && s.kind == DbCache && Refreshed(s, w).err && w.current.Some?
    ensures
      var t, target := Refreshed(s, w).state, w.current.value.File();
      && (target in t.files <==> if w.transfer.Moved? then !w.removes(target) else target in s.files)
      && (target in t.files ==> t.files[target] == if w.transfer.Moved? then w.transfer.content else s.files[target])
  {
    hide Inv;
  }

  /** So an unusable file survives a download that brings nothing: the next start finds it again. */
  lemma UnusableFileSurvives(removes: File -> bool)
    ensures
      var s := Init(DbCache, map[Database("v") := Unusable]);
      var w := World(Some(Build("v", None)), true, NoBody, true, removes, 0);
      AtRest(s) && Admits(s, w) && Refreshed(s, w) == Finish(s, true) && s.files[Database("v")] == Unusable
  {
    InitInv(DbCache, map[Database("v") := Unusable]);
  }

  /** A successful one that changes version leaves exactly its own file, of those that could be
      removed, mapped and open; whatever is no database file stays. */
  lemma SuccessfulRefreshLeavesOneFile(s: State, w: World, f: File)
    requires AtRest(s) && Admits(s, w) && s.kind == DbCache && !Refreshed(s, w).err
    requires Refreshed(s, w).state.version != s.version
    ensures
      var t := Refreshed(s, w).state;
      && t.version == w.current.value.version && t.path == Some(Database(t.version)) && Database(t.version) in t.files
      && t.db == Some(|s.mappings|) && t.open == {|s.mappings|}
      && (f in t.files && f.Sweepable() && w.removes(f) ==> f == Database(t.version))
      && (f in s.files && !f.Sweepable() ==> f in t.files && t.files[f] == s.files[f])
  {
    hide Inv;
    RestOpen(s);
    var b := w.current.value;
    if Opens(s.files, b.File(), w.cachedOpens) {
      LoadedLeaves(s, b, w.removes, f);
    } else {
      LoadedLeaves(Downloaded(s, b, w), b, w.removes, f);
    }
  }

  lemma LoadedLeaves(s: State, b: Build, removes: File -> bool, f: File)
    requires s.kind == DbCache && Opens(s.files, b.File(), true) && s.open == (if s.db.Some? then {s.db.value} else {})
    requires s.path != Some(b.File()) && (s.path.Some? ==> s.path.value.Database?)
             && (s.db.Some? ==> s.db.value < |s.mappings|)
    ensures
      var t := Loaded(s, b, removes);
      && t.db == Some(|s.mappings|) && t.open == {|s.mappings|} && b.File() in t.files
      && (f in t.files && f.Sweepable() && removes(f) ==> f == b.File())
      && (f in s.files && !f.Sweepable() ==> f in t.files && t.files[f] == s.files[f])
  {
    assert Less(s.open + {|s.mappings|}, s.db) == {|s.mappings|};
  }

  /** At rest exactly the mapped handle is open, on its version's file. */
  lemma RestOpen(s: State)
    requires AtRest(s)
    ensures s.open == (if s.db.Some? then {s.db.value} else {}) && MappedConsistent(s)
  {
    assert forall h :: h in s.open <==> s.db == Some(h);
  }

  /** When the Caddy store gives up what it serves: a build without a version, to go where the
      served one already is, has been downloaded to the end. */
  predicate Replaces(s: State, w: World) {
    && w.current.Some? && w.current.value.version == "" && s.path == Some(Database(""))
    && (w.transfer.NotMoved? || w.transfer.Moved?)
  }

  /** A failed refresh of the Caddy store either keeps serving what it did, unless it had begun to
      replace it in place, and then nothing is loaded and nothing open. */
  lemma FailedCaddyRefresh(s: State, w: World)
    requires AtRest(s) && Admits(s, w) && s.kind == Caddy && Refreshed(s, w).err
    ensures
      var t := Refreshed(s, w).state;
      if Replaces(s, w) then t.db == None && t.path == None && t.version == "" && t.open == {}
      else t == s.(files := t.files)
           && (s.path.Some? ==> s.path.value in t.files && t.files[s.path.value] == s.files[s.path.value])
  {
    hide Inv;
    RestOpen(s);
  }

  /** That does happen: a build without a version is served, the next one is downloaded to the end
      and cannot be moved into place. */
  lemma CaddyGivesUp(content: Content, removes: File -> bool)
    requires content.Mmdb?
    ensures
      var first := World(Some(Build("", None)), true, Moved(content), true, removes, 0);
      var s := Refreshed(Init(Caddy, map[]), first).state.(caller := Loop);
      var next := Refreshed(s, first.(transfer := NotMoved(content)));
      AtRest(s) && s.db.Some? && next.err && next.state.db == None && next.state.open == {}
  {
    var first := World(Some(Build("", None)), true, Moved(content), true, removes, 0);
    InitInv(Caddy, map[]);
    RefreshKeeps(Init(Caddy, map[]), first, Loop);
    var s := Refreshed(Init(Caddy, map[]), first).state.(caller := Loop);
    FailedCaddyRefresh(s, first.(transfer := NotMoved(content)));
  }

  /** Whatever is downloaded, it is never moved onto a file that is then mapped. */
  lemma NeverMovedOntoMapped(s: State, w: World)
    requires AtRest(s) && Admits(s, w) && w.current.Some? && w.transfer.Moved?
    requires !(w.current.value.version != "" && w.current.value.version == s.version)
    ensures GivenUp(s, w.current.value, w.removes).path != Some(w.current.value.File())
  {}

  // ---- a query ----

  datatype Match = Match(addr: Addr, result: Result)

  /** The records of the addresses that have one. */
  function Matches(content: Content, addrs: seq<Addr>): seq<Match> {
    if addrs == [] then []
    else
      var before := Matches(content, addrs[..|addrs| - 1]);
      var last := addrs[|addrs| - 1];
      match LookupIn(content, last)
      case Found(result) => before + [Match(last, result)]
      case _ => before
  }

  /** A match for exactly the addresses that have a record, each with that record. */
  lemma {:induction false} MatchesAreRecords(content: Content, addrs: seq<Addr>, m: Match)
    ensures m in Matches(content, addrs) <==>
              m.addr in addrs && content.Mmdb? && m.addr in content.records && content.records[m.addr] == Good(m.result)
  {
    if addrs != [] {
      MatchesAreRecords(content, addrs[..|addrs| - 1], m);
      assert addrs == addrs[..|addrs| - 1] + [addrs[|addrs| - 1]];
    }
  }

  /** The matches come in the order asked, an address asked twice twice. */
  lemma {:induction false} MatchesInOrder(content: Content, addrs: seq<Addr>, more: seq<Addr>)
    ensures Matches(content, addrs + more) == Matches(content, addrs) + Matches(content, more)
    ensures |addrs| == 1 ==> |Matches(content, addrs)| <= 1
  {
    if more == [] {
      assert addrs + more == addrs;
    } else {
      var init, last := more[..|more| - 1], more[|more| - 1];
      MatchesInOrder(content, addrs, init);
      assert (addrs + more)[..|addrs + more| - 1] == addrs + init;
    }
    if |addrs| == 1 {
      assert Matches(content, addrs[..0]) == [];
    }
  }

  /** What a query hands on of its lookups. */
  function MatchesOf(addrs: seq<Addr>, outcomes: seq<Outcome>): seq<Match>
    requires |outcomes| == |addrs|
  {
    if addrs == [] then []
    else
      var n := |addrs| - 1;
      var before := MatchesOf(addrs[..n], outcomes[..n]);
      match outcomes[n]
      case Found(result) => before + [Match(addrs[n], result)]
      case _ => before
  }

  /** Lookups on one mapping make that mapping's matches. */
  lemma {:induction false} MatchesFromOutcomes(content: Content, addrs: seq<Addr>, outcomes: seq<Outcome>)
    requires |outcomes| == |addrs| && forall i :: 0 <= i < |addrs| ==> outcomes[i] == LookupIn(content, addrs[i])
    ensures MatchesOf(addrs, outcomes) == Matches(content, addrs)
  {
    if addrs != [] {
      MatchesFromOutcomes(content, addrs[..|addrs| - 1], outcomes[..|addrs| - 1]);
    }
  }

  ghost function Outcomes(content: Content, addrs: seq<Addr>): seq<Outcome> {
    seq(|addrs|, i requires 0 <= i < |addrs| => LookupIn(content, addrs[i]))
  }

  /** A query alone on the cache: one response, from what is mapped, or none at all. */
  ghost function Queried(s: State, addrs: seq<Addr>): State
    requires s.db.Some? ==> s.db.value < |s.mappings|
  {
    if s.db == None then s
    else
      var content := s.mappings[s.db.value].content;
      if exists a :: a in addrs && LookupIn(content, a) == Broken then s
      else s.(responses := s.responses +
                           [Response(addrs, Repeat(s.db.value, |addrs|), Outcomes(content, addrs), s.createdAt)])
  }

  ghost function Repeat(h: Handle, n: nat): seq<Handle> { seq(n, _ => h) }

  /** The state with the one query past its first i lookups. */
  ghost function Mid(s: State, addrs: seq<Addr>, i: nat): State
    requires s.db.Some? && s.db.value < |s.mappings| && i <= |addrs|
  {
    var content := s.mappings[s.db.value].content;
    s.(readers := map[0 := Reader(addrs, Repeat(s.db.value, i), Outcomes(content, addrs[..i]), None)])
  }

  lemma Begins(s: State, es: seq<Event>, addrs: seq<Addr>, i: nat)
    requires s.db.Some? && s.db.value < |s.mappings| && i < |addrs| && Run(s, es) == Some(Mid(s, addrs, i))
    ensures
      var rd := Mid(s, addrs, i).readers[0];
      Run(s, es + [LookupBegin(0)]) == Some(s.(readers := map[0 := rd.(inside := s.db)]))
  {
    hide Run;
    Extend(s, es, LookupBegin(0));
    BeginsReader(Mid(s, addrs, i), Mid(s, addrs, i).readers[0]);
  }

  lemma BeginsReader(s: State, rd: Reader)
    requires s.readers == map[0 := rd] && rd.inside == None && |rd.used| < |rd.asked| && s.db.Some?
    ensures Do(s, LookupBegin(0)) == Some(s.(readers := map[0 := rd.(inside := s.db)]))
  {
    assert s.readers[0 := rd.(inside := s.db)] == map[0 := rd.(inside := s.db)];
  }

  /** One lookup, which ends the query when the record does not decode. */
  lemma Looks(s: State, es: seq<Event>, addrs: seq<Addr>, i: nat) returns (es': seq<Event>)
    requires s.db.Some? && s.db.value < |s.mappings| && i < |addrs| && s.readers == map[]
    requires Run(s, es) == Some(Mid(s, addrs, i))
    ensures
      var broken := LookupIn(s.mappings[s.db.value].content, addrs[i]) == Broken;
      Run(s, es') == Some(if broken then s else Mid(s, addrs, i + 1))
  {
    hide Run;
    var content := s.mappings[s.db.value].content;
    var rd := Mid(s, addrs, i).readers[0].(inside := s.db);
    var t := s.(readers := map[0 := rd]);
    Begins(s, es, addrs, i);
    es' := es + [LookupBegin(0)];
    var broken := LookupIn(content, addrs[i]) == Broken;
    var e := if broken then LookupFails(0) else LookupEnd(0);
    Extend(s, es', e);
    es' := es' + [e];
    var rd' := Reader(addrs, rd.used + [s.db.value], rd.outcomes + [LookupIn(content, addrs[i])], None);
    assert t.readers - {0} == map[];
    assert t.readers[0 := rd'] == map[0 := rd'];
    assert rd.used + [s.db.value] == Repeat(s.db.value, i + 1);
    assert rd'.outcomes == Outcomes(content, addrs[..i + 1]);
  }

  lemma Enters(s: State, addrs: seq<Addr>)
    requires s.readers == map[] && s.writer == None
    ensures Run(s, [Enter(0, addrs)]) == Some(s.(readers := map[0 := Reader(addrs, [], [], None)]))
  {
    hide Run;
    NoSteps(s);
    Extend(s, [], Enter(0, addrs));
    assert [] + [Enter(0, addrs)] == [Enter(0, addrs)];
    assert s.readers[0 := Reader(addrs, [], [], None)] == map[0 := Reader(addrs, [], [], None)];
  }

  lemma Leaves(s: State, es: seq<Event>, addrs: seq<Addr>)
    requires s.db.Some? && s.db.value < |s.mappings| && s.readers == map[]
    requires Run(s, es) == Some(Mid(s, addrs, |addrs|))
    requires forall a :: a in addrs ==> LookupIn(s.mappings[s.db.value].content, a) != Broken
    ensures Run(s, es + [Leave(0)]) == Some(Queried(s, addrs))
  {
    hide Run;
    Extend(s, es, Leave(0));
    assert addrs[..|addrs|] == addrs;
    assert Mid(s, addrs, |addrs|).readers - {0} == map[];
  }

  /** The lookups from the i-th on. */
  lemma Finishes(s: State, es: seq<Event>, addrs: seq<Addr>, i: nat) returns (es': seq<Event>)
    requires s.db.Some? && s.db.value < |s.mappings| && i <= |addrs| && s.readers == map[]
    requires Run(s, es) == Some(Mid(s, addrs, i))
    requires forall a :: a in addrs[..i] ==> LookupIn(s.mappings[s.db.value].content, a) != Broken
    ensures Run(s, es') == Some(Queried(s, addrs))
    decreases |addrs| - i
  {
    hide Run;
    if i == |addrs| {
      assert addrs[..i] == addrs;
      Leaves(s, es, addrs);
      es' := es + [Leave(0)];
    } else {
      es' := Looks(s, es, addrs, i);
      if LookupIn(s.mappings[s.db.value].content, addrs[i]) != Broken {
        assert addrs[..i + 1] == addrs[..i] + [addrs[i]];
        es' := Finishes(s, es', addrs, i + 1);
      }
    }
  }

  /** A query of the code is a run of the protocol. */
  lemma QueryIsRun(s: State, addrs: seq<Addr>) returns (es: seq<Event>)
    requires AtRest(s)
    ensures Run(s, es) == Some(Queried(s, addrs))
  {
    hide Run;
    es := [Enter(0, addrs)];
    Enters(s, addrs);
    if s.db == None {
      Extend(s, es, NotLoaded(0));
      es := es + [NotLoaded(0)];
      assert map[0 := Reader(addrs, [], [], None)] - {0} == map[];
    } else {
      assert Mid(s, addrs, 0).readers[0] == Reader(addrs, [], [], None);
      es := Finishes(s, es, addrs, 0);
    }
  }

  // ---- closing ----

  ghost function Ended(s: State): State { s.(closer := Closed, cancelled := true, loopDone := true) }

  /** Closing when no refresh is under way is a run of the protocol. */
  lemma CloseIsRun(s: State) returns (es: seq<Event>)
    requires AtRest(s)
    ensures
      var t := s.(open := Less(s.open, s.db), db := None, path := None, version := "");
      Run(s, es) == Some(Ended(if s.db.Some? then t else s))
  {
    hide Run;
    es := Waits(s);
    var t := s.(cancelled := true, loopDone := true, closer := WaitingLock);
    Extend(s, es, LockForClose);
    es := es + [LockForClose];
    es := Unmaps(s, es, t.(writer := Some(ByCloser), closer := Locked));
  }

  lemma Waits(s: State) returns (es: seq<Event>)
    requires s.closer == NotCalled && s.refresh == Idle && !s.loopDone
    ensures Run(s, es) == Some(s.(cancelled := true, loopDone := true, closer := WaitingLock))
  {
    hide Run;
    Calls(s);
    es := Winds(s, [CallClose], s.(cancelled := true, closer := WaitingDone));
  }

  lemma Calls(s: State)
    requires s.closer == NotCalled && s.refresh == Idle
    ensures Run(s, [CallClose]) == Some(s.(cancelled := true, closer := WaitingDone))
  {
    hide Run;
    NoSteps(s);
    Extend(s, [], CallClose);
    assert [] + [CallClose] == [CallClose];
  }

  lemma Winds(s0: State, es: seq<Event>, s: State) returns (es': seq<Event>)
    requires Run(s0, es) == Some(s) && s.closer == WaitingDone && s.refresh == Idle && s.cancelled && !s.loopDone
    ensures Run(s0, es') == Some(s.(loopDone := true, closer := WaitingLock))
  {
    hide Run;
    Extend(s0, es, LoopExit);
    es' := es + [LoopExit];
    Extend(s0, es', SeeDone);
    es' := es' + [SeeDone];
  }

  lemma Unmaps(s0: State, es: seq<Event>, s: State) returns (es': seq<Event>)
    requires Run(s0, es) == Some(s) && s.closer == Locked && s.writer == Some(ByCloser)
    ensures
      var t := s.(open := Less(s.open, s.db), db := None, path := None, version := "");
      Run(s0, es') == Some((if s.db.Some? then t else s).(closer := Closed, writer := None))
  {
    hide Run;
    Extend(s0, es, Unmap);
    es' := es + [Unmap];
    if s.db.Some? {
      es' := Lasts(s0, es', s.(db := None, path := None, version := "", closer := Closing(s.db.value)), s.db.value);
    }
  }

  lemma Lasts(s0: State, es: seq<Event>, s: State, h: Handle) returns (es': seq<Event>)
    requires Run(s0, es) == Some(s) && s.closer == Closing(h)
    ensures Run(s0, es') == Some(s.(open := s.open - {h}, closer := Closed, writer := None))
  {
    hide Run;
    Extend(s0, es, CloseLast);
    es' := es + [CloseLast];
  }
}
