/** The server's cache as its own code runs it: each call changes the fields and the directory in
    order, and what it does is a run of the protocol (cmd/reputationdbd/internal/dbcache/cache.go). */
module DbCaches {
  import opened Prefixes
  import opened MappedProtocol
  import opened CacheRuns

  class Cache {
    var files: map<File, Content>
    var mappings: seq<Mapping>
    var open: set<Handle>
    var db: Option<Handle>
    var path: Option<File>
    var version: string
    var createdAt: Time
    ghost var caller: Caller

    constructor (files: map<File, Content>)
      ensures Valid() && this.files == files && At(Idle) == Init(DbCache, files)
    {
      this.files, mappings, open := files, [], {};
      db, path, version, createdAt := None, None, "", 0;
      caller := Loop;
    }

    /** The protocol's state when the refresh stands at pc, no query is running and nothing has
        been closed. */
    ghost function At(pc: Refresh): State
      reads this
    {
      State(DbCache, files, mappings, open, db, path, version, createdAt, None, map[], [],
            pc, caller, NotCalled, false, false)
    }

    ghost predicate Valid()
      reads this
    {
      AtRest(At(Idle))
    }

    /** Closes the retired mapping and removes its file unless that is the one in use. */
    method Release(retired: Option<Handle>, file: Option<File>, keep: Option<File>, removes: File -> bool)
      modifies this`open, this`files
      ensures open == Less(old(open), retired)
      ensures files == Released(old(files), retired, file, keep, removes)
    {
      if retired == None {
        return;
      }
      open := open - {retired.value};
      if file == None || file == keep {
        return;
      }
      if removes(file.value) {
        files := files - {file.value};
      }
    }

    /** Removes every database file other than keep. */
    method Sweep(keep: File, removes: File -> bool)
      modifies this`files
      ensures files == Swept(old(files), keep, removes)
      ensures forall f :: f in old(files) ==>
                (f in files <==> !(f.Database? || f.Stray?) || f == keep || !removes(f))
    {
      var matches := set f | f in files && f.Sweepable();
      ghost var gone: set<File> := {};
      while matches != {}
        invariant files == old(files) - gone
        invariant forall f :: f in gone <==>
                            f in old(files) && f !in matches && f.Sweepable() && f != keep && removes(f)
        invariant forall f :: f in matches ==> f in old(files) && f.Sweepable()
        decreases matches
      {
        var f :| f in matches;
        matches := matches - {f};
        if f == keep {
          continue;
        }
        if removes(f) {
          files := files - {f};
          gone := gone + {f};
        }
      }
      assert gone == set f | f in old(files) && f.Sweepable() && f != keep && removes(f);
    }

    /** Maps the build's file and swaps it in, or reports that it does not open. */
    method Load(b: Build, lucky: bool, removes: File -> bool) returns (loaded: bool)
      modifies this`files, this`mappings, this`open, this`db, this`path, this`version, this`createdAt
      ensures loaded <==> Opens(old(files), b.File(), lucky)
      ensures loaded <==> lucky && b.File() in old(files) && old(files)[b.File()].Mmdb?
      ensures At(Idle) == if loaded then Loaded(old(At(Idle)), b, removes) else old(At(Idle))
    {
      var file := b.File();
      if !Opens(files, file, lucky) {
        return false;
      }
      var h := |mappings|;
      var m := Mapped(b, files[file]);
      mappings := mappings + [m];
      open := open + {h};
      var retired, retiredPath := db, path;
      db, path, version, createdAt := Some(h), Some(file), b.version, m.createdAt;
      Release(retired, retiredPath, Some(file), removes);
      Sweep(file, removes);
      return true;
    }

    /** Stages the transfer and moves it into place. */
    method Download(b: Build, w: World) returns (ok: bool)
      requires Staging(w.tempName) !in files
      modifies this`files
      ensures ok <==> w.transfer.Moved?
      ensures files == if ok then old(files)[b.File() := w.transfer.content] else old(files)
    {
      if w.transfer.NoBody? {
        return false;
      }
      var tmp := Staging(w.tempName);
      ghost var before := files;
      files := files[tmp := Unusable];
      if w.transfer.CutShort? {
        files := files - {tmp};
        assert files == before;
        return false;
      }
      files := files[tmp := w.transfer.content];
      if w.transfer.NotMoved? {
        files := files - {tmp};
        assert files == before;
        return false;
      }
      files := (files - {tmp})[b.File() := files[tmp]];
      assert files == before[b.File() := w.transfer.content];
      return true;
    }

    /** Refresh: what it leaves is what Refreshed says, and a run of the protocol. */
    method Refresh(w: World, who: Caller) returns (err: bool, ghost es: seq<Event>)
      requires Valid() && Admits(At(Idle), w)
      modifies this
      ensures Valid() && caller == who
      ensures At(Idle) == Refreshed(old(At(Idle)), w).state.(caller := who) && err == Refreshed(old(At(Idle)), w).err
      ensures Run(old(At(Idle)), es) == Some(At(Idle))
    {
      ghost var s := At(Idle);
      RefreshKeeps(s, w, who);
      es := RefreshIsRun(s, w, who);
      err := Renew(w);
      caller := who;
    }

    method Renew(w: World) returns (err: bool)
      requires Staging(w.tempName) !in files && (w.current.Some? ==> w.current.value.version != "")
      modifies this`files, this`mappings, this`open, this`db, this`path, this`version, this`createdAt
      ensures At(Idle) == Refreshed(old(At(Idle)), w).state && err == Refreshed(old(At(Idle)), w).err
    {
      if w.current == None {
        return true;
      }
      var b := w.current.value;
      if b.version == version {
        return false;
      }
      if b.File() in files {
        var cached := Load(b, w.cachedOpens, w.removes);
        if cached {
          return false;
        }
      }
      var got := Download(b, w);
      if !got {
        return true;
      }
      var loaded := Load(b, w.freshOpens, w.removes);
      if !loaded && w.removes(b.File()) {
        files := files - {b.File()};
      }
      return !loaded;
    }

    /** Query: the records of the addresses that have one, all from the one mapping, under its
        date; nothing when nothing is mapped. What it does is a query of the protocol. */
    method Query(addrs: seq<Addr>)
        returns (matches: seq<Match>, created: Time, loaded: bool, failed: bool, ghost es: seq<Event>)
      requires Valid()
      ensures loaded <==> db.Some?
      ensures !loaded ==> matches == [] && !failed
      ensures loaded ==> created == createdAt && db.value < |mappings| && mappings[db.value].content.Mmdb?
      ensures loaded ==>
                var records := mappings[db.value].content.records;
                && (failed <==> exists a :: a in addrs && a in records && records[a] == Undecodable)
                && (!failed ==> forall m :: m in matches <==>
                      m.addr in addrs && m.addr in records && records[m.addr] == Good(m.result))
      ensures loaded ==> matches == if failed then [] else Matches(mappings[db.value].content, addrs)
      ensures Run(At(Idle), es) == Some(Queried(At(Idle), addrs))
    {
      es := QueryIsRun(At(Idle), addrs);
      if db == None {
        return [], 0, false, false, es;
      }
      matches := [];
      var content := mappings[db.value].content;
      for i := 0 to |addrs|
        invariant forall a :: a in addrs[..i] ==> LookupIn(content, a) != Broken
        invariant matches == Matches(content, addrs[..i])
      {
        assert addrs[..i + 1] == addrs[..i] + [addrs[i]];
        match LookupIn(content, addrs[i])
        case Broken => return [], createdAt, true, true, es;
        case Missing =>
        case Found(result) => matches := matches + [Match(addrs[i], result)];
      }
      assert addrs[..|addrs|] == addrs;
      forall m
        ensures m in matches <==>
                  m.addr in addrs && m.addr in content.records && content.records[m.addr] == Good(m.result)
      {
        MatchesAreRecords(content, addrs, m);
      }
      return matches, createdAt, true, false, es;
    }

    /** Close, once the loop has ended: nothing is mapped or open, and no file is touched. */
    method Close() returns (ghost es: seq<Event>)
      requires Valid()
      modifies this`db, this`path, this`version, this`open
      ensures db == None && path == None && version == "" && open == {}
      ensures Run(old(At(Idle)), es) == Some(Ended(At(Idle)))
    {
      es := CloseIsRun(At(Idle));
      RestOpen(At(Idle));
      if db == None {
        return;
      }
      open := open - {db.value};
      db, path, version := None, None, "";
    }
  }
}
