/** The Caddy module's store as its own code runs it (caddy/maat/store.go). It differs from the
    server's cache: a build may have no version and then lives at one fixed path, what is mapped
    there is given up before it is overwritten, a download that does not open stays on disk, and
    nothing sweeps the directory. */
module CaddyStores {
  import opened Prefixes
  import opened MappedProtocol
  import opened CacheRuns

  class Store {
    var files: map<File, Content>
    var mappings: seq<Mapping>
    var open: set<Handle>
    var db: Option<Handle>
    var path: Option<File>
    var version: string
    ghost var createdAt: Time

    constructor (files: map<File, Content>)
      ensures Valid() && this.files == files && At(Idle) == Init(Caddy, files)
    {
      this.files, mappings, open := files, [], {};
      db, path, version, createdAt := None, None, "", 0;
    }

    /** The protocol's state when the refresh stands at pc, no lookup is running and nothing has
        been closed. */
    ghost function At(pc: Refresh): State
      reads this
    {
      State(Caddy, files, mappings, open, db, path, version, createdAt, None, map[], [],
            pc, Loop, NotCalled, false, false)
    }

    ghost predicate Valid()
      reads this
    {
      AtRest(At(Idle))
    }

    /** Closes the retired mapping and removes its file unless that is the one in use. */
    method Release(retired: Option<Handle>, file: Option<File>, keep: Option<File>, removes: File -> bool)
      modifies this`open, this`files
      ensures open == Less(old(open), retired)
      ensures files == Released(old(files), retired, file, keep, removes)
    {
      if retired == None {
        return;
      }
      open := open - {retired.value};
      if file == None || file == keep {
        return;
      }
      if removes(file.value) {
        files := files - {file.value};
      }
    }

    /** Drops what is mapped, leaving nothing to serve. */
    method UnloadMapped(removes: File -> bool)
      modifies this`files, this`open, this`db, this`path, this`version
      ensures At(Idle) == Unloaded(old(At(Idle)), removes)
      ensures db == None
    {
      var retired, retiredPath := db, path;
      db, path, version := None, None, "";
      Release(retired, retiredPath, None, removes);
    }

    /** Maps the build's file and swaps it in, or reports that it does not open. */
    method Load(b: Build, lucky: bool, removes: File -> bool) returns (loaded: bool)
      modifies this`files, this`mappings, this`open, this`db, this`path, this`version, this`createdAt
      ensures loaded <==> Opens(old(files), b.File(), lucky)
      ensures loaded <==> lucky && b.File() in old(files) && old(files)[b.File()].Mmdb?
      ensures At(Idle) == if loaded then Loaded(old(At(Idle)), b, removes) else old(At(Idle))
    {
      var file := b.File();
      if !Opens(files, file, lucky) {
        return false;
      }
      var h := |mappings|;
      var m := Mapped(b, files[file]);
      mappings := mappings + [m];
      open := open + {h};
      var retired, retiredPath := db, path;
      db, path, version, createdAt := Some(h), Some(file), b.version, m.createdAt;
      Release(retired, retiredPath, Some(file), removes);
      return true;
    }

    /** Stages the transfer, gives up what is mapped at its destination, and moves it there. */
    method Download(b: Build, w: World) returns (ok: bool)
      requires Staging(w.tempName) !in files && (path.Some? ==> path.value.Database?)
      modifies this`files, this`open, this`db, this`path, this`version
      ensures ok <==> w.transfer.Moved?
      ensures At(Idle) == Downloaded(old(At(Idle)), b, w)
    {
      if w.transfer.NoBody? {
        return false;
      }
      var tmp := Staging(w.tempName);
      ghost var before := At(Idle);
      files := files[tmp := Unusable];
      if w.transfer.CutShort? {
        files := files - {tmp};
        assert files == before.files;
        return false;
      }
      files := files[tmp := w.transfer.content];
      if Some(b.File()) == path {
        UnloadMapped(w.removes);
      }
      assert files - {tmp} == GivenUp(before, b, w.removes).files;
      if w.transfer.NotMoved? {
        files := files - {tmp};
        return false;
      }
      files := (files - {tmp})[b.File() := files[tmp]];
      return true;
    }

    /** refresh: what it leaves is what Refreshed says, and a run of the protocol. */
    method Refresh(w: World) returns (err: bool, ghost es: seq<Event>)
      requires Valid() && Admits(At(Idle), w)
      modifies this
      ensures Valid() && At(Idle) == Refreshed(old(At(Idle)), w).state && err == Refreshed(old(At(Idle)), w).err
      ensures Run(old(At(Idle)), es) == Some(At(Idle))
    {
      ghost var s := At(Idle);
      RefreshKeeps(s, w, Loop);
      es := RefreshIsRun(s, w, Loop);
      err := Renew(w);
    }

    method Renew(w: World) returns (err: bool)
      requires Staging(w.tempName) !in files && (path.Some? ==> path.value.Database?)
      modifies this`files, this`mappings, this`open, this`db, this`path, this`version, this`createdAt
      ensures At(Idle) == Refreshed(old(At(Idle)), w).state && err == Refreshed(old(At(Idle)), w).err
    {
      if w.current == None {
        return true;
      }
      var b := w.current.value;
      if b.version != "" && b.version == version {
        return false;
      }
      if b.version != "" {
        if b.File() in files {
          var cached := Load(b, w.cachedOpens, w.removes);
          if cached {
            return false;
          }
        }
      }
      var got := Download(b, w);
      if !got {
        return true;
      }
      var loaded := Load(b, w.freshOpens, w.removes);
      return !loaded;
    }

    /** lookup: one address against what is mapped. */
    method Lookup(addr: Addr) returns (outcome: Outcome, loaded: bool, ghost es: seq<Event>)
      requires Valid()
      ensures loaded <==> db.Some?
      ensures loaded ==> db.value < |mappings| && mappings[db.value].content.Mmdb?
      ensures loaded ==>
                var records := mappings[db.value].content.records;
                match outcome
                case Found(result) => addr in records && records[addr] == Good(result)
                case Missing => addr !in records
                case Broken => addr in records && records[addr] == Undecodable
      ensures !loaded ==> outcome == Missing
      ensures Run(At(Idle), es) == Some(Queried(At(Idle), [addr]))
    {
      es := QueryIsRun(At(Idle), [addr]);
      if db == None {
        return Missing, false, es;
      }
      return LookupIn(mappings[db.value].content, addr), true, es;
    }

    /** Destruct, once the loop has ended: nothing is mapped or open, and no file is touched. */
    method Destruct() returns (ghost es: seq<Event>)
      requires Valid()
      modifies this`db, this`path, this`version, this`open
      ensures db == None && path == None && version == "" && open == {}
      ensures Run(old(At(Idle)), es) == Some(Ended(At(Idle)))
    {
      es := CloseIsRun(At(Idle));
      RestOpen(At(Idle));
      if db == None {
        return;
      }
      open := open - {db.value};
      db, path, version := None, None, "";
    }
  }
}
