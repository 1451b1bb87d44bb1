/** The self-refreshing mapped database as a protocol: any number of queries, one refresh at a
    time, and a closer, interleaved between any two of their steps
    (cmd/reputationdbd/internal/dbcache/cache.go, caddy/maat/store.go). */
module MappedProtocol {
  import opened Prefixes
  import opened Records

  type Time = int
  type Handle = nat

  /** Which of the two stores this is. */
  datatype Kind = DbCache | Caddy

  /** File names. databasePath is injective on versions; sweep's pattern matches database files
      and other files named like them, never staging files. */
  datatype File = Database(version: string) | Staging(id: nat) | Stray(name: string) | Foreign(name: string) {
    predicate Sweepable() { Database? || Stray? }
  }

  /** A record that decodes, or one that does not. */
  datatype Stored = Good(result: Result) | Undecodable

  /** A file that is no database, or what a database holds. */
  datatype Content = Unusable | Mmdb(records: map<Addr, Stored>, builtAt: Time)

  /** What a lookup finds: a record, none, or one that does not decode. */
  datatype Outcome = Found(result: Result) | Missing | Broken

  function LookupIn(content: Content, a: Addr): Outcome {
    if content.Mmdb? && a in content.records then
      match content.records[a]
      case Good(result) => Found(result)
      case Undecodable => Broken
    else Missing
  }

  /** What a lookup among these records may say: the record itself, that there is none, or that the one
      there does not decode. */
  ghost predicate Finds(records: map<Addr, Stored>, a: Addr, outcome: Outcome) {
    match outcome
    case Found(result) => a in records && records[a] == Good(result)
    case Missing => a !in records
    case Broken => a in records && records[a] == Undecodable
  }

  /** What the source says is current. */
  datatype Build = Build(version: string, createdAt: Option<Time>) {
    function File(): File { Database(version) }
  }

  /** One opened file. Handles index the list of all files ever opened. */
  datatype Mapping = Mapping(file: File, version: string, createdAt: Time, content: Content)

  // ---- threads ----

  /** A query inside its read lock: for each address so far the handle its lookup ran on and what
      it returned, and the handle a lookup is running on now. */
  datatype Reader = Reader(asked: seq<Addr>, used: seq<Handle>, outcomes: seq<Outcome>, inside: Option<Handle>)

  datatype Response = Response(asked: seq<Addr>, used: seq<Handle>, outcomes: seq<Outcome>, createdAt: Time)

  datatype Caller = Loop | External

  /** Where the refresh stands. */
  datatype Refresh =
    | Idle
    | Asking
    | Comparing(b: Build)
    | Checking(b: Build)
    | OpeningCached(b: Build)
    | Downloading(b: Build)
    | Writing(b: Build, tmp: nat)
    | Written(b: Build, tmp: nat)
    | UnloadWaiting(b: Build, tmp: nat)
    | UnloadLocked(b: Build, tmp: nat)
    | UnloadClosing(b: Build, tmp: nat, retired: Option<Handle>, oldFile: Option<File>)
    | UnloadRemoving(b: Build, tmp: nat, gone: File)
    | Renaming(b: Build, tmp: nat)
    | OpeningFresh(b: Build)
    | Discarding(b: Build)
    | SwapWaiting(b: Build, handle: Handle)
    | SwapLocked(b: Build, handle: Handle)
    | Retiring(keep: File, retired: Option<Handle>, oldFile: Option<File>)
    | RemovingOld(keep: File, gone: File)
    | Sweeping(keep: File)

  datatype Closer = NotCalled | WaitingDone | WaitingLock | Locked | Closing(h: Handle) | Closed

  datatype Owner = ByRefresh | ByCloser

  datatype State = State(
    kind: Kind,
    files: map<File, Content>,
    mappings: seq<Mapping>,
    open: set<Handle>,
    db: Option<Handle>,
    path: Option<File>,
    version: string,
    createdAt: Time,
    writer: Option<Owner>,
    readers: map<nat, Reader>,
    responses: seq<Response>,
    refresh: Refresh,
    caller: Caller,
    closer: Closer,
    cancelled: bool,
    loopDone: bool
  )

  datatype Event =
    // a query
    | Enter(r: nat, addrs: seq<Addr>)
    | NotLoaded(r: nat)
    | LookupBegin(r: nat)
    | LookupEnd(r: nat)
    | LookupFails(r: nat)
    | Leave(r: nat)
    // a refresh
    | BeginRefresh(who: Caller)
    | SourceFails
    | SourceGives(b: Build)
    | CompareVersion
    | StatFile
    | OpenCached(ok: bool)
    | DownloadFails
    | CreateStaging(tmp: nat)
    | StagingFails
    | StagingWritten(content: Content)
    | CheckMapped
    | LockForRefresh
    | Unload
    | CloseUnloaded
    | RemoveUnloaded(removed: bool)
    | Rename
    | RenameFails
    | OpenFresh(ok: bool)
    | Discard(removed: bool)
    | Swap
    | CloseRetired
    | RemoveRetired(removed: bool)
    | SweepRemove(f: File)
    | SweepDone
    // shutting down
    | Cancel
    | LoopExit
    | CallClose
    | SeeDone
    | LockForClose
    | Unmap
    | CloseLast

  function Init(kind: Kind, files: map<File, Content>): State {
    State(kind, files, [], {}, None, None, "", 0, None, map[], [], Idle, Loop, NotCalled, false, false)
  }

  // ---- steps ----

  function Without(files: map<File, Content>, f: File, really: bool): map<File, Content> {
    if really then files - {f} else files
  }

  /** reputationdb.Open on the build's file: a new handle on what is there now. */
  function Opened(s: State, b: Build): Option<State> {
    if b.File() in s.files && s.files[b.File()].Mmdb? then
      var content := s.files[b.File()];
      var h := |s.mappings|;
      var m := Mapping(b.File(), b.version, match b.createdAt case Some(t) => t case None => content.builtAt, content);
      Some(s.(mappings := s.mappings + [m], open := s.open + {h}, refresh := SwapWaiting(b, h)))
    else None
  }

  /** The write lock waits out every query. */
  predicate LockFree(s: State) { s.writer == None && s.readers == map[] }

  function ResponseOf(rd: Reader, createdAt: Time): Response { Response(rd.asked, rd.used, rd.outcomes, createdAt) }

  /** A lookup is running. */
  predicate Underway(s: State, rd: Reader) {
    rd.inside.Some? && rd.inside.value < |s.mappings| && |rd.used| < |rd.asked|
  }

  /** What the running lookup will return. */
  function Pursued(s: State, rd: Reader): Outcome
    requires Underway(s, rd)
  {
    LookupIn(s.mappings[rd.inside.value].content, rd.asked[|rd.used|])
  }

  function DoReader(s: State, e: Event): Option<State> {
    match e
    case Enter(r, addrs) =>
      if r !in s.readers && s.writer == None then
        Some(s.(readers := s.readers[r := Reader(addrs, [], [], None)]))
      else None
    case NotLoaded(r) =>
      if r in s.readers && s.readers[r].used == [] && s.readers[r].inside == None && s.db == None then
        Some(s.(readers := s.readers - {r})) else None
    case LookupBegin(r) =>
      if r in s.readers && s.readers[r].inside == None && |s.readers[r].used| < |s.readers[r].asked| && s.db.Some? then
        Some(s.(readers := s.readers[r := s.readers[r].(inside := s.db)])) else None
    case LookupEnd(r) =>
      if r in s.readers && Underway(s, s.readers[r]) && Pursued(s, s.readers[r]) != Broken then
        var rd := s.readers[r];
        Some(s.(readers := s.readers[r :=
          Reader(rd.asked, rd.used + [rd.inside.value], rd.outcomes + [Pursued(s, rd)], None)]))
      else None
    case LookupFails(r) =>
      if r in s.readers && Underway(s, s.readers[r]) && Pursued(s, s.readers[r]) == Broken then
        Some(s.(readers := s.readers - {r})) else None
    case Leave(r) =>
      if r in s.readers && s.readers[r].inside == None && |s.readers[r].used| == |s.readers[r].asked| && s.db.Some? then
        Some(s.(readers := s.readers - {r}, responses := s.responses + [ResponseOf(s.readers[r], s.createdAt)]))
      else None
    case _ => None
  }

  /** Resolving the current build, comparing, and finding it on disk. */
  function DoResolve(s: State, e: Event): Option<State> {
    match e
    case BeginRefresh(who) =>
      if s.refresh == Idle && (if who == Loop then !s.loopDone else s.closer == NotCalled) then
        Some(s.(refresh := Asking, caller := who)) else None
    case SourceFails => if s.refresh == Asking then Some(s.(refresh := Idle)) else None
    case SourceGives(b) =>
      if s.refresh == Asking && (s.kind == DbCache ==> b.version != "") then Some(s.(refresh := Comparing(b))) else None
    case CompareVersion =>
      if s.refresh.Comparing? && s.writer == None then
        if s.refresh.b.version != "" && s.refresh.b.version == s.version then Some(s.(refresh := Idle))
        else Some(s.(refresh := Checking(s.refresh.b)))
      else None
    case StatFile =>
      if s.refresh.Checking? then
        var b := s.refresh.b;
        Some(s.(refresh := if b.version != "" && b.File() in s.files then OpeningCached(b) else Downloading(b)))
      else None
    case OpenCached(ok) =>
      if s.refresh.OpeningCached? then
        if ok then Opened(s, s.refresh.b) else Some(s.(refresh := Downloading(s.refresh.b)))
      else None
    case _ => None
  }

  /** Downloading to a staging file and renaming it into place. */
  function DoDownload(s: State, e: Event): Option<State> {
    match e
    case DownloadFails => if s.refresh.Downloading? then Some(s.(refresh := Idle)) else None
    case CreateStaging(tmp) =>
      if s.refresh.Downloading? && Staging(tmp) !in s.files then
        Some(s.(files := s.files[Staging(tmp) := Unusable], refresh := Writing(s.refresh.b, tmp))) else None
    case StagingFails =>
      if s.refresh.Writing? then Some(s.(files := s.files - {Staging(s.refresh.tmp)}, refresh := Idle)) else None
    case StagingWritten(content) =>
      if s.refresh.Writing? then
        Some(s.(files := s.files[Staging(s.refresh.tmp) := content], refresh := Written(s.refresh.b, s.refresh.tmp)))
      else None
    case CheckMapped =>
      if s.refresh.Written? && s.writer == None then
        var b, tmp := s.refresh.b, s.refresh.tmp;
        Some(s.(refresh := if s.kind == Caddy && s.path == Some(b.File()) then UnloadWaiting(b, tmp)
                           else Renaming(b, tmp)))
      else None
    case Rename =>
      if s.refresh.Renaming? && Staging(s.refresh.tmp) in s.files then
        var tmp := Staging(s.refresh.tmp);
        Some(s.(files := (s.files - {tmp})[s.refresh.b.File() := s.files[tmp]], refresh := OpeningFresh(s.refresh.b)))
      else None
    case RenameFails =>
      if s.refresh.Renaming? then Some(s.(files := s.files - {Staging(s.refresh.tmp)}, refresh := Idle)) else None
    case OpenFresh(ok) =>
      if s.refresh.OpeningFresh? then
        if ok then Opened(s, s.refresh.b)
        else Some(s.(refresh := if s.kind == DbCache then Discarding(s.refresh.b) else Idle))
      else None
    case Discard(removed) =>
      if s.refresh.Discarding? then
        Some(s.(files := Without(s.files, s.refresh.b.File(), removed), refresh := Idle))
      else None
    case _ => None
  }

  /** Taking the write lock, and swapping the new mapping in under it. */
  function DoSwap(s: State, e: Event): Option<State> {
    match e
    case LockForRefresh =>
      if !LockFree(s) then None
      else if s.refresh.UnloadWaiting? then
        Some(s.(writer := Some(ByRefresh), refresh := UnloadLocked(s.refresh.b, s.refresh.tmp)))
      else if s.refresh.SwapWaiting? then
        Some(s.(writer := Some(ByRefresh), refresh := SwapLocked(s.refresh.b, s.refresh.handle)))
      else None
    case Swap =>
      if s.refresh.SwapLocked? && s.refresh.handle < |s.mappings| then
        var m := s.mappings[s.refresh.handle];
        Some(s.(db := Some(s.refresh.handle), path := Some(m.file), version := m.version, createdAt := m.createdAt,
                writer := None, refresh := Retiring(m.file, s.db, s.path)))
      else None
    case _ => None
  }

  /** Giving up a mapping before its file is replaced, and releasing it outside the lock. */
  function DoUnload(s: State, e: Event): Option<State> {
    match e
    case Unload =>
      if s.refresh.UnloadLocked? then
        Some(s.(db := None, path := None, version := "", writer := None,
                refresh := UnloadClosing(s.refresh.b, s.refresh.tmp, s.db, s.path)))
      else None
    case CloseUnloaded =>
      if s.refresh.UnloadClosing? then
        var b, tmp := s.refresh.b, s.refresh.tmp;
        if s.refresh.retired == None then Some(s.(refresh := Renaming(b, tmp)))
        else
          var next := if s.refresh.oldFile.Some? then UnloadRemoving(b, tmp, s.refresh.oldFile.value)
                      else Renaming(b, tmp);
          Some(s.(open := s.open - {s.refresh.retired.value}, refresh := next))
      else None
    case RemoveUnloaded(removed) =>
      if s.refresh.UnloadRemoving? then
        Some(s.(files := Without(s.files, s.refresh.gone, removed), refresh := Renaming(s.refresh.b, s.refresh.tmp)))
      else None
    case _ => None
  }

  /** Releasing the mapping that was swapped out, and sweeping. */
  function DoRetire(s: State, e: Event): Option<State> {
    match e
    case CloseRetired =>
      if s.refresh.Retiring? then
        var keep := s.refresh.keep;
        if s.refresh.retired == None then Some(s.(refresh := Sweeping(keep)))
        else
          var gone := s.refresh.oldFile;
          var next := if gone.Some? && gone != Some(keep) then RemovingOld(keep, gone.value) else Sweeping(keep);
          Some(s.(open := s.open - {s.refresh.retired.value}, refresh := next))
      else None
    case RemoveRetired(removed) =>
      if s.refresh.RemovingOld? then
        Some(s.(files := Without(s.files, s.refresh.gone, removed), refresh := Sweeping(s.refresh.keep)))
      else None
    case SweepRemove(f) =>
      if s.refresh.Sweeping? && s.kind == DbCache && f in s.files && f.Sweepable() && f != s.refresh.keep then
        Some(s.(files := s.files - {f})) else None
    case SweepDone => if s.refresh.Sweeping? then Some(s.(refresh := Idle)) else None
    case _ => None
  }

  function DoClose(s: State, e: Event): Option<State> {
    match e
    case Cancel => Some(s.(cancelled := true))
    case LoopExit =>
      // an external refresh may still be under way
      if s.cancelled && !s.loopDone && (s.refresh == Idle || s.caller == External) then
        Some(s.(loopDone := true))
      else None
    case CallClose =>
      // external refreshes have finished by the time Close begins
      if s.closer == NotCalled && (s.refresh == Idle || s.caller == Loop) then
        Some(s.(cancelled := true, closer := WaitingDone)) else None
    case SeeDone => if s.closer == WaitingDone && s.loopDone then Some(s.(closer := WaitingLock)) else None
    case LockForClose =>
      if s.closer == WaitingLock && LockFree(s) then Some(s.(writer := Some(ByCloser), closer := Locked)) else None
    case Unmap =>
      if s.closer == Locked then
        match s.db
        case None => Some(s.(writer := None, closer := Closed))
        case Some(h) => Some(s.(db := None, path := None, version := "", closer := Closing(h)))
      else None
    case CloseLast =>
      if s.closer.Closing? then Some(s.(open := s.open - {s.closer.h}, writer := None, closer := Closed)) else None
    case _ => None
  }

  predicate IsReaderEvent(e: Event) {
    e.Enter? || e.NotLoaded? || e.LookupBegin? || e.LookupEnd? || e.LookupFails? || e.Leave?
  }

  predicate IsResolveEvent(e: Event) {
    e.BeginRefresh? || e.SourceFails? || e.SourceGives? || e.CompareVersion? || e.StatFile? || e.OpenCached?
  }

  predicate IsDownloadEvent(e: Event) {
    e.DownloadFails? || e.CreateStaging? || e.StagingFails? || e.StagingWritten? || e.CheckMapped? || e.Rename?
    || e.RenameFails? || e.OpenFresh? || e.Discard?
  }

  predicate IsUnloadEvent(e: Event) { e.Unload? || e.CloseUnloaded? || e.RemoveUnloaded? }

  predicate IsRetireEvent(e: Event) { e.CloseRetired? || e.RemoveRetired? || e.SweepRemove? || e.SweepDone? }

  predicate IsCloseEvent(e: Event) {
    e.Cancel? || e.LoopExit? || e.CallClose? || e.SeeDone? || e.LockForClose? || e.Unmap? || e.CloseLast?
  }

  /** One step of one thread, or None when that step is not enabled. */
  function Do(s: State, e: Event): Option<State> {
    if IsReaderEvent(e) then DoReader(s, e)
    else if IsResolveEvent(e) then DoResolve(s, e)
    else if IsDownloadEvent(e) then DoDownload(s, e)
    else if IsCloseEvent(e) then DoClose(s, e)
    else if IsUnloadEvent(e) then DoUnload(s, e)
    else if IsRetireEvent(e) then DoRetire(s, e)
    else DoSwap(s, e)
  }

  function Run(s: State, es: seq<Event>): Option<State> {
    if es == [] then Some(s)
    else match Run(s, es[..|es| - 1])
         case None => None
         case Some(t) => Do(t, es[|es| - 1])
  }

  /** One more step at the end of a run. */
  lemma Extend(s: State, es: seq<Event>, e: Event)
    requires Run(s, es).Some?
    ensures Run(s, es + [e]) == Do(Run(s, es).value, e)
  {
    assert (es + [e])[..|es|] == es;
  }

  lemma NoSteps(s: State)
    ensures Run(s, []) == Some(s)
  {}

  ghost predicate Reachable(s: State) {
    exists kind, files, es :: Run(Init(kind, files), es) == Some(s)
  }

  // ---- the invariant ----

  /** The handle the refresh has opened and not yet swapped in. */
  ghost predicate Pending(s: State, h: Handle) {
    (s.refresh.SwapWaiting? || s.refresh.SwapLocked?) && s.refresh.handle == h
  }

  /** A handle that was taken out of the cache and is about to be closed. */
  ghost predicate Doomed(s: State, h: Handle) {
    || ((s.refresh.Retiring? || s.refresh.UnloadClosing?) && s.refresh.retired == Some(h))
    || s.closer == Closing(h)
  }

  /** Exactly the mapped, the pending and the doomed handle are open, all different. */
  ghost predicate HandlesAccounted(s: State) {
    && (forall h :: h in s.open <==> s.db == Some(h) || Pending(s, h) || Doomed(s, h))
    && (forall h :: h in s.open ==> h < |s.mappings|)
    && (forall h: Handle :: Pending(s, h) ==> s.db != Some(h))
    && (forall h: Handle :: Doomed(s, h) ==> s.db != Some(h) && !Pending(s, h))
  }

  /** Nothing is mapped and the path and version are empty, or one handle is, on the file of its
      version, which is on disk with the mapped bytes. */
  ghost predicate MappedConsistent(s: State) {
    match s.db
    case None => s.path == None && s.version == ""
    case Some(h) =>
      && h < |s.mappings| && s.path == Some(Database(s.version)) && s.path == Some(s.mappings[h].file)
      && s.mappings[h].content.Mmdb? && s.version == s.mappings[h].version && s.createdAt == s.mappings[h].createdAt
      && Database(s.version) in s.files && s.files[Database(s.version)] == s.mappings[h].content
  }

  /** Between comparing versions and renaming. */
  ghost predicate Fetching(r: Refresh) {
    r.Checking? || r.OpeningCached? || r.Downloading? || r.Writing? || r.Written?
  }

  /** From the rename until the new mapping is swapped in. */
  ghost predicate Replacing(r: Refresh) {
    r.Renaming? || r.OpeningFresh? || r.Discarding? || r.SwapWaiting? || r.SwapLocked?
  }

  /** The refresh's own position: its targets are never the mapped file. */
  ghost predicate RefreshConsistent(s: State) {
    var r := s.refresh;
    && (r.Comparing? || r.OpeningCached? ==> r.b.version != "" || (s.kind == Caddy && r.Comparing?))
    && (Fetching(r) ==> NotServing(s, r.b))
    && (r.UnloadWaiting? || r.UnloadLocked? ==> s.path == Some(r.b.File()) && r.b.version == "" && s.kind == Caddy)
    && (r.UnloadClosing? || r.UnloadRemoving? ==> s.path == None)
    && (Replacing(r) ==> s.path != Some(r.b.File()))
    && (r.SwapWaiting? || r.SwapLocked? ==> PendingOnDisk(s, r.b, r.handle))
    && (r.Retiring? ==> s.path == Some(r.keep) && r.oldFile != Some(r.keep))
    && (r.RemovingOld? ==> s.path == Some(r.keep) && r.gone != r.keep)
    && (r.Sweeping? ==> s.path == Some(r.keep))
  }

  /** The build being fetched is not the one mapped, versionless builds aside. */
  ghost predicate NotServing(s: State, b: Build) {
    if b.version == "" then s.kind == Caddy else s.path != Some(b.File())
  }

  ghost predicate PendingOnDisk(s: State, b: Build, h: Handle) {
    && h < |s.mappings| && s.mappings[h].file == b.File() && s.mappings[h].version == b.version
    && b.File() in s.files && s.files[b.File()] == s.mappings[h].content && s.mappings[h].content.Mmdb?
  }

  ghost predicate LocksConsistent(s: State) {
    && (s.writer == Some(ByRefresh) <==> s.refresh.UnloadLocked? || s.refresh.SwapLocked?)
    && (s.writer == Some(ByCloser) <==> s.closer == Locked || s.closer.Closing?)
    && (s.writer.Some? ==> s.readers == map[])
  }

  /** Closing proceeds only once no refresh is left. */
  ghost predicate ClosingConsistent(s: State) {
    && (s.closer != NotCalled ==> s.refresh == Idle || s.caller == Loop)
    && (s.loopDone ==> s.refresh == Idle || s.caller == External)
    && (s.closer != NotCalled && s.closer != WaitingDone ==> s.loopDone)
    && (s.closer == Closed || s.closer.Closing? ==> s.db == None)
  }

  /** What a query has collected so far are the outcomes of that many lookups on one mapping. */
  ghost predicate Collected(m: Mapping, asked: seq<Addr>, outcomes: seq<Outcome>) {
    && |outcomes| <= |asked|
    && forall i :: 0 <= i < |outcomes| ==> outcomes[i] == LookupIn(m.content, asked[i]) && outcomes[i] != Broken
  }

  /** Everything a query has seen so far came from the handle mapped now. */
  ghost predicate ReaderConsistent(s: State, rd: Reader) {
    && |rd.outcomes| == |rd.used| <= |rd.asked|
    && (rd.inside.Some? ==> rd.inside == s.db && |rd.used| < |rd.asked|)
    && (forall h :: h in rd.used ==> s.db == Some(h))
    && (s.db.Some? && s.db.value < |s.mappings| ==> Collected(s.mappings[s.db.value], rd.asked, rd.outcomes))
  }

  ghost predicate ReadersConsistent(s: State) {
    forall r :: r in s.readers ==> ReaderConsistent(s, s.readers[r])
  }

  /** Every lookup behind the response ran on this mapping, and it carries its creation time. */
  ghost predicate MadeFrom(resp: Response, h: Handle, m: Mapping) {
    && m.content.Mmdb? && resp.createdAt == m.createdAt && |resp.outcomes| == |resp.used| == |resp.asked|
    && (forall u :: u in resp.used ==> u == h)
    && Collected(m, resp.asked, resp.outcomes)
  }

  ghost predicate OneBuild(s: State, resp: Response) {
    exists h :: 0 <= h < |s.mappings| && MadeFrom(resp, h, s.mappings[h])
  }

  ghost predicate ResponsesConsistent(s: State) {
    forall resp :: resp in s.responses ==> OneBuild(s, resp)
  }

  /** The part of the invariant about the cache, the files and the locks. */
  ghost predicate Core(s: State) {
    && HandlesAccounted(s) && MappedConsistent(s) && RefreshConsistent(s) && LocksConsistent(s) && ClosingConsistent(s)
  }

  ghost predicate Inv(s: State) {
    Core(s) && ReadersConsistent(s) && ResponsesConsistent(s)
  }

  // ---- every step keeps it ----

  lemma InitInv(kind: Kind, files: map<File, Content>)
    ensures Inv(Init(kind, files))
  {}

  lemma OpenedKeeps(s: State, b: Build)
    requires Core(s) && Opened(s, b).Some? && s.path != Some(b.File())
    requires s.refresh.OpeningCached? || s.refresh.OpeningFresh?
    ensures Core(Opened(s, b).value)
  {}

  lemma BeginKeeps(s: State, e: Event)
    requires Core(s) && (e.BeginRefresh? || e.SourceFails? || e.SourceGives?) && DoResolve(s, e).Some?
    ensures Core(DoResolve(s, e).value)
  {
    hide HandlesAccounted;
    HandlesKept(s, DoResolve(s, e).value);
  }

  /** Positions at which a refresh holds no handle and no lock. */
  ghost predicate Unladen(r: Refresh) {
    !(r.UnloadLocked? || r.UnloadClosing? || r.SwapWaiting? || r.SwapLocked? || r.Retiring?)
  }

  /** Handles are accounted for as before when none is taken up, let go or closed. */
  lemma HandlesKept(s: State, t: State)
    requires HandlesAccounted(s) && Unladen(s.refresh) && Unladen(t.refresh)
    requires t.open == s.open && t.db == s.db && t.mappings == s.mappings
    requires t.closer == s.closer || (!t.closer.Closing? && !s.closer.Closing?)
    ensures HandlesAccounted(t)
  {
    assert forall h: Handle :: !Pending(t, h) && (Doomed(t, h) <==> Doomed(s, h));
  }

  /** The same when only the closer moves. */
  lemma HandlesWait(s: State, t: State)
    requires HandlesAccounted(s) && t.refresh == s.refresh && !t.closer.Closing? && !s.closer.Closing?
    requires t.open == s.open && t.db == s.db && t.mappings == s.mappings
    ensures HandlesAccounted(t)
  {
    assert forall h: Handle :: (Pending(t, h) <==> Pending(s, h)) && (Doomed(t, h) <==> Doomed(s, h));
  }

  /** A refresh that moves on, changing files but not the mapped one. */
  lemma MoveKeeps(s: State, next: Refresh, files: map<File, Content>)
    requires Core(s) && Unladen(s.refresh) && Unladen(next) && s.refresh != Idle
    requires RefreshConsistent(s.(refresh := next, files := files))
    requires s.path.Some? ==>
               s.path.value in files && (s.path.value in s.files ==> files[s.path.value] == s.files[s.path.value])
    ensures Core(s.(refresh := next, files := files))
  {
    hide HandlesAccounted, RefreshConsistent;
    HandlesKept(s, s.(refresh := next, files := files));
  }

  lemma CompareKeeps(s: State, e: Event)
    requires Core(s) && e.CompareVersion? && DoResolve(s, e).Some?
    ensures Core(DoResolve(s, e).value)
  {
    hide HandlesAccounted, LocksConsistent, ClosingConsistent;
    MoveKeeps(s, DoResolve(s, e).value.refresh, s.files);
  }

  lemma StatKeeps(s: State, e: Event)
    requires Core(s) && e.StatFile? && DoResolve(s, e).Some?
    ensures Core(DoResolve(s, e).value)
  {
    hide HandlesAccounted, LocksConsistent, ClosingConsistent;
    MoveKeeps(s, DoResolve(s, e).value.refresh, s.files);
  }

  lemma OpenCachedKeeps(s: State, e: Event)
    requires Core(s) && e.OpenCached? && DoResolve(s, e).Some?
    ensures Core(DoResolve(s, e).value)
  {
    if e.ok {
      OpenedKeeps(s, s.refresh.b);
    }
  }

  lemma ResolveKeeps(s: State, e: Event)
    requires Core(s) && IsResolveEvent(e) && DoResolve(s, e).Some?
    ensures Core(DoResolve(s, e).value)
  {
    if e.OpenCached? { OpenCachedKeeps(s, e); }
    else if e.CompareVersion? { CompareKeeps(s, e); }
    else if e.StatFile? { StatKeeps(s, e); }
    else { BeginKeeps(s, e); }
  }

  lemma StagingKeeps(s: State, e: Event)
    requires Core(s) && (e.DownloadFails? || e.CreateStaging? || e.StagingFails? || e.StagingWritten?)
             && DoDownload(s, e).Some?
    ensures Core(DoDownload(s, e).value)
  {
    hide HandlesAccounted, LocksConsistent, ClosingConsistent;
    var t := DoDownload(s, e).value;
    MoveKeeps(s, t.refresh, t.files);
  }

  lemma CheckMappedKeeps(s: State, e: Event)
    requires Core(s) && e.CheckMapped? && DoDownload(s, e).Some?
    ensures Core(DoDownload(s, e).value)
  {
    hide HandlesAccounted, LocksConsistent, ClosingConsistent;
    var t := DoDownload(s, e).value;
    MoveKeeps(s, t.refresh, t.files);
  }

  lemma RenameKeeps(s: State, e: Event)
    requires Core(s) && (e.Rename? || e.RenameFails?) && DoDownload(s, e).Some?
    ensures Core(DoDownload(s, e).value)
  {
    hide HandlesAccounted, LocksConsistent, ClosingConsistent;
    var t := DoDownload(s, e).value;
    MoveKeeps(s, t.refresh, t.files);
  }

  lemma OpenFreshKeeps(s: State, e: Event)
    requires Core(s) && (e.OpenFresh? || e.Discard?) && DoDownload(s, e).Some?
    ensures Core(DoDownload(s, e).value)
  {
    hide HandlesAccounted, LocksConsistent, ClosingConsistent;
    var t := DoDownload(s, e).value;
    if e.OpenFresh? && e.ok {
      OpenedKeeps(s, s.refresh.b);
    } else {
      MoveKeeps(s, t.refresh, t.files);
    }
  }

  lemma DownloadKeeps(s: State, e: Event)
    requires Core(s) && IsDownloadEvent(e) && DoDownload(s, e).Some?
    ensures Core(DoDownload(s, e).value)
  {
    if e.OpenFresh? || e.Discard? { OpenFreshKeeps(s, e); }
    else if e.Rename? || e.RenameFails? { RenameKeeps(s, e); }
    else if e.CheckMapped? { CheckMappedKeeps(s, e); }
    else { StagingKeeps(s, e); }
  }

  lemma UnloadLockKeeps(s: State)
    requires Core(s) && LockFree(s) && s.refresh.UnloadWaiting?
    ensures Core(s.(writer := Some(ByRefresh), refresh := UnloadLocked(s.refresh.b, s.refresh.tmp)))
  {}

  lemma SwapLockKeeps(s: State)
    requires Core(s) && LockFree(s) && s.refresh.SwapWaiting?
    ensures Core(s.(writer := Some(ByRefresh), refresh := SwapLocked(s.refresh.b, s.refresh.handle)))
  {}

  lemma LockKeeps(s: State, e: Event)
    requires Core(s) && e.LockForRefresh? && DoSwap(s, e).Some?
    ensures Core(DoSwap(s, e).value)
  {
    if s.refresh.UnloadWaiting? { UnloadLockKeeps(s); } else { SwapLockKeeps(s); }
  }

  lemma SwappedKeeps(s: State, e: Event)
    requires Core(s) && e.Swap? && DoSwap(s, e).Some?
    ensures Core(DoSwap(s, e).value)
  {}

  lemma SwapKeeps(s: State, e: Event)
    requires Core(s) && (e.LockForRefresh? || e.Swap?) && DoSwap(s, e).Some?
    ensures Core(DoSwap(s, e).value)
  {
    if e.LockForRefresh? { LockKeeps(s, e); }
    else { SwappedKeeps(s, e); }
  }

  lemma UnmappingKeeps(s: State, e: Event)
    requires Core(s) && e.Unload? && DoUnload(s, e).Some?
    ensures Core(DoUnload(s, e).value)
  {}

  lemma CloseUnloadedKeeps(s: State, e: Event)
    requires Core(s) && e.CloseUnloaded? && DoUnload(s, e).Some?
    ensures Core(DoUnload(s, e).value)
  {
    hide HandlesAccounted;
    RetiredCloses(s, DoUnload(s, e).value.refresh);
  }

  lemma RemoveUnloadedKeeps(s: State, e: Event)
    requires Core(s) && e.RemoveUnloaded? && DoUnload(s, e).Some?
    ensures Core(DoUnload(s, e).value)
  {
    hide HandlesAccounted, LocksConsistent, ClosingConsistent;
    var t := DoUnload(s, e).value;
    MoveKeeps(s, t.refresh, t.files);
  }

  lemma UnloadKeeps(s: State, e: Event)
    requires Core(s) && IsUnloadEvent(e) && DoUnload(s, e).Some?
    ensures Core(DoUnload(s, e).value)
  {
    if e.Unload? { UnmappingKeeps(s, e); }
    else if e.CloseUnloaded? { CloseUnloadedKeeps(s, e); }
    else { RemoveUnloadedKeeps(s, e); }
  }

  /** Closing the retired handle leaves the rest accounted for. */
  lemma RetiredCloses(s: State, next: Refresh)
    requires HandlesAccounted(s) && ClosingConsistent(s) && (s.refresh.Retiring? || s.refresh.UnloadClosing?)
    requires Unladen(next)
    ensures
      var open := if s.refresh.retired.Some? then s.open - {s.refresh.retired.value} else s.open;
      HandlesAccounted(s.(open := open, refresh := next))
  {
    if s.refresh.retired.Some? {
      assert Doomed(s, s.refresh.retired.value);
      assert s.closer != Closing(s.refresh.retired.value);
    }
  }

  lemma CloseRetiredKeeps(s: State, e: Event)
    requires Core(s) && e.CloseRetired? && DoRetire(s, e).Some?
    ensures Core(DoRetire(s, e).value)
  {
    hide HandlesAccounted;
    RetiredCloses(s, DoRetire(s, e).value.refresh);
  }

  lemma RemoveRetiredKeeps(s: State, e: Event)
    requires Core(s) && e.RemoveRetired? && DoRetire(s, e).Some?
    ensures Core(DoRetire(s, e).value)
  {
    hide HandlesAccounted, LocksConsistent, ClosingConsistent;
    var t := DoRetire(s, e).value;
    MoveKeeps(s, t.refresh, t.files);
  }

  lemma SweepRemoveKeeps(s: State, e: Event)
    requires Core(s) && e.SweepRemove? && DoRetire(s, e).Some?
    ensures Core(DoRetire(s, e).value)
  {
    hide HandlesAccounted, LocksConsistent, ClosingConsistent;
    var t := DoRetire(s, e).value;
    MoveKeeps(s, t.refresh, t.files);
  }

  lemma SweepDoneKeeps(s: State, e: Event)
    requires Core(s) && e.SweepDone? && DoRetire(s, e).Some?
    ensures Core(DoRetire(s, e).value)
  {
    hide HandlesAccounted, LocksConsistent, ClosingConsistent;
    var t := DoRetire(s, e).value;
    MoveKeeps(s, t.refresh, t.files);
  }

  lemma RetireKeeps(s: State, e: Event)
    requires Core(s) && IsRetireEvent(e) && DoRetire(s, e).Some?
    ensures Core(DoRetire(s, e).value)
  {
    if e.CloseRetired? { CloseRetiredKeeps(s, e); }
    else if e.RemoveRetired? { RemoveRetiredKeeps(s, e); }
    else if e.SweepRemove? { SweepRemoveKeeps(s, e); }
    else { SweepDoneKeeps(s, e); }
  }

  lemma UnmapKeeps(s: State, e: Event)
    requires Core(s) && (e.Unmap? || e.CloseLast?) && DoClose(s, e).Some?
    ensures Core(DoClose(s, e).value)
  {}

  lemma WaitKeeps(s: State, e: Event)
    requires Core(s) && (e.Cancel? || e.LoopExit? || e.CallClose? || e.SeeDone? || e.LockForClose?)
             && DoClose(s, e).Some?
    ensures Core(DoClose(s, e).value)
  {
    hide HandlesAccounted;
    var t := DoClose(s, e).value;
    if !e.Cancel? {
      HandlesWait(s, t);
    } else {
      CancelKeeps(s);
    }
  }

  lemma CancelKeeps(s: State)
    requires HandlesAccounted(s)
    ensures HandlesAccounted(s.(cancelled := true))
  {
    assert forall h: Handle ::
      (Pending(s.(cancelled := true), h) <==> Pending(s, h))
      && (Doomed(s.(cancelled := true), h) <==> Doomed(s, h));
  }

  lemma CloseKeeps(s: State, e: Event)
    requires Core(s) && IsCloseEvent(e) && DoClose(s, e).Some?
    ensures Core(DoClose(s, e).value)
  {
    if e.Unmap? || e.CloseLast? { UnmapKeeps(s, e); } else { WaitKeeps(s, e); }
  }

  /** A query changes nothing but itself and the responses. */
  lemma ReaderFrame(s: State, e: Event)
    requires IsReaderEvent(e) && DoReader(s, e).Some?
    ensures
      var t := DoReader(s, e).value;
      t == s.(readers := t.readers, responses := t.responses) && (s.writer.Some? ==> t.readers.Keys <= s.readers.Keys)
  {}

  /** One query's own step. */
  lemma OneReaderKeeps(s: State, e: Event, r: nat)
    requires MappedConsistent(s) && IsReaderEvent(e) && DoReader(s, e).Some? && r in DoReader(s, e).value.readers
    requires r in s.readers ==> ReaderConsistent(s, s.readers[r])
    ensures ReaderConsistent(s, DoReader(s, e).value.readers[r])
  {
    if e.LookupEnd? && e.r == r {
      LookupKeeps(s, s.readers[r]);
    } else {
      hide Collected;
      if e.Enter? && e.r == r { NothingCollected(s, e.addrs); }
    }
  }

  lemma NothingCollected(s: State, addrs: seq<Addr>)
    ensures s.db.Some? && s.db.value < |s.mappings| ==> Collected(s.mappings[s.db.value], addrs, [])
  {}

  lemma LookupKeeps(s: State, rd: Reader)
    requires MappedConsistent(s) && ReaderConsistent(s, rd) && Underway(s, rd) && Pursued(s, rd) != Broken
    ensures ReaderConsistent(s, Reader(rd.asked, rd.used + [rd.inside.value], rd.outcomes + [Pursued(s, rd)], None))
  {
    hide LookupIn;
  }

  lemma ReadersKeep(s: State, e: Event)
    requires Core(s) && ReadersConsistent(s) && IsReaderEvent(e) && DoReader(s, e).Some?
    ensures ReadersConsistent(DoReader(s, e).value)
  {
    hide HandlesAccounted, RefreshConsistent, LocksConsistent, ClosingConsistent, MappedConsistent, DoReader, Collected;
    var t := DoReader(s, e).value;
    ReaderFrame(s, e);
    forall r | r in t.readers ensures ReaderConsistent(t, t.readers[r]) {
      OneReaderKeeps(s, e, r);
    }
  }

  lemma ReaderCore(s: State, t: State)
    requires Core(s) && t == s.(readers := t.readers, responses := t.responses)
    requires s.writer.Some? ==> t.readers.Keys <= s.readers.Keys
    ensures Core(t)
  {
    assert forall h: Handle :: (Pending(t, h) <==> Pending(s, h)) && (Doomed(t, h) <==> Doomed(s, h));
    if s.writer.Some? {
      assert t.readers.Keys == {};
    }
  }

  lemma ReaderKeeps(s: State, e: Event)
    requires Inv(s) && IsReaderEvent(e) && DoReader(s, e).Some?
    ensures Inv(DoReader(s, e).value)
  {
    var t := DoReader(s, e).value;
    ReaderFrame(s, e);
    ReadersKeep(s, e);
    hide Collected, HandlesAccounted, RefreshConsistent, LocksConsistent, ClosingConsistent;
    assert Core(t) by { ReaderCore(s, t); }
    if e.Leave? {
      assert ReaderConsistent(s, s.readers[e.r]);
      assert MadeFrom(ResponseOf(s.readers[e.r], s.createdAt), s.db.value, t.mappings[s.db.value]);
    }
    forall resp | resp in t.responses ensures OneBuild(t, resp) {
      if resp in s.responses {
        assert OneBuild(s, resp);
      }
    }
  }

  /** What every step other than a query's leaves alone. */
  ghost predicate Frame(s: State, t: State) {
    && t.readers == s.readers && t.responses == s.responses && s.mappings <= t.mappings
    && (t.db == s.db || s.readers == map[])
  }

  lemma ReadersKept(s: State, t: State)
    requires Core(s) && ReadersConsistent(s) && Frame(s, t)
    ensures ReadersConsistent(t)
  {
    forall r | r in t.readers ensures ReaderConsistent(t, t.readers[r]) {
      assert ReaderConsistent(s, s.readers[r]);
    }
  }

  lemma ResolveFrame(s: State, e: Event)
    requires LocksConsistent(s) && IsResolveEvent(e) && DoResolve(s, e).Some?
    ensures Frame(s, DoResolve(s, e).value)
  {}

  lemma DownloadFrame(s: State, e: Event)
    requires LocksConsistent(s) && IsDownloadEvent(e) && DoDownload(s, e).Some?
    ensures Frame(s, DoDownload(s, e).value)
  {}

  lemma CloseFrame(s: State, e: Event)
    requires LocksConsistent(s) && IsCloseEvent(e) && DoClose(s, e).Some?
    ensures Frame(s, DoClose(s, e).value)
  {}

  lemma UnloadFrame(s: State, e: Event)
    requires LocksConsistent(s) && IsUnloadEvent(e) && DoUnload(s, e).Some?
    ensures Frame(s, DoUnload(s, e).value)
  {}

  lemma RetireFrame(s: State, e: Event)
    requires LocksConsistent(s) && IsRetireEvent(e) && DoRetire(s, e).Some?
    ensures Frame(s, DoRetire(s, e).value)
  {}

  lemma SwapFrame(s: State, e: Event)
    requires LocksConsistent(s) && (e.LockForRefresh? || e.Swap?) && DoSwap(s, e).Some?
    ensures Frame(s, DoSwap(s, e).value)
  {}

  /** Every other step leaves the queries alone, and changes what is mapped only when there is none. */
  lemma OtherFrame(s: State, e: Event)
    requires Core(s) && !IsReaderEvent(e) && Do(s, e).Some?
    ensures Frame(s, Do(s, e).value)
  {
    if IsResolveEvent(e) { ResolveFrame(s, e); }
    else if IsDownloadEvent(e) { DownloadFrame(s, e); }
    else if IsCloseEvent(e) { CloseFrame(s, e); }
    else if IsUnloadEvent(e) { UnloadFrame(s, e); }
    else if IsRetireEvent(e) { RetireFrame(s, e); }
    else { SwapFrame(s, e); }
  }

  lemma ResponsesKept(s: State, t: State)
    requires ResponsesConsistent(s) && s.mappings <= t.mappings && t.responses == s.responses
    ensures ResponsesConsistent(t)
  {
    forall resp | resp in t.responses ensures OneBuild(t, resp) {
      assert OneBuild(s, resp);
      var h :| 0 <= h < |s.mappings| && MadeFrom(resp, h, s.mappings[h]);
      assert t.mappings[h] == s.mappings[h];
    }
  }

  lemma CoreKept(s: State, e: Event)
    requires Core(s) && !IsReaderEvent(e) && Do(s, e).Some?
    ensures Core(Do(s, e).value)
  {
    if IsResolveEvent(e) { ResolveKeeps(s, e); }
    else if IsDownloadEvent(e) { DownloadKeeps(s, e); }
    else if IsCloseEvent(e) { CloseKeeps(s, e); }
    else if IsUnloadEvent(e) { UnloadKeeps(s, e); }
    else if IsRetireEvent(e) { RetireKeeps(s, e); }
    else { SwapKeeps(s, e); }
  }

  lemma StepKeeps(s: State, e: Event)
    requires Inv(s) && Do(s, e).Some?
    ensures Inv(Do(s, e).value)
  {
    if IsReaderEvent(e) {
      ReaderKeeps(s, e);
    } else {
      CoreKept(s, e);
      OtherFrame(s, e);
      ReadersKept(s, Do(s, e).value);
      ResponsesKept(s, Do(s, e).value);
    }
  }

  lemma {:induction false} RunKeeps(s: State, es: seq<Event>)
    requires Inv(s) && Run(s, es).Some?
    ensures Inv(Run(s, es).value)
  {
    hide Do;
    if es != [] {
      RunKeeps(s, es[..|es| - 1]);
      StepKeeps(Run(s, es[..|es| - 1]).value, es[|es| - 1]);
    }
  }

  lemma ReachableInv(s: State)
    requires Reachable(s)
    ensures Inv(s)
  {
    var kind, files, es :| Run(Init(kind, files), es) == Some(s);
    InitInv(kind, files);
    RunKeeps(Init(kind, files), es);
  }

  // ---- what this gives ----

  /** A lookup in progress is on the mapping in the cache, which is open. */
  lemma NoLookupOnClosedMapping(s: State, r: nat)
    requires Reachable(s) && r in s.readers && s.readers[r].inside.Some?
    ensures s.readers[r].inside == s.db && s.readers[r].inside.value in s.open && s.writer == None
  {
    ReachableInv(s);
  }

  /** A handle is closed only once it is out of the cache and no query is on it or has used it. */
  lemma ClosedOnlyWhenUnused(s: State, e: Event, h: Handle)
    requires Reachable(s) && Do(s, e).Some? && h in s.open && h !in Do(s, e).value.open
    ensures s.db != Some(h)
    ensures forall r :: r in s.readers ==> s.readers[r].inside != Some(h) && h !in s.readers[r].used
  {
    ReachableInv(s);
    ClosesDoomed(s, e, h);
  }

  /** What the steps that neither close nor remove anything leave alone. */
  ghost predicate Harmless(s: State, t: State) {
    s.open <= t.open && t.closer == s.closer && t.path == s.path
    && forall f :: f in s.files ==> f in t.files && t.files[f] == s.files[f]
  }

  lemma ReaderHarmless(s: State, e: Event)
    requires IsReaderEvent(e) && DoReader(s, e).Some?
    ensures Harmless(s, DoReader(s, e).value)
  {
    ReaderFrame(s, e);
  }

  lemma ResolveHarmless(s: State, e: Event)
    requires IsResolveEvent(e) && DoResolve(s, e).Some?
    ensures Harmless(s, DoResolve(s, e).value)
  {}

  lemma DownloadTouches(s: State, e: Event)
    requires IsDownloadEvent(e) && DoDownload(s, e).Some?
    ensures s.open <= DoDownload(s, e).value.open && DoDownload(s, e).value.closer == s.closer
  {}

  lemma SwapTouches(s: State, e: Event)
    requires (e.LockForRefresh? || e.Swap?) && DoSwap(s, e).Some?
    ensures
      var t := DoSwap(s, e).value;
      t.open == s.open && t.closer == s.closer && t.files == s.files
  {}

  lemma UnloadTouches(s: State, e: Event)
    requires IsUnloadEvent(e) && DoUnload(s, e).Some?
    ensures
      var t := DoUnload(s, e).value;
      t.closer == s.closer
      && forall h :: h in s.open && h !in t.open ==> s.refresh.UnloadClosing? && s.refresh.retired == Some(h)
  {}

  lemma RetireTouches(s: State, e: Event)
    requires IsRetireEvent(e) && DoRetire(s, e).Some?
    ensures
      var t := DoRetire(s, e).value;
      t.closer == s.closer
      && forall h :: h in s.open && h !in t.open ==> s.refresh.Retiring? && s.refresh.retired == Some(h)
  {}

  lemma CloseTouches(s: State, e: Event)
    requires IsCloseEvent(e) && DoClose(s, e).Some?
    ensures
      var t := DoClose(s, e).value;
      t.files == s.files && (s.closer == Closed ==> t.closer == Closed)
      && forall h :: h in s.open && h !in t.open ==> s.closer == Closing(h)
  {}

  lemma ClosesDoomed(s: State, e: Event, h: Handle)
    requires Core(s) && Do(s, e).Some? && h in s.open && h !in Do(s, e).value.open
    ensures Doomed(s, h)
  {
    if IsReaderEvent(e) { ReaderHarmless(s, e); }
    else if IsResolveEvent(e) { ResolveHarmless(s, e); }
    else if IsDownloadEvent(e) { DownloadTouches(s, e); }
    else if IsCloseEvent(e) { CloseTouches(s, e); }
    else if IsUnloadEvent(e) { UnloadTouches(s, e); }
    else if IsRetireEvent(e) { RetireTouches(s, e); }
    else { SwapTouches(s, e); }
  }

  /** Nothing is mapped under an empty path and version, or exactly one live handle is, on its
      version's file as it is on disk; at rest nothing else is open. */
  lemma OneLiveHandle(s: State)
    requires Reachable(s)
    ensures s.db == None ==> s.path == None && s.version == ""
    ensures s.db.Some? ==>
      && s.db.value in s.open && s.db.value < |s.mappings| && s.path == Some(Database(s.version))
      && Database(s.version) in s.files && s.files[Database(s.version)] == s.mappings[s.db.value].content
      && s.createdAt == s.mappings[s.db.value].createdAt
    ensures s.refresh == Idle && !s.closer.Closing? ==> s.open == if s.db.Some? then {s.db.value} else {}
  {
    ReachableInv(s);
    if s.refresh == Idle && !s.closer.Closing? {
      assert forall h :: h in s.open <==> s.db == Some(h);
    }
  }

  /** No step removes, renames onto or rewrites the file that is mapped before or after it. */
  lemma MappedFileUntouched(s: State, e: Event, f: File)
    requires Reachable(s) && Do(s, e).Some?
    requires f in s.files && (f !in Do(s, e).value.files || Do(s, e).value.files[f] != s.files[f])
    ensures s.path != Some(f) && Do(s, e).value.path != Some(f)
  {
    ReachableInv(s);
    ChangedFile(s, e, f);
  }

  lemma DownloadChanges(s: State, e: Event, f: File)
    requires Core(s) && IsDownloadEvent(e) && DoDownload(s, e).Some?
    requires f in s.files && (f !in DoDownload(s, e).value.files || DoDownload(s, e).value.files[f] != s.files[f])
    ensures s.path != Some(f) && DoDownload(s, e).value.path == s.path
  {
    hide HandlesAccounted, LocksConsistent, ClosingConsistent;
  }

  lemma RetireChanges(s: State, e: Event, f: File)
    requires Core(s) && IsRetireEvent(e) && DoRetire(s, e).Some?
    requires f in s.files && (f !in DoRetire(s, e).value.files || DoRetire(s, e).value.files[f] != s.files[f])
    ensures s.path != Some(f) && DoRetire(s, e).value.path == s.path
  {
    hide HandlesAccounted, LocksConsistent, ClosingConsistent;
  }

  lemma UnloadChanges(s: State, e: Event, f: File)
    requires Core(s) && IsUnloadEvent(e) && DoUnload(s, e).Some?
    requires f in s.files && (f !in DoUnload(s, e).value.files || DoUnload(s, e).value.files[f] != s.files[f])
    ensures s.path != Some(f) && DoUnload(s, e).value.path == s.path
  {
    hide HandlesAccounted, LocksConsistent, ClosingConsistent;
  }

  lemma ChangedFile(s: State, e: Event, f: File)
    requires Core(s) && Do(s, e).Some?
    requires f in s.files && (f !in Do(s, e).value.files || Do(s, e).value.files[f] != s.files[f])
    ensures s.path != Some(f) && Do(s, e).value.path == s.path
  {
    if IsReaderEvent(e) { ReaderHarmless(s, e); }
    else if IsResolveEvent(e) { ResolveHarmless(s, e); }
    else if IsDownloadEvent(e) { DownloadChanges(s, e, f); }
    else if IsCloseEvent(e) { CloseTouches(s, e); }
    else if IsUnloadEvent(e) { UnloadChanges(s, e, f); }
    else if IsRetireEvent(e) { RetireChanges(s, e, f); }
    else { SwapTouches(s, e); }
  }

  /** What a step moves a file onto, or removes. */
  function Target(s: State, e: Event): Option<File>
    requires Do(s, e).Some?
  {
    match e
    case Rename | Discard(_) => Some(s.refresh.b.File())
    case RemoveUnloaded(_) | RemoveRetired(_) => Some(s.refresh.gone)
    case SweepRemove(f) => Some(f)
    case _ => None
  }

  /** It is never the file that is mapped. */
  lemma TargetsAreNotMapped(s: State, e: Event)
    requires Reachable(s) && Do(s, e).Some? && Target(s, e).Some?
    ensures s.path != Target(s, e) && Do(s, e).value.path == s.path
  {
    ReachableInv(s);
  }

  /** After Close has returned nothing is open, and that stays so. */
  lemma CloseReleasesAll(s: State, es: seq<Event>)
    requires Reachable(s) && s.closer == Closed && Run(s, es).Some?
    ensures Run(s, es).value.open == {} && Run(s, es).value.db == None
    decreases |es|
  {
    ReachableInv(s);
    ClosedStays(s, es);
  }

  lemma {:induction false} ClosedStays(s: State, es: seq<Event>)
    requires Inv(s) && s.closer == Closed && Run(s, es).Some?
    ensures Inv(Run(s, es).value) && Run(s, es).value.closer == Closed
    ensures Run(s, es).value.open == {} && Run(s, es).value.db == None
  {
    hide Do;
    RunKeeps(s, es);
    if es != [] {
      ClosedStays(s, es[..|es| - 1]);
      CloserStays(Run(s, es[..|es| - 1]).value, es[|es| - 1]);
    }
    var t := Run(s, es).value;
    assert t.refresh == Idle;
    assert forall h :: h !in t.open;
  }

  lemma CloserStays(s: State, e: Event)
    requires s.closer == Closed && Do(s, e).Some?
    ensures Do(s, e).value.closer == Closed
  {
    if IsReaderEvent(e) { ReaderHarmless(s, e); }
    else if IsResolveEvent(e) { ResolveHarmless(s, e); }
    else if IsDownloadEvent(e) { DownloadTouches(s, e); }
    else if IsCloseEvent(e) { CloseTouches(s, e); }
    else if IsUnloadEvent(e) { UnloadTouches(s, e); }
    else if IsRetireEvent(e) { RetireTouches(s, e); }
    else { SwapTouches(s, e); }
  }

  /** Every response has, for each address asked about and in that order, what one and the same
      mapping holds for it, and carries that mapping's creation time. */
  lemma ResponseFromOneBuild(s: State, resp: Response) returns (m: Mapping)
    requires Reachable(s) && resp in s.responses
    ensures m in s.mappings && m.content.Mmdb? && resp.createdAt == m.createdAt && |resp.outcomes| == |resp.asked|
    ensures forall i :: 0 <= i < |resp.asked| ==>
              && resp.outcomes[i] == LookupIn(m.content, resp.asked[i]) && resp.outcomes[i] != Broken
              && Finds(m.content.records, resp.asked[i], resp.outcomes[i])
  {
    ReachableInv(s);
    assert OneBuild(s, resp);
    var h :| 0 <= h < |s.mappings| && MadeFrom(resp, h, s.mappings[h]);
    m := s.mappings[h];
  }

  // ---- queries and refreshes ----

  /** The state with the queries left out. */
  function Quiet(s: State): State { s.(readers := map[], responses := []) }

  /** The steps that are not a query's. */
  function Own(es: seq<Event>): seq<Event> {
    if es == [] then []
    else
      var e := es[|es| - 1];
      if IsReaderEvent(e) then Own(es[..|es| - 1]) else Own(es[..|es| - 1]) + [e]
  }

  lemma OpenedWithoutQueries(s: State, b: Build)
    requires Opened(s, b).Some?
    ensures Opened(Quiet(s), b) == Some(Quiet(Opened(s, b).value))
  {}

  lemma ResolveWithoutQueries(s: State, e: Event)
    requires IsResolveEvent(e) && DoResolve(s, e).Some?
    ensures DoResolve(Quiet(s), e) == Some(Quiet(DoResolve(s, e).value))
  {
    if e.OpenCached? && e.ok {
      hide Opened;
      OpenedWithoutQueries(s, s.refresh.b);
    }
  }

  lemma DownloadWithoutQueries(s: State, e: Event)
    requires IsDownloadEvent(e) && DoDownload(s, e).Some?
    ensures DoDownload(Quiet(s), e) == Some(Quiet(DoDownload(s, e).value))
  {}

  lemma CloseWithoutQueries(s: State, e: Event)
    requires IsCloseEvent(e) && DoClose(s, e).Some?
    ensures DoClose(Quiet(s), e) == Some(Quiet(DoClose(s, e).value))
  {}

  lemma UnloadWithoutQueries(s: State, e: Event)
    requires IsUnloadEvent(e) && DoUnload(s, e).Some?
    ensures DoUnload(Quiet(s), e) == Some(Quiet(DoUnload(s, e).value))
  {}

  lemma RetireWithoutQueries(s: State, e: Event)
    requires IsRetireEvent(e) && DoRetire(s, e).Some?
    ensures DoRetire(Quiet(s), e) == Some(Quiet(DoRetire(s, e).value))
  {}

  lemma SwapWithoutQueries(s: State, e: Event)
    requires (e.LockForRefresh? || e.Swap?) && DoSwap(s, e).Some?
    ensures DoSwap(Quiet(s), e) == Some(Quiet(DoSwap(s, e).value))
  {}

  lemma StepWithoutQueries(s: State, e: Event)
    requires !IsReaderEvent(e) && Do(s, e).Some?
    ensures Do(Quiet(s), e) == Some(Quiet(Do(s, e).value))
  {
    if IsResolveEvent(e) { ResolveWithoutQueries(s, e); }
    else if IsDownloadEvent(e) { DownloadWithoutQueries(s, e); }
    else if IsCloseEvent(e) { CloseWithoutQueries(s, e); }
    else if IsUnloadEvent(e) { UnloadWithoutQueries(s, e); }
    else if IsRetireEvent(e) { RetireWithoutQueries(s, e); }
    else { SwapWithoutQueries(s, e); }
  }

  lemma QueryWithoutQueries(s: State, e: Event)
    requires IsReaderEvent(e) && Do(s, e).Some?
    ensures Quiet(Do(s, e).value) == Quiet(s)
  {
    ReaderFrame(s, e);
  }

  /** Queries delay a refresh but never steer it: leaving them out of any interleaving is a run
      that ends in the same place. */
  lemma {:induction false} QueriesDoNotSteer(s: State, es: seq<Event>)
    requires Run(s, es).Some?
    ensures Run(Quiet(s), Own(es)) == Some(Quiet(Run(s, es).value))
  {
    hide Do;
    if es != [] {
      var before, e := es[..|es| - 1], es[|es| - 1];
      QueriesDoNotSteer(s, before);
      var t := Run(s, before).value;
      if IsReaderEvent(e) {
        QueryWithoutQueries(t, e);
      } else {
        StepWithoutQueries(t, e);
        Extend(Quiet(s), Own(before), e);
      }
    }
  }

  lemma ResolveDespiteQueries(s: State, e: Event)
    requires IsResolveEvent(e) && DoResolve(Quiet(s), e).Some?
    ensures DoResolve(s, e).Some?
  {}

  lemma DownloadDespiteQueries(s: State, e: Event)
    requires IsDownloadEvent(e) && DoDownload(Quiet(s), e).Some?
    ensures DoDownload(s, e).Some?
  {}

  lemma CloseDespiteQueries(s: State, e: Event)
    requires IsCloseEvent(e) && DoClose(Quiet(s), e).Some? && (e.LockForClose? ==> s.readers == map[])
    ensures DoClose(s, e).Some?
  {}

  lemma OtherDespiteQueries(s: State, e: Event)
    requires !IsReaderEvent(e) && !IsResolveEvent(e) && !IsDownloadEvent(e) && !IsCloseEvent(e)
    requires Do(Quiet(s), e).Some? && (e.LockForRefresh? ==> s.readers == map[])
    ensures Do(s, e).Some?
  {}

  /** The only steps that queries ever hold up are those that take the write lock. */
  lemma QueriesOnlyDelayTheLock(s: State, e: Event)
    requires !IsReaderEvent(e) && Do(Quiet(s), e).Some?
    ensures Do(s, e).Some? || ((e.LockForRefresh? || e.LockForClose?) && s.readers != map[])
  {
    if !((e.LockForRefresh? || e.LockForClose?) && s.readers != map[]) {
      if IsResolveEvent(e) { ResolveDespiteQueries(s, e); }
      else if IsDownloadEvent(e) { DownloadDespiteQueries(s, e); }
      else if IsCloseEvent(e) { CloseDespiteQueries(s, e); }
      else { OtherDespiteQueries(s, e); }
    }
  }

  /** And a query is only ever held up on entry, by a writer: where the refresh and Close stand is all
      the same to it. */
  lemma OnlyWritersDelayEntry(s: State, t: State, e: Event)
    requires IsReaderEvent(e) && t == s.(files := t.files, open := t.open, refresh := t.refresh, caller := t.caller,
                                         closer := t.closer, cancelled := t.cancelled, loopDone := t.loopDone,
                                         writer := t.writer)
    ensures (Do(s, e).Some? <==> Do(t, e).Some?) || (e.Enter? && s.writer != t.writer)
  {}

  /** A file that exists only because a refresh is under way. */
  predicate Passing(r: Refresh, f: File) {
    || ((r.Writing? || r.Written? || r.Renaming?) && f == Staging(r.tmp))
    || ((r.OpeningFresh? || r.Discarding? || r.SwapWaiting? || r.SwapLocked?) && f == r.b.File())
  }

  /** What a stretch without a swap has in common with its beginning. */
  ghost predicate Unswapped(s0: State, s: State) {
    && s.kind == DbCache
    && s.db == s0.db && s.path == s0.path && s.version == s0.version && s.createdAt == s0.createdAt
    && !(s.refresh.UnloadWaiting? || s.refresh.UnloadLocked? || s.refresh.UnloadClosing? || s.refresh.UnloadRemoving?)
    && !(s.refresh.Retiring? || s.refresh.RemovingOld? || s.refresh.Sweeping?)
    && forall f :: f in s.files ==> f in s0.files || Passing(s.refresh, f)
  }

  /** Neither swaps nor unmaps, and removes what it means to remove. */
  predicate Swapless(e: Event) { !e.Swap? && !e.Unmap? && e != Discard(false) }

  lemma UnswappedAsk(s0: State, s: State, e: Event)
    requires Unswapped(s0, s) && (e.BeginRefresh? || e.SourceFails? || e.SourceGives?) && DoResolve(s, e).Some?
    ensures Unswapped(s0, DoResolve(s, e).value)
  {}

  lemma UnswappedCompare(s0: State, s: State, e: Event)
    requires Unswapped(s0, s) && (e.CompareVersion? || e.StatFile?) && DoResolve(s, e).Some?
    ensures Unswapped(s0, DoResolve(s, e).value)
  {
    var t := DoResolve(s, e).value;
    assert t == s.(refresh := t.refresh);
    UnswappedMove(s0, s, t.refresh);
  }

  lemma UnswappedMove(s0: State, s: State, next: Refresh)
    requires Unswapped(s0, s) && (s.refresh.Comparing? || s.refresh.Checking?)
    requires next.Idle? || next.Checking? || next.OpeningCached? || next.Downloading?
    ensures Unswapped(s0, s.(refresh := next))
  {}

  lemma UnswappedCached(s0: State, s: State, e: Event)
    requires Unswapped(s0, s) && e.OpenCached? && DoResolve(s, e).Some?
    ensures Unswapped(s0, DoResolve(s, e).value)
  {}

  lemma UnswappedResolve(s0: State, s: State, e: Event)
    requires Unswapped(s0, s) && IsResolveEvent(e) && DoResolve(s, e).Some?
    ensures Unswapped(s0, DoResolve(s, e).value)
  {
    if e.OpenCached? { UnswappedCached(s0, s, e); }
    else if e.CompareVersion? || e.StatFile? { UnswappedCompare(s0, s, e); }
    else { UnswappedAsk(s0, s, e); }
  }

  lemma UnswappedOpen(s0: State, s: State, e: Event)
    requires Unswapped(s0, s) && e.OpenFresh? && DoDownload(s, e).Some?
    ensures Unswapped(s0, DoDownload(s, e).value)
  {}

  lemma UnswappedDiscard(s0: State, s: State, e: Event)
    requires Unswapped(s0, s) && Swapless(e) && e.Discard? && DoDownload(s, e).Some?
    ensures Unswapped(s0, DoDownload(s, e).value)
  {}

  lemma UnswappedRename(s0: State, s: State, e: Event)
    requires Unswapped(s0, s) && e.Rename? && DoDownload(s, e).Some?
    ensures Unswapped(s0, DoDownload(s, e).value)
  {}

  lemma UnswappedDownload(s0: State, s: State, e: Event)
    requires Unswapped(s0, s) && Swapless(e) && IsDownloadEvent(e) && DoDownload(s, e).Some?
    ensures Unswapped(s0, DoDownload(s, e).value)
  {
    if e.OpenFresh? { UnswappedOpen(s0, s, e); }
    else if e.Discard? { UnswappedDiscard(s0, s, e); }
    else if e.Rename? { UnswappedRename(s0, s, e); }
  }

  lemma UnswappedClose(s0: State, s: State, e: Event)
    requires Unswapped(s0, s) && Swapless(e) && IsCloseEvent(e) && DoClose(s, e).Some?
    ensures Unswapped(s0, DoClose(s, e).value)
  {}

  lemma UnswappedStep(s0: State, s: State, e: Event)
    requires Unswapped(s0, s) && Swapless(e) && Do(s, e).Some?
    ensures Unswapped(s0, Do(s, e).value)
  {
    hide DoReader, DoResolve, DoDownload, DoClose;
    if IsReaderEvent(e) { ReaderFrame(s, e); }
    else if IsResolveEvent(e) { UnswappedResolve(s0, s, e); }
    else if IsDownloadEvent(e) { UnswappedDownload(s0, s, e); }
    else if IsCloseEvent(e) { UnswappedClose(s0, s, e); }
  }

  /** However queries interleave with them, refreshes of the server's cache that swap nothing in
      leave the mapped database as it was and, once over, no file that was not there before. */
  lemma {:induction false} FailedRefreshesAddNothing(s0: State, es: seq<Event>)
    requires s0.kind == DbCache && s0.refresh == Idle && Run(s0, es).Some? && forall e :: e in es ==> Swapless(e)
    ensures
      var t := Run(s0, es).value;
      && Unswapped(s0, t)
      && (t.refresh == Idle ==> t.files.Keys <= s0.files.Keys)
  {
    hide Do;
    if es != [] {
      FailedRefreshesAddNothing(s0, es[..|es| - 1]);
      UnswappedStep(s0, Run(s0, es[..|es| - 1]).value, es[|es| - 1]);
    }
  }

  /** What a stretch of a Caddy run without a swap has in common with its beginning: either
      everything about what is served, or a build without a version was about to replace the one
      served from its path, and nothing is mapped. */
  ghost predicate ServesOrGaveUp(s0: State, s: State) {
    || (s.db == s0.db && s.path == s0.path && s.version == s0.version)
    || (s.db == None && s.path == None && s.version == "" && s0.path == Some(Database("")))
  }

  lemma ServedBefore(s0: State, s: State, e: Event)
    requires Core(s) && ServesOrGaveUp(s0, s) && !e.Swap? && !e.Unmap? && Do(s, e).Some?
    ensures ServesOrGaveUp(s0, Do(s, e).value)
  {
    hide DoReader, DoResolve, DoDownload, DoUnload, DoRetire, DoClose, DoSwap;
    if IsReaderEvent(e) { ReaderFrame(s, e); }
    else if IsResolveEvent(e) { ResolveServes(s, e); }
    else if IsDownloadEvent(e) { DownloadServes(s, e); }
    else if IsUnloadEvent(e) { UnloadServes(s0, s, e); }
    else if IsRetireEvent(e) { RetireServes(s, e); }
    else if IsCloseEvent(e) { WaitServes(s, e); }
    else { LockServes(s, e); }
  }

  lemma WaitServes(s: State, e: Event)
    requires IsCloseEvent(e) && !e.Unmap? && DoClose(s, e).Some?
    ensures var t := DoClose(s, e).value; t.db == s.db && t.path == s.path && t.version == s.version
  {}

  lemma LockServes(s: State, e: Event)
    requires e.LockForRefresh? && DoSwap(s, e).Some?
    ensures var t := DoSwap(s, e).value; t.db == s.db && t.path == s.path && t.version == s.version
  {}

  lemma RetireServes(s: State, e: Event)
    requires IsRetireEvent(e) && DoRetire(s, e).Some?
    ensures var t := DoRetire(s, e).value; t.db == s.db && t.path == s.path && t.version == s.version
  {}

  lemma UnloadServes(s0: State, s: State, e: Event)
    requires Core(s) && ServesOrGaveUp(s0, s) && IsUnloadEvent(e) && DoUnload(s, e).Some?
    ensures ServesOrGaveUp(s0, DoUnload(s, e).value)
  {
    hide HandlesAccounted, LocksConsistent, ClosingConsistent;
  }

  lemma ResolveServes(s: State, e: Event)
    requires IsResolveEvent(e) && DoResolve(s, e).Some?
    ensures var t := DoResolve(s, e).value; t.db == s.db && t.path == s.path && t.version == s.version
  {}

  lemma DownloadServes(s: State, e: Event)
    requires IsDownloadEvent(e) && DoDownload(s, e).Some?
    ensures var t := DoDownload(s, e).value; t.db == s.db && t.path == s.path && t.version == s.version
  {}

  /** However lookups interleave with them, refreshes that swap nothing in leave what is served as
      it was, unless a build without a version was about to replace it in place; then nothing is
      mapped and, once the refresh is over, no handle is open. */
  lemma {:induction false} FailedRefreshesKeepServing(s0: State, es: seq<Event>)
    requires Inv(s0) && Run(s0, es).Some?
    requires forall e :: e in es ==> !e.Swap? && !e.Unmap?
    ensures
      var t := Run(s0, es).value;
      && ServesOrGaveUp(s0, t)
      && (t.refresh == Idle && t.db == None && !t.closer.Closing? ==> t.open == {})
  {
    hide Do;
    RunKeeps(s0, es);
    if es != [] {
      var before := es[..|es| - 1];
      FailedRefreshesKeepServing(s0, before);
      RunKeeps(s0, before);
      ServedBefore(s0, Run(s0, before).value, es[|es| - 1]);
    }
    var t := Run(s0, es).value;
    if t.refresh == Idle && t.db == None && !t.closer.Closing? {
      assert forall h :: h !in t.open;
    }
  }

  /** A stretch in which a refresh that found its own version mapped is about to end, or has. */
  ghost predicate FoundCurrent(s0: State, s: State) {
    && s.files == s0.files && s.mappings == s0.mappings && (s.refresh == s0.refresh || s.refresh == Idle)
    && (s.refresh == s0.refresh ==> s.version == s0.version)
  }

  /** And, as long as nothing has been unmapped, everything served is as it was. */
  ghost predicate StillServing(s0: State, s: State) {
    && s.db == s0.db && s.path == s0.path && s.version == s0.version && s.createdAt == s0.createdAt
    && s.open == s0.open && !s.closer.Closing?
  }

  lemma FoundCurrentStep(s0: State, s: State, e: Event)
    requires s0.refresh.Comparing? && s0.refresh.b.version != "" && s0.refresh.b.version == s0.version
    requires Core(s) && FoundCurrent(s0, s) && !e.BeginRefresh? && Do(s, e).Some?
    ensures FoundCurrent(s0, Do(s, e).value)
    ensures StillServing(s0, s) && !e.Unmap? ==> StillServing(s0, Do(s, e).value)
  {
    if IsReaderEvent(e) { ReaderFrame(s, e); }
    else if IsResolveEvent(e) { FoundCurrentResolve(s0, s, e); }
    else if IsCloseEvent(e) { FoundCurrentClose(s0, s, e); }
    else { NothingToDo(s, e); }
  }

  /** Only asking, comparing and closing go on around a comparison. */
  lemma NothingToDo(s: State, e: Event)
    requires s.refresh.Comparing? || s.refresh == Idle
    requires !IsReaderEvent(e) && !IsResolveEvent(e) && !IsCloseEvent(e)
    ensures Do(s, e) == None
  {}

  lemma FoundCurrentResolve(s0: State, s: State, e: Event)
    requires s0.refresh.Comparing? && s0.refresh.b.version != "" && s0.refresh.b.version == s0.version
    requires FoundCurrent(s0, s) && IsResolveEvent(e) && !e.BeginRefresh? && DoResolve(s, e).Some?
    ensures FoundCurrent(s0, DoResolve(s, e).value)
    ensures StillServing(s0, s) ==> StillServing(s0, DoResolve(s, e).value)
  {}

  lemma FoundCurrentClose(s0: State, s: State, e: Event)
    requires s0.refresh.Comparing? && FoundCurrent(s0, s) && ClosingConsistent(s)
             && IsCloseEvent(e) && DoClose(s, e).Some?
    ensures FoundCurrent(s0, DoClose(s, e).value)
    ensures StillServing(s0, s) && !e.Unmap? ==> StillServing(s0, DoClose(s, e).value)
  {}

  /** A refresh that finds its version mapped opens, downloads and removes nothing, and whatever
      else goes on meanwhile, what is served stays as it is unless Close takes it away. */
  lemma {:induction false} SameVersionChangesNothing(s0: State, es: seq<Event>)
    requires Inv(s0) && s0.refresh.Comparing? && s0.refresh.b.version != "" && s0.refresh.b.version == s0.version
    requires Run(s0, es).Some? && forall e :: e in es ==> !e.BeginRefresh?
    ensures
      var t := Run(s0, es).value;
      FoundCurrent(s0, t) && ((forall e :: e in es ==> !e.Unmap?) ==> StillServing(s0, t))
  {
    hide Do;
    if es != [] {
      var before := es[..|es| - 1];
      SameVersionChangesNothing(s0, before);
      RunKeeps(s0, before);
      FoundCurrentStep(s0, Run(s0, before).value, es[|es| - 1]);
    }
  }

  // ---- where mapped bytes come from ----

  /** A download is under way, to a staging file. */
  predicate InFlight(r: Refresh) {
    || r.Writing? || r.Written? || r.UnloadWaiting? || r.UnloadLocked? || r.UnloadClosing? || r.UnloadRemoving?
    || r.Renaming?
  }

  ghost predicate StagedRight(s: State, good: (string, Content) -> bool) {
    InFlight(s.refresh) && Staging(s.refresh.tmp) in s.files && s.files[Staging(s.refresh.tmp)].Mmdb? ==>
      good(s.refresh.b.version, s.files[Staging(s.refresh.tmp)])
  }

  ghost predicate NamedRight(files: map<File, Content>, good: (string, Content) -> bool) {
    forall v :: Database(v) in files && files[Database(v)].Mmdb? ==> good(v, files[Database(v)])
  }

  ghost predicate MappedRight(mappings: seq<Mapping>, good: (string, Content) -> bool) {
    forall m :: m in mappings && m.content.Mmdb? ==> good(m.version, m.content)
  }

  /** Every database staged, on disk or mapped goes under a version that it is good for. */
  ghost predicate RightlyNamed(s: State, good: (string, Content) -> bool) {
    StagedRight(s, good) && NamedRight(s.files, good) && MappedRight(s.mappings, good)
  }

  lemma OpenedNamed(s: State, b: Build, good: (string, Content) -> bool)
    requires RightlyNamed(s, good) && Opened(s, b).Some?
    ensures RightlyNamed(Opened(s, b).value, good)
  {}

  lemma ResolveNamed(s: State, e: Event, good: (string, Content) -> bool)
    requires RightlyNamed(s, good) && IsResolveEvent(e) && DoResolve(s, e).Some?
    ensures RightlyNamed(DoResolve(s, e).value, good)
  {
    hide RightlyNamed;
    if e.OpenCached? && e.ok {
      OpenedNamed(s, s.refresh.b, good);
    } else {
      SameNamed(s, DoResolve(s, e).value, good);
    }
  }

  /** Files may go, and the refresh may get on with what it has staged. */
  lemma SameNamed(s: State, t: State, good: (string, Content) -> bool)
    requires RightlyNamed(s, good) && t.mappings == s.mappings
    requires forall f :: f in t.files ==> f in s.files && t.files[f] == s.files[f]
    requires InFlight(t.refresh) ==>
               InFlight(s.refresh) && t.refresh.tmp == s.refresh.tmp && t.refresh.b.version == s.refresh.b.version
    ensures RightlyNamed(t, good)
  {}

  /** What a download writes is good for the version it was to bring. */
  ghost predicate WritesRight(s: State, e: Event, good: (string, Content) -> bool) {
    e.StagingWritten? && e.content.Mmdb? && s.refresh.Writing? ==> good(s.refresh.b.version, e.content)
  }

  lemma DownloadNamed(s: State, e: Event, good: (string, Content) -> bool)
    requires RightlyNamed(s, good) && IsDownloadEvent(e) && DoDownload(s, e).Some? && WritesRight(s, e, good)
    ensures RightlyNamed(DoDownload(s, e).value, good)
  {
    if e.OpenFresh? && e.ok {
      OpenedNamed(s, s.refresh.b, good);
    }
  }

  lemma UnloadNamed(s: State, e: Event, good: (string, Content) -> bool)
    requires RightlyNamed(s, good) && IsUnloadEvent(e) && DoUnload(s, e).Some?
    ensures RightlyNamed(DoUnload(s, e).value, good)
  {
    hide RightlyNamed;
    SameNamed(s, DoUnload(s, e).value, good);
  }

  lemma RetireNamed(s: State, e: Event, good: (string, Content) -> bool)
    requires RightlyNamed(s, good) && IsRetireEvent(e) && DoRetire(s, e).Some?
    ensures RightlyNamed(DoRetire(s, e).value, good)
  {
    hide RightlyNamed;
    SameNamed(s, DoRetire(s, e).value, good);
  }

  lemma CloseNamed(s: State, e: Event, good: (string, Content) -> bool)
    requires RightlyNamed(s, good) && IsCloseEvent(e) && DoClose(s, e).Some?
    ensures RightlyNamed(DoClose(s, e).value, good)
  {
    hide RightlyNamed;
    SameNamed(s, DoClose(s, e).value, good);
  }

  lemma SwapNamed(s: State, e: Event, good: (string, Content) -> bool)
    requires RightlyNamed(s, good) && (e.LockForRefresh? || e.Swap?) && DoSwap(s, e).Some?
    ensures RightlyNamed(DoSwap(s, e).value, good)
  {
    hide RightlyNamed;
    SameNamed(s, DoSwap(s, e).value, good);
  }

  lemma StepNamed(s: State, e: Event, good: (string, Content) -> bool)
    requires RightlyNamed(s, good) && Do(s, e).Some? && WritesRight(s, e, good)
    ensures RightlyNamed(Do(s, e).value, good)
  {
    if IsReaderEvent(e) { ReaderFrame(s, e); }
    else if IsResolveEvent(e) { ResolveNamed(s, e, good); }
    else if IsDownloadEvent(e) { DownloadNamed(s, e, good); }
    else if IsUnloadEvent(e) { UnloadNamed(s, e, good); }
    else if IsRetireEvent(e) { RetireNamed(s, e, good); }
    else if IsCloseEvent(e) { CloseNamed(s, e, good); }
    else { SwapNamed(s, e, good); }
  }

  /** Every download of a run writes what is good for the version it was to bring. */
  ghost predicate AllWriteRight(s0: State, es: seq<Event>, good: (string, Content) -> bool) {
    forall k :: 0 <= k < |es| && Run(s0, es[..k]).Some? ==> WritesRight(Run(s0, es[..k]).value, es[k], good)
  }

  /** A file named after a version holds that version, and so does a mapping: no refresh, failed,
      interrupted or interleaved as it may be, moves or opens one build under another's name. */
  lemma {:induction false} MappedIsItsVersion(s0: State, es: seq<Event>, good: (string, Content) -> bool)
    requires RightlyNamed(s0, good) && Run(s0, es).Some? && AllWriteRight(s0, es, good)
    ensures RightlyNamed(Run(s0, es).value, good)
  {
    hide Do, RightlyNamed, WritesRight;
    if es != [] {
      var before := es[..|es| - 1];
      forall k | 0 <= k < |before| && Run(s0, before[..k]).Some?
        ensures WritesRight(Run(s0, before[..k]).value, before[k], good)
      {
        assert before[..k] == es[..k];
      }
      MappedIsItsVersion(s0, before, good);
      StepNamed(Run(s0, before).value, es[|es| - 1], good);
    }
  }

  /** The refresh has a build to bring in. */
  predicate Pursuing(r: Refresh) { !r.Idle? && !r.Asking? && !r.Retiring? && !r.RemovingOld? && !r.Sweeping? }

  /** The date a mapping goes by: the source's, or else the file's own. */
  ghost predicate DatedBy(m: Mapping, createdAt: Option<Time>) {
    m.content.Mmdb? && m.createdAt == match createdAt case Some(t) => t case None => m.content.builtAt
  }

  ghost predicate MappedAsGiven(mappings: seq<Mapping>, given: Build -> bool) {
    forall m :: m in mappings ==> exists createdAt :: given(Build(m.version, createdAt)) && DatedBy(m, createdAt)
  }

  /** Every build being brought in was given by the source, and every mapping is of one that was. */
  ghost predicate AsGiven(s: State, given: Build -> bool) {
    (Pursuing(s.refresh) ==> given(s.refresh.b)) && MappedAsGiven(s.mappings, given)
  }

  lemma OpenedAsGiven(s: State, b: Build, given: Build -> bool)
    requires AsGiven(s, given) && given(b) && Opened(s, b).Some?
    ensures AsGiven(Opened(s, b).value, given)
  {
    var t := Opened(s, b).value;
    var h := |s.mappings|;
    assert b == Build(t.mappings[h].version, b.createdAt) && DatedBy(t.mappings[h], b.createdAt);
  }

  lemma SameAsGiven(s: State, t: State, given: Build -> bool)
    requires AsGiven(s, given) && t.mappings == s.mappings
    requires Pursuing(t.refresh) ==> Pursuing(s.refresh) && t.refresh.b == s.refresh.b
    ensures AsGiven(t, given)
  {}

  lemma ResolveAsGiven(s: State, e: Event, given: Build -> bool)
    requires AsGiven(s, given) && IsResolveEvent(e) && DoResolve(s, e).Some? && (e.SourceGives? ==> given(e.b))
    ensures AsGiven(DoResolve(s, e).value, given)
  {
    hide MappedAsGiven;
    if e.OpenCached? && e.ok {
      OpenedAsGiven(s, s.refresh.b, given);
    }
  }

  lemma DownloadAsGiven(s: State, e: Event, given: Build -> bool)
    requires AsGiven(s, given) && IsDownloadEvent(e) && DoDownload(s, e).Some?
    ensures AsGiven(DoDownload(s, e).value, given)
  {
    hide AsGiven;
    if e.OpenFresh? && e.ok {
      assert given(s.refresh.b) by { AsGivenBuild(s, given); }
      OpenedAsGiven(s, s.refresh.b, given);
    } else {
      SameAsGiven(s, DoDownload(s, e).value, given);
    }
  }

  lemma AsGivenBuild(s: State, given: Build -> bool)
    requires AsGiven(s, given) && Pursuing(s.refresh)
    ensures given(s.refresh.b)
  {}

  lemma OtherAsGiven(s: State, e: Event, given: Build -> bool)
    requires AsGiven(s, given) && !IsResolveEvent(e) && !IsDownloadEvent(e) && Do(s, e).Some?
    ensures AsGiven(Do(s, e).value, given)
  {
    hide AsGiven;
    if IsReaderEvent(e) { ReaderFrame(s, e); }
    SameAsGiven(s, Do(s, e).value, given);
  }

  /** A mapping goes by the version and the date that the source gave for some build. */
  lemma {:induction false} MappedWasGiven(s0: State, es: seq<Event>, given: Build -> bool)
    requires AsGiven(s0, given) && Run(s0, es).Some?
    requires forall e :: e in es && e.SourceGives? ==> given(e.b)
    ensures AsGiven(Run(s0, es).value, given)
  {
    if es != [] {
      var s, e := Run(s0, es[..|es| - 1]).value, es[|es| - 1];
      MappedWasGiven(s0, es[..|es| - 1], given);
      hide AsGiven;
      if IsResolveEvent(e) { ResolveAsGiven(s, e, given); }
      else if IsDownloadEvent(e) { DownloadAsGiven(s, e, given); }
      else { OtherAsGiven(s, e, given); }
    }
  }
}
