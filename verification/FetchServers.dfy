/** The fetch service as its own code runs it, one request at a time
    (cmd/reputationdbd/internal/svc/fetch/v1/fetch.go), and the cache's source of builds
    (cmd/reputationdbd/internal/dbcache/source.go). */
module FetchServers {
  import opened Prefixes
  import opened VersionIds
  import opened VersionIndexes
  import opened Buckets
  import opened Publishing

  /** What one refetch of the index meets: the listing, whether the read works, and when it is done. */
  datatype Refetching = Refetching(listing: seq<Option<string>>, got: bool, done: int) {
    ghost predicate Smooth() { None !in listing && got }
  }

  /** One request, when it comes, and how the calls made for it fare. */
  datatype Call = Call(request: Request, now: int, f: Refetching, listing: seq<Option<string>>, signs: bool)

  predicate Young(copy: Option<Cached>, now: int) { copy.Some? && now - copy.value.at < INDEX_CACHE_TTL }

  /** The index a request gets to work with. */
  function Told(copy: Option<Cached>, b: Bucket, now: int, f: Refetching): Option<seq<Version>> {
    if Young(copy, now) then Some(copy.value.versions) else Load(b, f.listing, f.got)
  }

  /** The copy it leaves, and the time it is by then. */
  function Kept(copy: Option<Cached>, b: Bucket, now: int, f: Refetching): Option<Cached> {
    if !Young(copy, now) && Told(copy, b, now, f).Some? then Some(Cached(Told(copy, b, now, f).value, f.done)) else copy
  }

  function Later(copy: Option<Cached>, b: Bucket, now: int, f: Refetching): int {
    if !Young(copy, now) && Told(copy, b, now, f).Some? then f.done else now
  }

  function CopyAfter(copy: Option<Cached>, b: Bucket, c: Call): Option<Cached> {
    if WellAddressed(c.request) then Kept(copy, b, c.now, c.f) else copy
  }

  function ClockAfter(copy: Option<Cached>, b: Bucket, c: Call): int {
    if WellAddressed(c.request) then Later(copy, b, c.now, c.f) else c.now
  }

  /** What the request is told. */
  function ReplyTo(copy: Option<Cached>, b: Bucket, c: Call): Reply {
    if !WellAddressed(c.request) then Invalid
    else match Told(copy, b, c.now, c.f)
         case None => Unavailable
         case Some(versions) =>
           match Settled(c.request, versions)
           case Some(reply) => reply
           case None => Fetched(versions, c)
  }

  function Fetched(versions: seq<Version>, c: Call): Reply
    requires c.request.Fetch?
  {
    var id := c.request.id;
    match Find(versions, id)
    case Some(v) => Signed(v, c)
    case None =>
      match Scanned(c.listing, ObjectKey(id))
      case None => Unavailable
      case Some(present) => if present then Signed(AgedOut(id), c) else NotFound
  }

  function Signed(v: Version, c: Call): Reply
    requires c.request.Fetch?
  {
    if c.signs then Url(v, ObjectKey(c.request.id)) else Unavailable
  }

  class Server {
    const store: Store
    var copy: Option<Cached>

    constructor (store: Store)
      ensures this.store == store && copy == None
    {
      this.store := store;
      copy := None;
    }

    /** The copy names only databases that are there, and nothing else has a database's name. */
    ghost predicate Valid()
      reads this, store
    {
      && Sound(store.objects) && Orderly(store.objects)
      && (copy.Some? ==> AllStored(store.objects, copy.value.versions))
    }

    /** index: the copy while it is young enough, else what the bucket has; a failure is passed on
        and never papered over with the old copy, which is kept. */
    method IndexCopy(now: int, f: Refetching) returns (r: Option<seq<Version>>)
      requires Valid() && Honest(store.objects, INDEX_KEY, f.listing)
      modifies this
      ensures Valid() && (r.Some? ==> AllStored(store.objects, r.value))
      ensures r == Told(old(copy), store.objects, now, f) && copy == Kept(old(copy), store.objects, now, f)
      ensures Young(old(copy), now) ==> r == Some(old(copy).value.versions) && copy == old(copy)
      ensures !Young(old(copy), now) && r.Some? ==>
                r.value == IndexOf(store.objects) && copy == Some(Cached(r.value, f.done))
      ensures !Young(old(copy), now) && r == None ==> copy == old(copy)
      ensures f.Smooth() && Readable(store.objects) ==> r.Some?
    {
      if Young(copy, now) {
        return Some(copy.value.versions);
      }
      LoadIsIndex(store.objects, f.listing, f.got);
      r := store.LoadIndex(f.listing, f.got);
      if r.Some? {
        copy := Some(Cached(r.value, f.done));
      }
    }

    method FindVersion(versions: seq<Version>, id: string) returns (r: Option<Version>)
      ensures r == Find(versions, id)
      ensures r.Some? ==> r.value in versions && r.value.id == id
      ensures r == None ==> forall v :: v in versions ==> v.id != id
    {
      FindFinds(versions, id);
      for i := 0 to |versions|
        invariant Find(versions, id) == Find(versions[i..], id)
      {
        assert versions[i..][1..] == versions[i + 1..];
        if versions[i].id == id {
          return Some(versions[i]);
        }
      }
      r := None;
    }

    /** List: the index, or an admission that it cannot be read. */
    method List(now: int, f: Refetching) returns (reply: Reply)
      requires Valid() && Honest(store.objects, INDEX_KEY, f.listing)
      modifies this
      ensures Valid()
      ensures reply == ReplyTo(old(copy), store.objects, Call(ListVersions, now, f, [], true))
      ensures copy == Kept(old(copy), store.objects, now, f)
      ensures reply == Unavailable || (reply.Versions? && AllStored(store.objects, reply.versions))
      ensures f.Smooth() && Readable(store.objects) ==> reply.Versions?
    {
      var versions := IndexCopy(now, f);
      return if versions.Some? then Versions(versions.value) else Unavailable;
    }

    /** Info: only of versions that are in the index. */
    method InfoOf(id: string, now: int, f: Refetching) returns (reply: Reply)
      requires Valid() && Honest(store.objects, INDEX_KEY, f.listing)
      modifies this
      ensures Valid()
      ensures reply == ReplyTo(old(copy), store.objects, Call(Info(id), now, f, [], true))
      ensures copy == CopyAfter(old(copy), store.objects, Call(Info(id), now, f, [], true))
      ensures reply == Invalid <==> !ValidVersionId(id)
      ensures reply.Details? ==> reply.v.id == id && Stored(store.objects, id)
      ensures reply == Invalid || reply == Unavailable || reply == NotFound || reply.Details?
    {
      if !ValidVersionId(id) {
        return Invalid;
      }
      var versions := IndexCopy(now, f);
      if versions == None {
        return Unavailable;
      }
      var found := FindVersion(versions.value, id);
      return match found case None => NotFound case Some(v) => Details(v);
    }

    /** Fetch: a URL for exactly the versions that are there, in the index or not, unless a call
        fails; a version that has aged out is named by its identifier alone. */
    method FetchUrl(id: string, now: int, f: Refetching, listing: seq<Option<string>>, signs: bool)
        returns (reply: Reply)
      requires Valid() && Honest(store.objects, INDEX_KEY, f.listing) && Honest(store.objects, ObjectKey(id), listing)
      modifies this
      ensures Valid()
      ensures reply == ReplyTo(old(copy), store.objects, Call(Fetch(id), now, f, listing, signs))
      ensures copy == CopyAfter(old(copy), store.objects, Call(Fetch(id), now, f, listing, signs))
      ensures reply == Invalid <==> !ValidVersionId(id)
      ensures reply == NotFound ==> !Stored(store.objects, id)
      ensures reply.Url? ==> Stored(store.objects, id) && reply.key == ObjectKey(id) && reply.v.id == id
      ensures f.Smooth() && Readable(store.objects) && None !in listing && signs && ValidVersionId(id)
              ==> (if Stored(store.objects, id) then reply.Url? else reply == NotFound)
      ensures reply.Url? && copy.Some? && Find(copy.value.versions, id) == None ==> reply.v == Version(id, None, "", "")
    {
      hide Told, Kept, Load;
      if !ValidVersionId(id) {
        return Invalid;
      }
      var versions := IndexCopy(now, f);
      if versions == None {
        return Unavailable;
      }
      var key := ObjectKey(id);
      var found := FindVersion(versions.value, id);
      if found == None {
        var present := store.Exists(key, listing);
        if present == None {
          return Unavailable;
        }
        if present == Some(false) {
          return NotFound;
        }
        found := Some(AgedOut(id));
      }
      return if signs then Url(found.value, key) else Unavailable;
    }
  }

  // ---- the code in the protocol ----

  /** The server with request r at a stage of its own. */
  function Serving(n: Net, r: nat, request: Request, stage: Stage): Net {
    n.(requests := n.requests[r := Handling(request, stage)])
  }

  /** One request of the code, however its calls fare, is a run of the protocol: to the same reply, and
      to the same copy of the index. */
  lemma FetchIsRun(n: Net, r: nat, c: Call) returns (es: seq<Event>)
    requires r !in n.requests && n.lock == None && n.clock == c.now <= c.f.done
    requires Honest(n.bucket, INDEX_KEY, c.f.listing)
    requires c.request.Fetch? ==> Honest(n.bucket, ObjectKey(c.request.id), c.listing)
    ensures Run(n, es) == Some(n.(cached := CopyAfter(n.cached, n.bucket, c),
                                  clock := ClockAfter(n.cached, n.bucket, c),
                                  replies := n.replies + [(c.request, ReplyTo(n.cached, n.bucket, c))]))
  {
    hide Run;
    NoCalls(n);
    if !WellAddressed(c.request) {
      es := Extends(n, [], n, Arrive(r, c.request), n.(replies := n.replies + [(c.request, Invalid)]));
    } else {
      es := Extends(n, [], n, Arrive(r, c.request), Serving(n, r, c.request, Arrived));
      es := Indexed(n, es, r, c);
      if Told(n.cached, n.bucket, c.now, c.f).Some? {
        es := Answered(n, es, WithIndex(n, c), r, c, Told(n.cached, n.bucket, c.now, c.f).value);
      }
    }
  }

  /** The state once the request has its index. */
  function WithIndex(n: Net, c: Call): Net {
    n.(cached := Kept(n.cached, n.bucket, c.now, c.f), clock := Later(n.cached, n.bucket, c.now, c.f))
  }

  lemma ServingMoves(n: Net, r: nat, request: Request, a: Stage, b: Stage)
    requires r !in n.requests
    ensures Publishing.At(Serving(n, r, request, a), r, b) == Serving(n, r, request, b)
    ensures forall reply :: n.lock == None ==>
              Replied(Serving(n, r, request, a), r, reply) == n.(replies := n.replies + [(request, reply)])
    ensures forall reply ::
              Replied(Serving(n, r, request, a).(lock := Some(r)), r, reply) ==
              n.(replies := n.replies + [(request, reply)], lock := None)
  {
    assert Serving(n, r, request, a).requests[r := Handling(request, b)] == Serving(n, r, request, b).requests;
    assert Serving(n, r, request, a).requests - {r} == n.requests;
  }

  /** Getting hold of an index, or not. */
  lemma Indexed(n: Net, es: seq<Event>, r: nat, c: Call) returns (es': seq<Event>)
    requires r !in n.requests && n.lock == None && n.clock == c.now <= c.f.done
    requires Honest(n.bucket, INDEX_KEY, c.f.listing) && Run(n, es) == Some(Serving(n, r, c.request, Arrived))
    ensures Run(n, es') ==
            (match Told(n.cached, n.bucket, c.now, c.f)
             case None => Some(n.(replies := n.replies + [(c.request, Unavailable)]))
             case Some(versions) => Some(Serving(WithIndex(n, c), r, c.request, Holding(versions))))
  {
    hide Run;
    var m := Serving(n, r, c.request, Arrived);
    if Young(n.cached, c.now) {
      ServingMoves(n, r, c.request, Arrived, Holding(n.cached.value.versions));
      es' := Extends(n, es, m, UseCache(r), Serving(n, r, c.request, Holding(n.cached.value.versions)));
    } else {
      ServingMoves(n, r, c.request, Arrived, Listing);
      es' := Extends(n, es, m, Refetch(r), Serving(n, r, c.request, Listing).(lock := Some(r)));
      es' := Refetched(n, es', r, c);
    }
  }

  lemma Refetched(n: Net, es: seq<Event>, r: nat, c: Call) returns (es': seq<Event>)
    requires r !in n.requests && n.lock == None && n.clock == c.now <= c.f.done && !Young(n.cached, c.now)
    requires Honest(n.bucket, INDEX_KEY, c.f.listing)
    requires Run(n, es) == Some(Serving(n, r, c.request, Listing).(lock := Some(r)))
    ensures Run(n, es') ==
            (match Told(n.cached, n.bucket, c.now, c.f)
             case None => Some(n.(replies := n.replies + [(c.request, Unavailable)]))
             case Some(versions) => Some(Serving(WithIndex(n, c), r, c.request, Holding(versions))))
  {
    hide Run;
    ExistsTellsTheTruth(n.bucket, INDEX_KEY, c.f.listing);
    var held, failed := n.(lock := Some(r)), n.(replies := n.replies + [(c.request, Unavailable)]);
    var listing := Serving(held, r, c.request, Listing);
    ServingMoves(n, r, c.request, Listing, Listing);
    match Scanned(c.f.listing, INDEX_KEY)
    case None =>
      es' := Extends(n, es, listing, ListIndex(r, false), failed);
    case Some(false) =>
      ServingMoves(held, r, c.request, Listing, Loaded([]));
      es' := Extends(n, es, listing, ListIndex(r, true), Serving(held, r, c.request, Loaded([])));
      es' := Stamped(n, es', r, c, []);
    case Some(true) =>
      ServingMoves(held, r, c.request, Listing, Getting);
      es' := Extends(n, es, listing, ListIndex(r, true), Serving(held, r, c.request, Getting));
      ServingMoves(n, r, c.request, Getting, Getting);
      if c.f.got && n.bucket[INDEX_KEY].Index? {
        var versions := n.bucket[INDEX_KEY].versions;
        ServingMoves(held, r, c.request, Getting, Loaded(versions));
        es' := Extends(n, es', Serving(held, r, c.request, Getting), ReadIndex(r, true),
                       Serving(held, r, c.request, Loaded(versions)));
        es' := Stamped(n, es', r, c, versions);
      } else {
        es' := Extends(n, es', Serving(held, r, c.request, Getting), ReadIndex(r, c.f.got), failed);
      }
  }

  /** The load ends at its own time. */
  lemma Stamped(n: Net, es: seq<Event>, r: nat, c: Call, versions: seq<Version>) returns (es': seq<Event>)
    requires r !in n.requests && n.lock == None && n.clock == c.now <= c.f.done && !Young(n.cached, c.now)
    requires Load(n.bucket, c.f.listing, c.f.got) == Some(versions)
    requires Run(n, es) == Some(Serving(n.(lock := Some(r)), r, c.request, Loaded(versions)))
    ensures Run(n, es') == Some(Serving(WithIndex(n, c), r, c.request, Holding(versions)))
  {
    hide Run, Load;
    var held := n.(lock := Some(r));
    var done := held.(clock := c.f.done);
    es' := Extends(n, es, Serving(held, r, c.request, Loaded(versions)), Tick(c.f.done - c.now),
                   Serving(done, r, c.request, Loaded(versions)));
    ServingMoves(done, r, c.request, Loaded(versions), Holding(versions));
    es' := Extends(n, es', Serving(done, r, c.request, Loaded(versions)), Stamp(r),
                   Serving(WithIndex(n, c), r, c.request, Holding(versions)));
  }

  /** From the index to the reply. */
  lemma Answered(n: Net, es: seq<Event>, m: Net, r: nat, c: Call, versions: seq<Version>) returns (es': seq<Event>)
    requires r !in m.requests && m.lock == None && Run(n, es) == Some(Serving(m, r, c.request, Holding(versions)))
    requires c.request.Fetch? ==> Honest(m.bucket, ObjectKey(c.request.id), c.listing)
    ensures
      var reply := match Settled(c.request, versions) case Some(reply) => reply case None => Fetched(versions, c);
      Run(n, es') == Some(m.(replies := m.replies + [(c.request, reply)]))
  {
    hide Run;
    var holding := Serving(m, r, c.request, Holding(versions));
    match Settled(c.request, versions)
    case Some(reply) =>
      ServingMoves(m, r, c.request, Holding(versions), Checking);
      es' := Extends(n, es, holding, Answer(r), m.(replies := m.replies + [(c.request, reply)]));
    case None =>
      match Find(versions, c.request.id)
      case Some(v) =>
        ServingMoves(m, r, c.request, Holding(versions), Signing(v));
        es' := Extends(n, es, holding, Answer(r), Serving(m, r, c.request, Signing(v)));
        es' := IsSigned(n, es', m, r, c, v);
      case None =>
        ServingMoves(m, r, c.request, Holding(versions), Checking);
        es' := Extends(n, es, holding, Answer(r), Serving(m, r, c.request, Checking));
        es' := IsChecked(n, es', m, r, c);
  }

  lemma IsSigned(n: Net, es: seq<Event>, m: Net, r: nat, c: Call, v: Version) returns (es': seq<Event>)
    requires r !in m.requests && m.lock == None && c.request.Fetch?
    requires Run(n, es) == Some(Serving(m, r, c.request, Signing(v)))
    ensures Run(n, es') == Some(m.(replies := m.replies + [(c.request, Signed(v, c))]))
  {
    hide Run;
    ServingMoves(m, r, c.request, Signing(v), Checking);
    es' := Extends(n, es, Serving(m, r, c.request, Signing(v)), Sign(r, c.signs),
                   m.(replies := m.replies + [(c.request, Signed(v, c))]));
  }

  lemma IsChecked(n: Net, es: seq<Event>, m: Net, r: nat, c: Call) returns (es': seq<Event>)
    requires r !in m.requests && m.lock == None && c.request.Fetch?
    requires Honest(m.bucket, ObjectKey(c.request.id), c.listing)
    requires Run(n, es) == Some(Serving(m, r, c.request, Checking))
    ensures
      var reply := match Scanned(c.listing, ObjectKey(c.request.id))
                   case None => Unavailable
                   case Some(present) => if present then Signed(AgedOut(c.request.id), c) else NotFound;
      Run(n, es') == Some(m.(replies := m.replies + [(c.request, reply)]))
  {
    hide Run;
    var id := c.request.id;
    var checking := Serving(m, r, c.request, Checking);
    ExistsTellsTheTruth(m.bucket, ObjectKey(id), c.listing);
    ServingMoves(m, r, c.request, Checking, Signing(AgedOut(id)));
    match Scanned(c.listing, ObjectKey(id))
    case None =>
      es' := Extends(n, es, checking, Check(r, false), m.(replies := m.replies + [(c.request, Unavailable)]));
    case Some(false) =>
      es' := Extends(n, es, checking, Check(r, true), m.(replies := m.replies + [(c.request, NotFound)]));
    case Some(true) =>
      es' := Extends(n, es, checking, Check(r, true), Serving(m, r, c.request, Signing(AgedOut(id))));
      es' := IsSigned(n, es', m, r, c, AgedOut(id));
  }

  // ---- the newest build ----

  datatype Newest = Newest(id: string, key: string, createdAt: Option<int>)

  /** Current: entry zero of a loaded index, if it has an identifier. */
  function Current(index: Option<seq<Version>>): Option<Newest> {
    if index == None || index.value == [] || index.value[0].id == "" then None
    else Some(Newest(index.value[0].id, ObjectKey(index.value[0].id), index.value[0].createdAt))
  }

  /** The source never reports an empty version, and what it reports is there to be opened. */
  lemma CurrentIsStored(b: Bucket, listing: seq<Option<string>>, got: bool)
    requires Sound(b) && Honest(b, INDEX_KEY, listing)
    ensures
      var r := Current(Load(b, listing, got));
      && (r.Some? ==> r.value.id != "" && r.value.key == ObjectKey(r.value.id) && Stored(b, r.value.id))
      && (None !in listing && got && Readable(b) ==> (r == None <==> IndexOf(b) == []))
  {
    LoadIsIndex(b, listing, got);
    if IndexOf(b) != [] {
      var id := IndexOf(b)[0].id;
      assert IndexOf(b)[0] in IndexOf(b);
      AcceptsEveryVersion(b[ObjectKey(id)].digest);
    }
  }

  /** After a publication that went through, the newest build is that one, under its own date. */
  lemma PublishedIsCurrent(b: Bucket, a: Attempt, listing: seq<Option<string>>)
    requires Sound(b) && Honest(Uploaded(b, a), INDEX_KEY, a.listing) && Records(b, a)
    requires Honest(AfterPublish(b, a), INDEX_KEY, listing) && None !in listing
    ensures Current(Load(AfterPublish(b, a), listing, true)) ==
            Some(Newest(VersionId(a.digest), ObjectKey(VersionId(a.digest)), Some(a.createdAt)))
  {
    PublishKeepsSound(b, a);
    var c := AfterPublish(b, a);
    assert Readable(c);
    LoadIsIndex(c, listing, true);
    AcceptsEveryVersion(a.digest);
    assert IndexOf(c)[0] == a.Version();
  }
}
