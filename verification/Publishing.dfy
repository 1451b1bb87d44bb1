/** Publishing, indexing and fetching as a protocol over the bucket: any number of publishers and of
    requests to the fetch service, interleaved between any two calls, any of which may fail
    (cmd/publish-database/main.go, internal/dbstore/store.go,
    cmd/reputationdbd/internal/svc/fetch/v1/fetch.go). */
module Publishing {
  import opened Prefixes
  import opened VersionIds
  import opened VersionIndexes
  import opened Buckets

  /** How long a fetched index is served from memory, in seconds. */
  const INDEX_CACHE_TTL := 60

  /** Where a publisher of digest d stands. */
  datatype Publisher =
    | Ready(d: Digest, v: Version)
    | HasUploaded(d: Digest, v: Version)
    | SawIndex(d: Digest, v: Version)
    | HasLoaded(d: Digest, v: Version, versions: seq<Version>)

  datatype Request = ListVersions | Info(id: string) | Fetch(id: string)

  datatype Reply =
    | Invalid
    | Unavailable
    | NotFound
    | Versions(versions: seq<Version>)
    | Details(v: Version)
    | Url(v: Version, key: string)

  /** Where a request stands. Listing, Getting and Loaded hold the server's lock. */
  datatype Stage =
    | Arrived
    | Listing
    | Getting
    | Loaded(versions: seq<Version>)
    | Holding(versions: seq<Version>)
    | Checking
    | Signing(v: Version)

  datatype Handling = Handling(request: Request, stage: Stage)

  datatype Cached = Cached(versions: seq<Version>, at: int)

  datatype Net = Net(
    bucket: Bucket,
    publishers: map<nat, Publisher>,
    cached: Option<Cached>,
    lock: Option<nat>,
    requests: map<nat, Handling>,
    replies: seq<(Request, Reply)>,
    clock: int
  )

  datatype Event =
    // a publisher
    | Start(p: nat, d: Digest, v: Version)
    | Upload(p: nat, write: Write)
    | FindIndex(p: nat, ok: bool)
    | GetIndex(p: nat, ok: bool)
    | SaveIndex(p: nat, write: Write)
    | Die(p: nat)
    // a request
    | Arrive(r: nat, request: Request)
    | UseCache(r: nat)
    | Refetch(r: nat)
    | ListIndex(r: nat, ok: bool)
    | ReadIndex(r: nat, ok: bool)
    | Stamp(r: nat)
    | Answer(r: nat)
    | Check(r: nat, ok: bool)
    | Sign(r: nat, ok: bool)
    // time
    | Tick(seconds: nat)

  function Init(b: Bucket): Net { Net(b, map[], None, None, map[], [], 0) }

  function DoPublisher(n: Net, e: Event): Option<Net> {
    match e
    case Start(p, d, v) =>
      if p !in n.publishers && v.id == VersionId(d) then
        Some(n.(publishers := n.publishers[p := Ready(d, v)]))
      else None
    case Upload(p, write) =>
      if p in n.publishers && n.publishers[p].Ready? then
        var pub := n.publishers[p];
        var m := if write == Fails then n else n.(bucket := n.bucket[ObjectKey(pub.v.id) := Archive(pub.d)]);
        Some(if write == Works then m.(publishers := n.publishers[p := HasUploaded(pub.d, pub.v)]) else Gone(m, p))
      else None
    case FindIndex(p, ok) =>
      if p in n.publishers && n.publishers[p].HasUploaded? then
        var pub := n.publishers[p];
        if !ok then Some(Gone(n, p))
        else if INDEX_KEY in n.bucket then Some(n.(publishers := n.publishers[p := SawIndex(pub.d, pub.v)]))
        else Some(n.(publishers := n.publishers[p := HasLoaded(pub.d, pub.v, [])]))
      else None
    case GetIndex(p, ok) =>
      if p in n.publishers && n.publishers[p].SawIndex? then
        var pub := n.publishers[p];
        if ok && INDEX_KEY in n.bucket && n.bucket[INDEX_KEY].Index? then
          Some(n.(publishers := n.publishers[p := HasLoaded(pub.d, pub.v, n.bucket[INDEX_KEY].versions)]))
        else Some(Gone(n, p))
      else None
    case SaveIndex(p, write) =>
      if p in n.publishers && n.publishers[p].HasLoaded? then
        var pub := n.publishers[p];
        var m := if write == Fails then n
                 else n.(bucket := n.bucket[INDEX_KEY := Index(Inserted(pub.versions, pub.v))]);
        Some(Gone(m, p))
      else None
    case Die(p) => Some(Gone(n, p))
    case _ => None
  }

  function Gone(n: Net, p: nat): Net { n.(publishers := n.publishers - {p}) }

  predicate Fresh(n: Net) { n.cached.Some? && n.clock - n.cached.value.at < INDEX_CACHE_TTL }

  /** Moves a request on. */
  function At(n: Net, r: nat, stage: Stage): Net
    requires r in n.requests
  {
    n.(requests := n.requests[r := n.requests[r].(stage := stage)])
  }

  /** Ends a request. */
  function Replied(n: Net, r: nat, reply: Reply): Net
    requires r in n.requests
  {
    n.(requests := n.requests - {r}, replies := n.replies + [(n.requests[r].request, reply)],
       lock := if n.lock == Some(r) then None else n.lock)
  }

  /** Keeps a loaded index under the time it is now, and lets the lock go. */
  function Caches(n: Net, r: nat, versions: seq<Version>): Net
    requires r in n.requests
  {
    At(n, r, Holding(versions)).(cached := Some(Cached(versions, n.clock)), lock := None)
  }

  /** What the index alone says to a request, if that settles it. */
  function Settled(request: Request, versions: seq<Version>): Option<Reply> {
    match request
    case ListVersions => Some(Versions(versions))
    case Info(id) => Some(match Find(versions, id) case None => NotFound case Some(v) => Details(v))
    case Fetch(_) => None
  }

  /** A version that is no longer in the index is known by its identifier alone. */
  function AgedOut(id: string): Version { Version(id, None, "", "") }

  predicate WellAddressed(request: Request) { request.ListVersions? || ValidVersionId(request.id) }

  function DoIndex(n: Net, e: Event): Option<Net> {
    match e
    case Arrive(r, request) =>
      if r in n.requests then None
      else if WellAddressed(request) then Some(n.(requests := n.requests[r := Handling(request, Arrived)]))
      else Some(n.(replies := n.replies + [(request, Invalid)]))
    case UseCache(r) =>
      if r in n.requests && n.requests[r].stage == Arrived && n.lock == None && Fresh(n) then
        Some(At(n, r, Holding(n.cached.value.versions))) else None
    case Refetch(r) =>
      if r in n.requests && n.requests[r].stage == Arrived && n.lock == None && !Fresh(n) then
        Some(At(n, r, Listing).(lock := Some(r))) else None
    case ListIndex(r, ok) =>
      if r in n.requests && n.requests[r].stage == Listing then
        Some(if !ok then Replied(n, r, Unavailable)
             else if INDEX_KEY in n.bucket then At(n, r, Getting)
             else At(n, r, Loaded([])))
      else None
    case ReadIndex(r, ok) =>
      if r in n.requests && n.requests[r].stage == Getting then
        Some(if ok && INDEX_KEY in n.bucket && n.bucket[INDEX_KEY].Index? then
               At(n, r, Loaded(n.bucket[INDEX_KEY].versions))
             else Replied(n, r, Unavailable))
      else None
    case Stamp(r) =>
      if r in n.requests && n.requests[r].stage.Loaded? then Some(Caches(n, r, n.requests[r].stage.versions)) else None
    case _ => None
  }

  function DoAnswer(n: Net, e: Event): Option<Net> {
    match e
    case Answer(r) =>
      if r in n.requests && n.requests[r].stage.Holding? then
        var request, versions := n.requests[r].request, n.requests[r].stage.versions;
        match Settled(request, versions) {
          case Some(reply) => Some(Replied(n, r, reply))
          case None =>
            match Find(versions, request.id)
            case None => Some(At(n, r, Checking))
            case Some(v) => Some(At(n, r, Signing(v)))
        }
      else None
    case Check(r, ok) =>
      if r in n.requests && n.requests[r].stage == Checking && n.requests[r].request.Fetch? then
        var id := n.requests[r].request.id;
        Some(if !ok then Replied(n, r, Unavailable)
             else if ObjectKey(id) in n.bucket then At(n, r, Signing(AgedOut(id)))
             else Replied(n, r, NotFound))
      else None
    case Sign(r, ok) =>
      if r in n.requests && n.requests[r].stage.Signing? && n.requests[r].request.Fetch? then
        Some(Replied(n, r, if ok then Url(n.requests[r].stage.v, ObjectKey(n.requests[r].request.id)) else Unavailable))
      else None
    case _ => None
  }

  predicate IsPublisherEvent(e: Event) {
    e.Start? || e.Upload? || e.FindIndex? || e.GetIndex? || e.SaveIndex? || e.Die?
  }

  predicate IsIndexEvent(e: Event) {
    e.Arrive? || e.UseCache? || e.Refetch? || e.ListIndex? || e.ReadIndex? || e.Stamp?
  }

  /** One call of one participant, or None when it cannot happen now. */
  function Do(n: Net, e: Event): Option<Net> {
    if IsPublisherEvent(e) then DoPublisher(n, e)
    else if IsIndexEvent(e) then DoIndex(n, e)
    else if e.Tick? then Some(n.(clock := n.clock + e.seconds))
    else DoAnswer(n, e)
  }

  function Run(n: Net, es: seq<Event>): Option<Net> {
    if es == [] then Some(n)
    else match Run(n, es[..|es| - 1])
         case None => None
         case Some(m) => Do(m, es[|es| - 1])
  }

  /** Reached from a bucket whose index, if any, names only databases that are there, and where
      nothing but databases has a database's name. */
  ghost predicate Reachable(n: Net) {
    exists b, es :: Sound(b) && Orderly(b) && Run(Init(b), es) == Some(n)
  }

  /** What is kept under a version's key is that version's database. */
  ghost predicate Orderly(b: Bucket) {
    forall id :: ObjectKey(id) in b ==> Stored(b, id)
  }

  // ---- the invariant ----

  ghost predicate PublisherOk(b: Bucket, p: Publisher) {
    && p.v.id == VersionId(p.d)
    && (!p.Ready? ==> Stored(b, p.v.id))
    && (p.HasLoaded? ==> AllStored(b, p.versions))
  }

  ghost predicate HandlingOk(b: Bucket, h: Handling) {
    && WellAddressed(h.request)
    && (h.stage.Loaded? || h.stage.Holding? ==> AllStored(b, h.stage.versions))
    && (h.stage.Signing? ==> h.request.Fetch? && h.stage.v.id == h.request.id && Stored(b, h.request.id))
  }

  ghost predicate ReplyOk(b: Bucket, request: Request, reply: Reply) {
    && (reply.Versions? ==> AllStored(b, reply.versions))
    && (reply.Details? ==> request.Info? && reply.v.id == request.id && Stored(b, reply.v.id))
    && (reply.Url? ==>
          request.Fetch? && reply.v.id == request.id && reply.key == ObjectKey(request.id)
          && Stored(b, request.id))
  }

  ghost predicate BucketOk(n: Net) {
    && Sound(n.bucket) && Orderly(n.bucket)
    && forall p :: p in n.publishers ==> PublisherOk(n.bucket, n.publishers[p])
  }

  ghost predicate ServerOk(n: Net) {
    && (n.cached.Some? ==> AllStored(n.bucket, n.cached.value.versions))
    && (forall r :: r in n.requests ==> HandlingOk(n.bucket, n.requests[r]))
    && (forall i :: 0 <= i < |n.replies| ==> ReplyOk(n.bucket, n.replies[i].0, n.replies[i].1))
  }

  ghost predicate Inv(n: Net) { BucketOk(n) && ServerOk(n) }

  lemma UploadKeeps(n: Net, e: Event)
    requires BucketOk(n) && e.Upload? && DoPublisher(n, e).Some?
    ensures Keeps(n.bucket, DoPublisher(n, e).value.bucket) && BucketOk(DoPublisher(n, e).value)
  {
    var m := DoPublisher(n, e).value;
    var pub := n.publishers[e.p];
    PutKeeps(n.bucket, pub.d);
    forall id | ObjectKey(id) in m.bucket ensures Stored(m.bucket, id) {
      ObjectKeysDiffer(id, pub.v.id);
    }
    forall p | p in m.publishers ensures PublisherOk(m.bucket, m.publishers[p]) {
      assert PublisherOk(n.bucket, n.publishers[p]);
    }
  }

  lemma SaveIndexKeeps(n: Net, e: Event)
    requires BucketOk(n) && e.SaveIndex? && DoPublisher(n, e).Some?
    ensures Keeps(n.bucket, DoPublisher(n, e).value.bucket) && BucketOk(DoPublisher(n, e).value)
  {
    var m := DoPublisher(n, e).value;
    var pub := n.publishers[e.p];
    var versions := Inserted(pub.versions, pub.v);
    assert PublisherOk(n.bucket, pub);
    InsertedStored(n.bucket, pub.versions, pub.v);
    SaveKeeps(n.bucket, versions);
    forall id | ObjectKey(id) in m.bucket ensures Stored(m.bucket, id) {
      ObjectKeysDiffer(id, "");
    }
    forall p | p in m.publishers ensures PublisherOk(m.bucket, m.publishers[p]) {
      assert PublisherOk(n.bucket, n.publishers[p]);
    }
  }

  lemma OtherPublisherKeeps(n: Net, e: Event)
    requires BucketOk(n) && IsPublisherEvent(e) && !e.Upload? && !e.SaveIndex? && DoPublisher(n, e).Some?
    ensures DoPublisher(n, e).value.bucket == n.bucket && BucketOk(DoPublisher(n, e).value)
  {
    var m := DoPublisher(n, e).value;
    forall p | p in m.publishers ensures PublisherOk(m.bucket, m.publishers[p]) {
      if p in n.publishers {
        assert PublisherOk(n.bucket, n.publishers[p]);
      }
    }
  }

  /** What holds of the server survives as long as no database is lost. */
  lemma ServerKeeps(n: Net, m: Net)
    requires ServerOk(n) && Keeps(n.bucket, m.bucket)
    requires m.cached == n.cached && m.requests == n.requests && m.replies == n.replies
    ensures ServerOk(m)
  {
    forall r | r in m.requests ensures HandlingOk(m.bucket, m.requests[r]) {
      assert HandlingOk(n.bucket, n.requests[r]);
    }
    forall i | 0 <= i < |m.replies| ensures ReplyOk(m.bucket, m.replies[i].0, m.replies[i].1) {
      assert ReplyOk(n.bucket, n.replies[i].0, n.replies[i].1);
    }
  }

  lemma PublisherFrame(n: Net, e: Event)
    requires IsPublisherEvent(e) && DoPublisher(n, e).Some?
    ensures
      var m := DoPublisher(n, e).value;
      m.cached == n.cached && m.requests == n.requests && m.replies == n.replies
      && m.lock == n.lock && m.clock == n.clock
  {}

  lemma PublisherKeeps(n: Net, e: Event)
    requires Inv(n) && IsPublisherEvent(e) && DoPublisher(n, e).Some?
    ensures Inv(DoPublisher(n, e).value) && Keeps(n.bucket, DoPublisher(n, e).value.bucket)
  {
    if e.Upload? { UploadKeeps(n, e); }
    else if e.SaveIndex? { SaveIndexKeeps(n, e); }
    else { OtherPublisherKeeps(n, e); }
    PublisherFrame(n, e);
    ServerKeeps(n, DoPublisher(n, e).value);
  }

  lemma AtKeeps(n: Net, r: nat, stage: Stage)
    requires ServerOk(n) && r in n.requests && HandlingOk(n.bucket, n.requests[r].(stage := stage))
    ensures ServerOk(At(n, r, stage))
  {}

  lemma RepliedKeeps(n: Net, r: nat, reply: Reply)
    requires ServerOk(n) && r in n.requests && ReplyOk(n.bucket, n.requests[r].request, reply)
    ensures ServerOk(Replied(n, r, reply))
  {}

  lemma CachesKeeps(n: Net, r: nat, versions: seq<Version>)
    requires ServerOk(n) && r in n.requests && AllStored(n.bucket, versions)
    ensures ServerOk(Caches(n, r, versions))
  {
    assert HandlingOk(n.bucket, n.requests[r]);
    AtKeeps(n, r, Holding(versions));
  }

  lemma IndexKeeps(n: Net, e: Event)
    requires Inv(n) && IsIndexEvent(e) && DoIndex(n, e).Some?
    ensures ServerOk(DoIndex(n, e).value)
  {
    if e.r in n.requests {
      assert HandlingOk(n.bucket, n.requests[e.r]);
      match e
      case UseCache(r) => AtKeeps(n, r, Holding(n.cached.value.versions));
      case Refetch(r) => AtKeeps(n, r, Listing);
      case ListIndex(r, ok) =>
        if !ok { RepliedKeeps(n, r, Unavailable); }
        else if INDEX_KEY in n.bucket { AtKeeps(n, r, Getting); }
        else { AtKeeps(n, r, Loaded([])); }
      case ReadIndex(r, ok) =>
        if ok && INDEX_KEY in n.bucket && n.bucket[INDEX_KEY].Index? {
          AtKeeps(n, r, Loaded(n.bucket[INDEX_KEY].versions));
        } else {
          RepliedKeeps(n, r, Unavailable);
        }
      case Stamp(r) => CachesKeeps(n, r, n.requests[r].stage.versions);
      case _ =>
    }
  }

  lemma AnswerKeeps(n: Net, e: Event)
    requires Inv(n) && (e.Answer? || e.Check? || e.Sign?) && DoAnswer(n, e).Some?
    ensures ServerOk(DoAnswer(n, e).value)
  {
    var h := n.requests[e.r];
    assert HandlingOk(n.bucket, h);
    match e
    case Answer(r) =>
      if !h.request.ListVersions? {
        FindFinds(h.stage.versions, h.request.id);
      }
      match Settled(h.request, h.stage.versions) {
        case Some(reply) => RepliedKeeps(n, r, reply);
        case None =>
          match Find(h.stage.versions, h.request.id)
          case None => AtKeeps(n, r, Checking);
          case Some(v) => AtKeeps(n, r, Signing(v));
      }
    case Check(r, ok) =>
      if !ok { RepliedKeeps(n, r, Unavailable); }
      else if ObjectKey(h.request.id) in n.bucket { AtKeeps(n, r, Signing(AgedOut(h.request.id))); }
      else { RepliedKeeps(n, r, NotFound); }
    case Sign(r, ok) =>
      RepliedKeeps(n, r, if ok then Url(h.stage.v, ObjectKey(h.request.id)) else Unavailable);
  }

  lemma IndexFrame(n: Net, e: Event)
    requires IsIndexEvent(e) && DoIndex(n, e).Some?
    ensures DoIndex(n, e).value.bucket == n.bucket && DoIndex(n, e).value.publishers == n.publishers
  {}

  lemma AnswerFrame(n: Net, e: Event)
    requires DoAnswer(n, e).Some?
    ensures DoAnswer(n, e).value.bucket == n.bucket && DoAnswer(n, e).value.publishers == n.publishers
  {}

  lemma StepKeeps(n: Net, e: Event)
    requires Inv(n) && Do(n, e).Some?
    ensures Inv(Do(n, e).value) && Keeps(n.bucket, Do(n, e).value.bucket)
  {
    if IsPublisherEvent(e) { PublisherKeeps(n, e); }
    else if IsIndexEvent(e) { IndexKeeps(n, e); IndexFrame(n, e); }
    else if !e.Tick? { AnswerKeeps(n, e); AnswerFrame(n, e); }
  }

  lemma {:induction false} RunKeeps(n: Net, es: seq<Event>)
    requires Inv(n) && Run(n, es).Some?
    ensures Inv(Run(n, es).value) && Keeps(n.bucket, Run(n, es).value.bucket)
  {
    hide Do;
    if es != [] {
      RunKeeps(n, es[..|es| - 1]);
      StepKeeps(Run(n, es[..|es| - 1]).value, es[|es| - 1]);
    }
  }

  lemma ReachableInv(n: Net)
    requires Reachable(n)
    ensures Inv(n)
  {
    var b, es :| Sound(b) && Orderly(b) && Run(Init(b), es) == Some(n);
    RunKeeps(Init(b), es);
  }

  // ---- what this gives ----

  /** Every version in the index, in the server's copy of it, and in every copy a publisher or a
      request works with, has its database in the bucket. */
  lemma EveryIndexedVersionIsStored(n: Net)
    requires Reachable(n)
    ensures AllStored(n.bucket, IndexOf(n.bucket))
    ensures n.cached.Some? ==> AllStored(n.bucket, n.cached.value.versions)
    ensures forall p :: p in n.publishers && n.publishers[p].HasLoaded? ==>
              AllStored(n.bucket, n.publishers[p].versions)
    ensures forall r :: r in n.requests && (n.requests[r].stage.Loaded? || n.requests[r].stage.Holding?) ==>
              AllStored(n.bucket, n.requests[r].stage.versions)
  {
    ReachableInv(n);
    forall p | p in n.publishers && n.publishers[p].HasLoaded? ensures AllStored(n.bucket, n.publishers[p].versions) {
      assert PublisherOk(n.bucket, n.publishers[p]);
    }
    forall r | r in n.requests && (n.requests[r].stage.Loaded? || n.requests[r].stage.Holding?)
      ensures AllStored(n.bucket, n.requests[r].stage.versions)
    {
      assert HandlingOk(n.bucket, n.requests[r]);
    }
  }

  /** Every URL handed out addresses the database of the version asked for, now and ever after. */
  lemma UrlsStayGood(n: Net, es: seq<Event>, i: nat)
    requires Reachable(n) && Run(n, es).Some? && i < |n.replies| && n.replies[i].1.Url?
    ensures n.replies[i].0.Fetch? && n.replies[i].1.key == ObjectKey(n.replies[i].0.id)
    ensures Stored(Run(n, es).value.bucket, n.replies[i].0.id)
  {
    ReachableInv(n);
    assert ReplyOk(n.bucket, n.replies[i].0, n.replies[i].1);
    RunKeeps(n, es);
  }

  /** An upload that takes effect stores the database, whether or not it is reported to have. */
  lemma UploadStores(n: Net, p: nat, write: Write)
    requires Reachable(n) && p in n.publishers && n.publishers[p].Ready? && write != Fails
    ensures Do(n, Upload(p, write)).Some? && Stored(Do(n, Upload(p, write)).value.bucket, VersionId(n.publishers[p].d))
  {
    ReachableInv(n);
    assert PublisherOk(n.bucket, n.publishers[p]);
    PutKeeps(n.bucket, n.publishers[p].d);
  }

  /** What a fetch of a stored version may be told. */
  predicate Served(request: Request, reply: Reply, id: string) {
    request == Fetch(id) ==> reply == Unavailable || (reply.Url? && reply.v.id == id && reply.key == ObjectKey(id))
  }

  lemma FetchStepServes(n: Net, e: Event, id: string)
    requires Inv(n) && Stored(n.bucket, id) && Do(n, e).Some?
    ensures
      var m := Do(n, e).value;
      n.replies <= m.replies
      && forall i :: |n.replies| <= i < |m.replies| ==> Served(m.replies[i].0, m.replies[i].1, id)
  {
    if IsPublisherEvent(e) {
      PublisherFrame(n, e);
    } else if e.Arrive? {
      AcceptsEveryVersion(n.bucket[ObjectKey(id)].digest);
    } else if e.Sign? {
      assert HandlingOk(n.bucket, n.requests[e.r]);
    }
  }

  /** Once uploaded, a version can always be fetched, also after it has aged out of the index: from
      then on no fetch of it is ever rejected as malformed or told that there is no such version. */
  lemma {:induction false} UploadedStaysFetchable(n: Net, es: seq<Event>, id: string)
    requires Inv(n) && Stored(n.bucket, id) && Run(n, es).Some?
    ensures
      var m := Run(n, es).value;
      && Stored(m.bucket, id) && n.replies <= m.replies
      && forall i :: |n.replies| <= i < |m.replies| ==> Served(m.replies[i].0, m.replies[i].1, id)
  {
    hide Do;
    RunKeeps(n, es);
    if es != [] {
      var before := es[..|es| - 1];
      RunKeeps(n, before);
      UploadedStaysFetchable(n, before, id);
      FetchStepServes(Run(n, before).value, es[|es| - 1], id);
    }
  }

  /** A fetch is told there is no such version only when there is none. */
  lemma NotFoundIsTrue(n: Net, e: Event, id: string)
    requires Reachable(n) && Do(n, e).Some? && Stored(n.bucket, id)
    ensures Do(n, e).value.replies != n.replies + [(Fetch(id), NotFound)]
  {
    ReachableInv(n);
    FetchStepServes(n, e, id);
    var m, k := Do(n, e).value, |n.replies|;
    if |m.replies| > k {
      assert Served(m.replies[k].0, m.replies[k].1, id);
    }
  }

  // ---- whose databases these are ----

  /** The state after the first i steps of a run. */
  function StateAt(b: Bucket, es: seq<Event>, i: nat): Net
    requires i <= |es| && Run(Init(b), es[..i]).Some?
  {
    Run(Init(b), es[..i]).value
  }

  /** The database with this digest was in the bucket to begin with, or some publisher set out to
      upload it. */
  ghost predicate WasPublished(b: Bucket, es: seq<Event>, d: Digest) {
    Archive(d) in b.Values || exists e :: e in es && e.Start? && e.d == d
  }

  ghost predicate AllPublished(b: Bucket, es: seq<Event>, n: Net) {
    && (forall k :: k in n.bucket && n.bucket[k].Archive? ==> WasPublished(b, es, n.bucket[k].digest))
    && (forall p :: p in n.publishers ==> WasPublished(b, es, n.publishers[p].d))
  }

  lemma PublishedLater(b: Bucket, es: seq<Event>, e: Event, d: Digest)
    requires WasPublished(b, es, d) || (e.Start? && e.d == d)
    ensures WasPublished(b, es + [e], d)
  {
    assert e in es + [e];
  }

  /** A step puts no database in the bucket but its publisher's, and only Start brings one. */
  lemma StepArchives(n: Net, e: Event)
    requires Do(n, e).Some?
    ensures
      var m := Do(n, e).value;
      && (forall k :: k in m.bucket && m.bucket[k].Archive? ==>
            || (k in n.bucket && n.bucket[k] == m.bucket[k])
            || (e.Upload? && e.p in n.publishers && m.bucket[k].digest == n.publishers[e.p].d))
      && (forall p :: p in m.publishers ==> (p in n.publishers && n.publishers[p].d == m.publishers[p].d)
                                            || (e.Start? && e.d == m.publishers[p].d))
  {
    if IsIndexEvent(e) { IndexFrame(n, e); }
    else if !IsPublisherEvent(e) && !e.Tick? { AnswerFrame(n, e); }
  }

  /** Whatever happens, the databases in the bucket are those that were published. */
  lemma {:induction false} StoredWerePublished(b: Bucket, es: seq<Event>)
    requires Run(Init(b), es).Some?
    ensures AllPublished(b, es, Run(Init(b), es).value)
  {
    hide Do;
    if es == [] {
      forall k | k in b && b[k].Archive? ensures WasPublished(b, es, b[k].digest) {
        assert b[k] in b.Values;
      }
    } else {
      var before, e := es[..|es| - 1], es[|es| - 1];
      assert es == before + [e];
      StoredWerePublished(b, before);
      PublishedStep(b, before, e, Run(Init(b), before).value);
    }
  }

  lemma PublishedStep(b: Bucket, es: seq<Event>, e: Event, n: Net)
    requires AllPublished(b, es, n) && Do(n, e).Some?
    ensures AllPublished(b, es + [e], Do(n, e).value)
  {
    hide Do, WasPublished;
    StepArchives(n, e);
    forall d | WasPublished(b, es, d) || (e.Start? && e.d == d) ensures WasPublished(b, es + [e], d) {
      PublishedLater(b, es, e, d);
    }
  }

  /** A database that is there after some steps is there after more. */
  lemma {:induction false} StaysStored(b: Bucket, es: seq<Event>, i: nat, j: nat, id: string)
    requires Sound(b) && Orderly(b) && i <= j <= |es| && Run(Init(b), es[..i]).Some? && Run(Init(b), es[..j]).Some?
    requires Stored(StateAt(b, es, i).bucket, id)
    ensures Stored(StateAt(b, es, j).bucket, id)
    decreases j - i
  {
    hide Do;
    if i < j {
      assert es[..j][..j - 1] == es[..j - 1];
      StaysStored(b, es, i, j - 1, id);
      InitOk(b);
      RunKeeps(Init(b), es[..j - 1]);
      StepKeeps(StateAt(b, es, j - 1), es[j - 1]);
    }
  }

  // ---- how old an index may be ----

  /** The index in the bucket after i steps was this one. */
  ghost predicate AsOf(b: Bucket, es: seq<Event>, i: nat, versions: seq<Version>) {
    i <= |es| && Run(Init(b), es[..i]).Some? && IndexOf(StateAt(b, es, i).bucket) == versions
  }

  /** Request r read the index from the bucket in step i. */
  ghost predicate ReadAt(b: Bucket, es: seq<Event>, i: nat, r: nat, versions: seq<Version>) {
    i < |es| && (es[i].ListIndex? || es[i].ReadIndex?) && es[i].r == r && AsOf(b, es, i, versions)
  }

  /** A request read the index in step i, and stamped it in step k: that is one load of the index. */
  ghost predicate LoadedBetween(b: Bucket, es: seq<Event>, i: nat, k: nat, versions: seq<Version>) {
    i < k < |es| && es[k].Stamp? && ReadAt(b, es, i, es[k].r, versions) && Run(Init(b), es[..k]).Some?
  }

  /** The step that gives request r an index to work with. */
  predicate Takes(e: Event, r: nat) { (e.UseCache? || e.Stamp?) && e.r == r }

  /** In step j request r took the index of a load that had read it in step i and had ended in step k,
      within a minute. */
  ghost predicate TookRecent(b: Bucket, es: seq<Event>, r: nat, versions: seq<Version>, i: nat, k: nat, j: nat) {
    && LoadedBetween(b, es, i, k, versions) && k <= j < |es| && Run(Init(b), es[..j]).Some? && Takes(es[j], r)
    && StateAt(b, es, j).clock - StateAt(b, es, k).clock < INDEX_CACHE_TTL
  }

  ghost predicate Recent(b: Bucket, es: seq<Event>, r: nat, versions: seq<Version>) {
    exists i, k, j :: TookRecent(b, es, r, versions, i, k, j)
  }

  /** The server's copy is dated by the end of the load it comes from. */
  ghost predicate CopyDated(b: Bucket, es: seq<Event>, c: Cached) {
    exists i, k :: LoadedBetween(b, es, i, k, c.versions) && StateAt(b, es, k).clock == c.at
  }

  lemma Longer(b: Bucket, es: seq<Event>, e: Event)
    ensures forall i :: 0 <= i <= |es| ==> (es + [e])[..i] == es[..i]
  {}

  lemma AsOfLater(b: Bucket, es: seq<Event>, e: Event, i: nat, versions: seq<Version>)
    requires AsOf(b, es, i, versions)
    ensures AsOf(b, es + [e], i, versions) && StateAt(b, es + [e], i) == StateAt(b, es, i)
  {
    hide Run;
    Longer(b, es, e);
  }

  lemma LoadedBetweenLater(b: Bucket, es: seq<Event>, e: Event, i: nat, k: nat, versions: seq<Version>)
    requires LoadedBetween(b, es, i, k, versions)
    ensures LoadedBetween(b, es + [e], i, k, versions) && StateAt(b, es + [e], k) == StateAt(b, es, k)
  {
    hide Run;
    Longer(b, es, e);
  }

  lemma RecentLater(b: Bucket, es: seq<Event>, e: Event, r: nat, versions: seq<Version>)
    requires Recent(b, es, r, versions)
    ensures Recent(b, es + [e], r, versions)
  {
    hide Run;
    var i, k, j :| TookRecent(b, es, r, versions, i, k, j);
    LoadedBetweenLater(b, es, e, i, k, versions);
    Longer(b, es, e);
    assert TookRecent(b, es + [e], r, versions, i, k, j);
  }

  /** A request that is about to stamp its index has read it from the bucket. */
  ghost predicate ReadBefore(b: Bucket, es: seq<Event>, r: nat, versions: seq<Version>) {
    exists i :: ReadAt(b, es, i, r, versions)
  }

  /** What a run's last state knows about the indexes in it. */
  ghost predicate Dated(b: Bucket, es: seq<Event>, n: Net) {
    && (n.cached.Some? ==> CopyDated(b, es, n.cached.value))
    && (forall r :: r in n.requests && n.requests[r].stage.Loaded? ==>
          ReadBefore(b, es, r, n.requests[r].stage.versions))
    && (forall r :: r in n.requests && n.requests[r].stage.Holding? ==> Recent(b, es, r, n.requests[r].stage.versions))
    && (forall k :: 0 <= k < |n.replies| && n.replies[k].1.Versions? ==>
          exists r :: Recent(b, es, r, n.replies[k].1.versions))
  }

  lemma Now(b: Bucket, es: seq<Event>, e: Event, n: Net)
    requires Run(Init(b), es) == Some(n)
    ensures AsOf(b, es + [e], |es|, IndexOf(n.bucket)) && StateAt(b, es + [e], |es|) == n
  {
    hide Run;
    assert (es + [e])[..|es|] == es;
  }

  /** The step stamps what its request has loaded. */
  predicate Stamps(n: Net, e: Event, c: Cached) {
    e.Stamp? && e.r in n.requests && n.requests[e.r].stage == Loaded(c.versions) && c.at == n.clock
  }

  /** What a step may do to the copies of the index: read the bucket's, stamp it, use the server's
      while it is young, or pass one on. */
  ghost predicate PassesOn(n: Net, e: Event, m: Net) {
    && (m.cached == n.cached || (m.cached.Some? && Stamps(n, e, m.cached.value)))
    && (forall r :: r in m.requests && m.requests[r].stage.Loaded? ==>
          || (r in n.requests && n.requests[r] == m.requests[r])
          || ((e.ListIndex? || e.ReadIndex?) && e.r == r && m.requests[r].stage.versions == IndexOf(n.bucket)))
    && (forall r :: r in m.requests && m.requests[r].stage.Holding? ==>
          || (r in n.requests && n.requests[r] == m.requests[r])
          || (e.UseCache? && e.r == r && Fresh(n) && m.requests[r].stage.versions == n.cached.value.versions)
          || (e.Stamp? && e.r == r && Stamps(n, e, Cached(m.requests[r].stage.versions, n.clock))))
    && (m.replies == n.replies
        || exists request, reply :: m.replies == n.replies + [(request, reply)] && Relays(n, e, reply))
  }

  /** A list handed out is one that its request held. */
  predicate Relays(n: Net, e: Event, reply: Reply) {
    reply.Versions? ==> e.Answer? && e.r in n.requests && n.requests[e.r].stage == Holding(reply.versions)
  }

  lemma StepPassesOn(n: Net, e: Event)
    requires Do(n, e).Some?
    ensures PassesOn(n, e, Do(n, e).value)
  {
    if IsPublisherEvent(e) { PublisherFrame(n, e); }
    else if IsIndexEvent(e) { IndexPassesOn(n, e); }
    else if !e.Tick? { AnswerPassesOn(n, e); }
  }

  lemma IndexPassesOn(n: Net, e: Event)
    requires IsIndexEvent(e) && DoIndex(n, e).Some?
    ensures PassesOn(n, e, DoIndex(n, e).value)
  {}

  lemma AnswerPassesOn(n: Net, e: Event)
    requires (e.Answer? || e.Check? || e.Sign?) && DoAnswer(n, e).Some?
    ensures PassesOn(n, e, DoAnswer(n, e).value)
  {}

  /** A load that is stamped now was read before. */
  lemma StampedNow(b: Bucket, es: seq<Event>, e: Event, n: Net, c: Cached) returns (i: nat)
    requires Run(Init(b), es) == Some(n) && Dated(b, es, n) && Stamps(n, e, c)
    ensures LoadedBetween(b, es + [e], i, |es|, c.versions) && StateAt(b, es + [e], |es|).clock == c.at
  {
    hide Run, CopyDated, Recent;
    i :| ReadAt(b, es, i, e.r, c.versions);
    AsOfLater(b, es, e, i, c.versions);
    Now(b, es, e, n);
  }

  lemma CopyLater(b: Bucket, es: seq<Event>, e: Event, n: Net, c: Cached)
    requires Run(Init(b), es) == Some(n) && Dated(b, es, n)
    requires n.cached == Some(c) || Stamps(n, e, c)
    ensures CopyDated(b, es + [e], c)
  {
    hide Run, Recent;
    if n.cached == Some(c) {
      var i, k :| LoadedBetween(b, es, i, k, c.versions) && StateAt(b, es, k).clock == c.at;
      LoadedBetweenLater(b, es, e, i, k, c.versions);
    } else {
      var i := StampedNow(b, es, e, n, c);
    }
  }

  /** What the server's copy gives is within a minute of the end of its load, what a load gives is of
      its very end. */
  lemma TakenNow(b: Bucket, es: seq<Event>, e: Event, n: Net, r: nat, versions: seq<Version>)
    requires Run(Init(b), es) == Some(n) && Dated(b, es, n) && Takes(e, r)
    requires if e.UseCache? then Fresh(n) && versions == n.cached.value.versions
             else Stamps(n, e, Cached(versions, n.clock))
    ensures Recent(b, es + [e], r, versions)
  {
    hide Run, Recent, ReadBefore;
    Now(b, es, e, n);
    if e.UseCache? {
      var i, k :| LoadedBetween(b, es, i, k, versions) && StateAt(b, es, k).clock == n.cached.value.at;
      LoadedBetweenLater(b, es, e, i, k, versions);
      TookMakesRecent(b, es + [e], r, versions, i, k, |es|);
    } else {
      var i := StampedNow(b, es, e, n, Cached(versions, n.clock));
      TookMakesRecent(b, es + [e], r, versions, i, |es|, |es|);
    }
  }

  lemma TookMakesRecent(b: Bucket, es: seq<Event>, r: nat, versions: seq<Version>, i: nat, k: nat, j: nat)
    requires TookRecent(b, es, r, versions, i, k, j)
    ensures Recent(b, es, r, versions)
  {}

  lemma ReadLater(b: Bucket, es: seq<Event>, e: Event, n: Net, r: nat, versions: seq<Version>)
    requires Run(Init(b), es) == Some(n)
    requires ReadBefore(b, es, r, versions)
             || ((e.ListIndex? || e.ReadIndex?) && e.r == r && versions == IndexOf(n.bucket))
    ensures ReadBefore(b, es + [e], r, versions)
  {
    hide Run;
    if ReadBefore(b, es, r, versions) {
      var i :| ReadAt(b, es, i, r, versions);
      AsOfLater(b, es, e, i, versions);
      assert ReadAt(b, es + [e], i, r, versions);
    } else {
      Now(b, es, e, n);
      assert ReadAt(b, es + [e], |es|, r, versions);
    }
  }

  lemma DatedStep(b: Bucket, es: seq<Event>, e: Event, n: Net, m: Net)
    requires Run(Init(b), es) == Some(n) && Dated(b, es, n) && PassesOn(n, e, m)
    ensures Dated(b, es + [e], m)
  {
    hide Run, Recent, CopyDated, ReadBefore;
    if m.cached.Some? {
      CopyLater(b, es, e, n, m.cached.value);
    }
    forall r | r in m.requests && m.requests[r].stage.Loaded?
      ensures ReadBefore(b, es + [e], r, m.requests[r].stage.versions)
    {
      ReadLater(b, es, e, n, r, m.requests[r].stage.versions);
    }
    forall r | r in m.requests && m.requests[r].stage.Holding?
      ensures Recent(b, es + [e], r, m.requests[r].stage.versions)
    {
      if r in n.requests && n.requests[r] == m.requests[r] {
        RecentLater(b, es, e, r, m.requests[r].stage.versions);
      } else {
        TakenNow(b, es, e, n, r, m.requests[r].stage.versions);
      }
    }
    forall k | 0 <= k < |m.replies| && m.replies[k].1.Versions?
      ensures exists r :: Recent(b, es + [e], r, m.replies[k].1.versions)
    {
      var versions := m.replies[k].1.versions;
      if k < |n.replies| {
        assert n.replies[k] == m.replies[k];
        var r :| Recent(b, es, r, versions);
        RecentLater(b, es, e, r, versions);
      } else {
        RecentLater(b, es, e, e.r, versions);
      }
    }
  }

  /** Every index that a request works with, and every list handed out, was read from the bucket by a
      load that ended less than a minute before the request took it. */
  lemma {:induction false} IndexIsRecent(b: Bucket, es: seq<Event>)
    requires Run(Init(b), es).Some?
    ensures Dated(b, es, Run(Init(b), es).value)
  {
    hide Do;
    if es != [] {
      var before, e := es[..|es| - 1], es[|es| - 1];
      var n := Run(Init(b), before).value;
      IndexIsRecent(b, before);
      StepPassesOn(n, e);
      DatedStep(b, before, e, n, Run(Init(b), es).value);
      assert es == before + [e];
    }
  }

  /** One more step. */
  lemma Goes(n: Net, es: seq<Event>, m: Net, e: Event) returns (es': seq<Event>, next: Net)
    requires Run(n, es) == Some(m) && Do(m, e).Some?
    ensures es' == es + [e] && Do(m, e) == Some(next) && Run(n, es') == Some(next)
  {
    es', next := es + [e], Do(m, e).value;
    assert es'[..|es|] == es;
  }

  /** A first request finds no index. */
  lemma LoadsNothing() returns (es: seq<Event>, n: Net)
    ensures Run(Init(map[]), es) == Some(n) && n.bucket == map[] && n.publishers == map[] && n.clock == 0
    ensures n.requests == map[0 := Handling(ListVersions, Loaded([]))] && n.replies == []
  {
    hide Run;
    var start := Init(map[]);
    NoCalls(start);
    es, n := Goes(start, [], start, Arrive(0, ListVersions));
    es, n := Goes(start, es, n, Refetch(0));
    es, n := Goes(start, es, n, ListIndex(0, true));
  }

  /** Before it has stamped that, a first database is published. */
  lemma PublishedDuringLoad(d: Digest, v: Version) returns (es: seq<Event>, n: Net)
    requires v.id == VersionId(d)
    ensures Run(Init(map[]), es) == Some(n) && IndexOf(n.bucket) == [v] && n.clock == 0
    ensures n.requests == map[0 := Handling(ListVersions, Loaded([]))] && n.replies == []
  {
    hide Run;
    var start := Init(map[]);
    es, n := LoadsNothing();
    ObjectKeysDiffer(v.id, "");
    AloneInserted(v);
    hide ObjectKey, Inserted;
    es, n := Goes(start, es, n, Start(0, d, v));
    es, n := Goes(start, es, n, Upload(0, Works));
    es, n := Goes(start, es, n, FindIndex(0, true));
    es, n := Goes(start, es, n, SaveIndex(0, Works));
  }

  /** A request that finds a young copy is told what it says. */
  lemma AnsweredFromCopy(n: Net, es: seq<Event>, m: Net, r: nat, versions: seq<Version>)
      returns (es': seq<Event>, next: Net)
    requires Run(n, es) == Some(m) && r !in m.requests && m.lock == None
             && Fresh(m) && m.cached.value.versions == versions
    ensures es' == es + [Arrive(r, ListVersions)] + [UseCache(r)] + [Answer(r)] && Run(n, es') == Some(next)
    ensures next.replies == m.replies + [(ListVersions, Versions(versions))]
    ensures next.bucket == m.bucket && next.clock == m.clock
  {
    hide Run;
    es', next := Goes(n, es, m, Arrive(r, ListVersions));
    es', next := Goes(n, es', next, UseCache(r));
    es', next := Goes(n, es', next, Answer(r));
  }

  /** That bound is on the load's end, and there is none on the age of what it read: however slow the
      load was, a request that arrives 59 seconds after its end is handed an index that was replaced
      when the load had only begun. */
  lemma ServedIndexCanBeOlder(d: Digest, v: Version, slow: nat)
      returns (before: seq<Event>, after: seq<Event>, m: Net, n: Net)
    requires v.id == VersionId(d)
    ensures Run(Init(map[]), before) == Some(m) && Run(Init(map[]), before + after) == Some(n)
    ensures IndexOf(m.bucket) == [v] && n.bucket == m.bucket && n.clock == m.clock + slow + 59
    ensures |after| == 6 && after[3..] == [Arrive(1, ListVersions), UseCache(1), Answer(1)]
    ensures n.replies == [(ListVersions, Versions([]))]
  {
    hide Run;
    var start := Init(map[]);
    before, m := PublishedDuringLoad(d, v);
    after := [Tick(slow), Stamp(0), Tick(59), Arrive(1, ListVersions), UseCache(1), Answer(1)];
    var es: seq<Event>;
    es, n := Goes(start, before, m, Tick(slow));
    es, n := Goes(start, es, n, Stamp(0));
    es, n := Goes(start, es, n, Tick(59));
    es, n := AnsweredFromCopy(start, es, n, 1, []);
    assert es == before + after;
  }

  // ---- which saved versions the index still has ----

  /** A step that writes the index. */
  ghost predicate Writes(n: Net, e: Event) {
    e.SaveIndex? && e.write != Fails && e.p in n.publishers && n.publishers[e.p].HasLoaded?
  }

  /** Step j of the run writes the index. */
  ghost predicate WritesAt(b: Bucket, es: seq<Event>, j: nat) {
    j < |es| && Run(Init(b), es[..j]).Some? && Writes(StateAt(b, es, j), es[j])
  }

  /** At step i publisher p loaded these versions from the bucket. */
  ghost predicate LoadedAt(b: Bucket, es: seq<Event>, i: nat, p: nat, versions: seq<Version>) {
    i < |es| && (es[i].FindIndex? || es[i].GetIndex?) && es[i].p == p && AsOf(b, es, i, versions)
  }

  /** The publisher that writes at step j loaded what it writes over at step i. */
  ghost predicate WritesOver(b: Bucket, es: seq<Event>, i: nat, j: nat) {
    i < j && WritesAt(b, es, j) && LoadedAt(b, es, i, es[j].p, StateAt(b, es, j).publishers[es[j].p].versions)
  }

  ghost predicate LastWrite(b: Bucket, es: seq<Event>, i: nat, j: nat) {
    WritesOver(b, es, i, j) && forall k :: j < k < |es| ==> !WritesAt(b, es, k)
  }

  /** What a publisher has loaded it loaded at some earlier step. */
  ghost predicate LoadsDated(b: Bucket, es: seq<Event>, n: Net) {
    forall p :: p in n.publishers && n.publishers[p].HasLoaded? ==>
      exists i :: LoadedAt(b, es, i, p, n.publishers[p].versions)
  }

  lemma LoadedLater(b: Bucket, es: seq<Event>, e: Event, i: nat, p: nat, versions: seq<Version>)
    requires LoadedAt(b, es, i, p, versions)
    ensures LoadedAt(b, es + [e], i, p, versions)
  {
    hide Run;
    AsOfLater(b, es, e, i, versions);
  }

  lemma StepLoads(n: Net, e: Event)
    requires Do(n, e).Some?
    ensures
      var m := Do(n, e).value;
      forall p :: p in m.publishers && m.publishers[p].HasLoaded? ==>
        || (p in n.publishers && n.publishers[p] == m.publishers[p])
        || ((e.FindIndex? || e.GetIndex?) && e.p == p && m.publishers[p].versions == IndexOf(n.bucket))
  {
    if IsIndexEvent(e) { IndexFrame(n, e); }
    else if !IsPublisherEvent(e) && !e.Tick? { AnswerFrame(n, e); }
  }

  lemma {:induction false} LoadsAreDated(b: Bucket, es: seq<Event>)
    requires Run(Init(b), es).Some?
    ensures LoadsDated(b, es, Run(Init(b), es).value)
  {
    hide Do;
    if es != [] {
      var before, e := es[..|es| - 1], es[|es| - 1];
      var n, m := Run(Init(b), before).value, Run(Init(b), es).value;
      LoadsAreDated(b, before);
      StepLoads(n, e);
      assert es == before + [e];
      LoadsStep(b, before, e, n, m);
    }
  }

  lemma LoadsStep(b: Bucket, es: seq<Event>, e: Event, n: Net, m: Net)
    requires Run(Init(b), es) == Some(n) && LoadsDated(b, es, n)
    requires forall p :: p in m.publishers && m.publishers[p].HasLoaded? ==>
      || (p in n.publishers && n.publishers[p] == m.publishers[p])
      || ((e.FindIndex? || e.GetIndex?) && e.p == p && m.publishers[p].versions == IndexOf(n.bucket))
    ensures LoadsDated(b, es + [e], m)
  {
    hide Run;
    forall p | p in m.publishers && m.publishers[p].HasLoaded?
      ensures exists i :: LoadedAt(b, es + [e], i, p, m.publishers[p].versions)
    {
      if p in n.publishers && n.publishers[p] == m.publishers[p] {
        var i :| LoadedAt(b, es, i, p, m.publishers[p].versions);
        LoadedLater(b, es, e, i, p, m.publishers[p].versions);
      } else {
        Now(b, es, e, n);
        assert LoadedAt(b, es + [e], |es|, p, m.publishers[p].versions);
      }
    }
  }

  /** A step changes the index exactly when it writes it, and then to what the publisher loaded with
      its own version put in. */
  lemma StepWrites(n: Net, e: Event)
    requires BucketOk(n) && Do(n, e).Some?
    ensures
      var m := Do(n, e).value;
      if Writes(n, e) then IndexOf(m.bucket) == Inserted(n.publishers[e.p].versions, n.publishers[e.p].v)
      else IndexOf(m.bucket) == IndexOf(n.bucket)
  {
    if IsIndexEvent(e) { IndexFrame(n, e); }
    else if !IsPublisherEvent(e) && !e.Tick? { AnswerFrame(n, e); }
    else if e.Upload? { PutKeeps(n.bucket, n.publishers[e.p].d); }
    else if e.SaveIndex? { SaveKeeps(n.bucket, Inserted(n.publishers[e.p].versions, n.publishers[e.p].v)); }
  }

  /** The index is the initial one, or the one the last write put together from what its publisher
      had loaded some steps before. */
  ghost predicate IndexExplained(b: Bucket, es: seq<Event>, n: Net) {
    if forall j :: 0 <= j < |es| ==> !WritesAt(b, es, j) then IndexOf(n.bucket) == IndexOf(b)
    else exists i, j ::
           LastWrite(b, es, i, j)
           && IndexOf(n.bucket) == Inserted(IndexOf(StateAt(b, es, i).bucket), SavedAt(b, es, j))
  }

  ghost function SavedAt(b: Bucket, es: seq<Event>, j: nat): Version
    requires WritesAt(b, es, j)
  {
    StateAt(b, es, j).publishers[es[j].p].v
  }

  lemma WritesLater(b: Bucket, es: seq<Event>, e: Event)
    ensures forall j :: 0 <= j < |es| ==> (WritesAt(b, es + [e], j) <==> WritesAt(b, es, j))
    ensures Run(Init(b), es).Some? ==> (WritesAt(b, es + [e], |es|) <==> Writes(Run(Init(b), es).value, e))
  {
    hide Run, Writes;
    Longer(b, es, e);
    assert (es + [e])[..|es|] == es;
  }

  lemma ExplainedStep(b: Bucket, es: seq<Event>, e: Event, n: Net, m: Net)
    requires Run(Init(b), es) == Some(n) && IndexExplained(b, es, n) && LoadsDated(b, es, n)
    requires if Writes(n, e) then IndexOf(m.bucket) == Inserted(n.publishers[e.p].versions, n.publishers[e.p].v)
             else IndexOf(m.bucket) == IndexOf(n.bucket)
    ensures IndexExplained(b, es + [e], m)
  {
    hide Run, Inserted;
    WritesLater(b, es, e);
    Longer(b, es, e);
    var longer := es + [e];
    if Writes(n, e) {
      var versions := n.publishers[e.p].versions;
      var i :| LoadedAt(b, es, i, e.p, versions);
      LoadedLater(b, es, e, i, e.p, versions);
      Now(b, es, e, n);
      assert LastWrite(b, longer, i, |es|);
    } else if j :| 0 <= j < |es| && WritesAt(b, es, j) {
      var i, k :| LastWrite(b, es, i, k)
        && IndexOf(n.bucket) == Inserted(IndexOf(StateAt(b, es, i).bucket), SavedAt(b, es, k));
      LastWriteLater(b, es, e, i, k);
      assert WritesAt(b, longer, k);
    }
  }

  lemma LastWriteLater(b: Bucket, es: seq<Event>, e: Event, i: nat, k: nat)
    requires LastWrite(b, es, i, k) && !WritesAt(b, es + [e], |es|)
    ensures LastWrite(b, es + [e], i, k)
    ensures StateAt(b, es + [e], i) == StateAt(b, es, i) && SavedAt(b, es + [e], k) == SavedAt(b, es, k)
  {
    hide Run;
    WritesLater(b, es, e);
    Longer(b, es, e);
    LoadedLater(b, es, e, i, es[k].p, StateAt(b, es, k).publishers[es[k].p].versions);
  }

  lemma {:induction false} IndexIsExplained(b: Bucket, es: seq<Event>)
    requires Sound(b) && Orderly(b) && Run(Init(b), es).Some?
    ensures IndexExplained(b, es, Run(Init(b), es).value)
  {
    hide Do;
    if es != [] {
      hide IndexExplained, LoadsDated, Writes;
      var before, e := es[..|es| - 1], es[|es| - 1];
      assert es == before + [e];
      IndexIsExplained(b, before);
      LoadsAreDated(b, before);
      InitOk(b);
      RunKeeps(Init(b), before);
      StepWrites(Run(Init(b), before).value, e);
      ExplainedStep(b, before, e, Run(Init(b), before).value, Run(Init(b), es).value);
    } else {
      NothingWritten(b);
    }
  }

  lemma InitOk(b: Bucket)
    requires Sound(b) && Orderly(b)
    ensures Inv(Init(b))
  {}

  lemma NothingWritten(b: Bucket)
    ensures Run(Init(b), []) == Some(Init(b)) && IndexExplained(b, [], Init(b))
  {}

  /** A version is in the index after a run in which the index was written exactly when the last
      write was of that version, or the version is among the nine newest others of the index as it
      stood when the last writer loaded it: whatever was saved in between is gone. */
  lemma StillIndexed(b: Bucket, es: seq<Event>, id: string)
    requires Sound(b) && Orderly(b) && Run(Init(b), es).Some? && exists j :: WritesAt(b, es, j)
    ensures exists i, j :: LastWrite(b, es, i, j) && (HasId(IndexOf(Run(Init(b), es).value.bucket), id) <==>
              id == SavedAt(b, es, j).id
              || HasId(Newest(Others(IndexOf(StateAt(b, es, i).bucket), SavedAt(b, es, j).id), MAX_VERSIONS - 1), id))
  {
    hide Run, Inserted;
    IndexIsExplained(b, es);
    var i, j :| LastWrite(b, es, i, j)
      && IndexOf(Run(Init(b), es).value.bucket) == Inserted(IndexOf(StateAt(b, es, i).bucket), SavedAt(b, es, j));
    InsertedHas(IndexOf(StateAt(b, es, i).bucket), SavedAt(b, es, j), id);
  }

  /** No publisher in this set writes the index. */
  predicate Spares(es: seq<Event>, stale: set<nat>) {
    forall e :: e in es ==> !(e.SaveIndex? && e.write != Fails && e.p in stale)
  }

  /** How many of these steps may write the index. */
  function WritesAmong(es: seq<Event>): nat {
    if es == [] then 0
    else WritesAmong(es[..|es| - 1]) + (if es[|es| - 1].SaveIndex? && es[|es| - 1].write != Fails then 1 else 0)
  }

  /** The version has at most n others before it, in the index and in every copy that may be
      written back. */
  ghost predicate Ahead(n: Net, id: string, places: nat, stale: set<nat>) {
    && HasId(Newest(IndexOf(n.bucket), places + 1), id)
    && forall p :: p in n.publishers && n.publishers[p].HasLoaded? && p !in stale ==>
         HasId(Newest(n.publishers[p].versions, places + 1), id)
  }

  lemma NewestMore(versions: seq<Version>, n: nat, id: string)
    requires HasId(Newest(versions, n), id)
    ensures HasId(Newest(versions, n + 1), id) && HasId(versions, id)
  {
    var v :| v in Newest(versions, n) && v.id == id;
    assert v in Newest(versions, n + 1) && v in versions;
  }

  lemma AheadStep(n: Net, e: Event, id: string, places: nat, stale: set<nat>)
    requires BucketOk(n) && Do(n, e).Some? && Ahead(n, id, places, stale)
    requires !(e.SaveIndex? && e.write != Fails && e.p in stale)
    requires e.SaveIndex? && e.write != Fails ==> places + 1 < MAX_VERSIONS
    ensures Ahead(Do(n, e).value, id, if e.SaveIndex? && e.write != Fails then places + 1 else places, stale)
  {
    hide Inserted, BucketOk, HasId, Newest;
    var m := Do(n, e).value;
    StepWrites(n, e);
    StepLoads(n, e);
    if e.SaveIndex? && e.write != Fails {
      var p := n.publishers[e.p];
      InsertedMovesBack(p.versions, p.v, id, places + 1);
      forall q | q in m.publishers && m.publishers[q].HasLoaded? && q !in stale
        ensures HasId(Newest(m.publishers[q].versions, places + 2), id)
      {
        NewestMore(m.publishers[q].versions, places + 1, id);
      }
    }
  }

  lemma {:induction false} StaysAhead(n: Net, es: seq<Event>, id: string, stale: set<nat>)
    requires Inv(n) && Run(n, es).Some? && Ahead(n, id, 0, stale) && Spares(es, stale) && WritesAmong(es) < MAX_VERSIONS
    ensures Ahead(Run(n, es).value, id, WritesAmong(es), stale)
  {
    hide Do;
    if es != [] {
      hide Ahead, Inv;
      var before, e := es[..|es| - 1], es[|es| - 1];
      assert Spares(before, stale) by { assert es == before + [e]; }
      StaysAhead(n, before, id, stale);
      RunKeeps(n, before);
      InvBucket(Run(n, before).value);
      assert e in es;
      AheadStep(Run(n, before).value, e, id, WritesAmong(before), stale);
    }
  }

  lemma InvBucket(n: Net)
    requires Inv(n)
    ensures BucketOk(n)
  {}

  /** The newest version stays in the index through the next nine writes, as long as those that had
      loaded the index before it was saved do not write. */
  lemma NewestStaysIndexed(n: Net, es: seq<Event>)
    requires Reachable(n) && Run(n, es).Some? && IndexOf(n.bucket) != [] && WritesAmong(es) < MAX_VERSIONS
    requires Spares(es, set p | p in n.publishers && n.publishers[p].HasLoaded?)
    ensures HasId(IndexOf(Run(n, es).value.bucket), IndexOf(n.bucket)[0].id)
  {
    var id, stale := IndexOf(n.bucket)[0].id, set p | p in n.publishers && n.publishers[p].HasLoaded?;
    ReachableInv(n);
    assert IndexOf(n.bucket)[0] in Newest(IndexOf(n.bucket), 1);
    StaysAhead(n, es, id, stale);
    var m := Run(n, es).value;
    var v :| v in Newest(IndexOf(m.bucket), WritesAmong(es) + 1) && v.id == id;
    assert v in IndexOf(m.bucket);
  }

  /** Two publishers on an empty bucket. */
  ghost function Two(b: Bucket, p: Publisher, q: Publisher): Net {
    Init(b).(publishers := map[0 := p, 1 := q])
  }

  lemma TwoSteps(b: Bucket, c: Bucket, p: Publisher, q: Publisher, next: Publisher)
    ensures Two(b, p, q).(bucket := c, publishers := Two(b, p, q).publishers[0 := next]) == Two(c, next, q)
    ensures Two(b, p, q).(bucket := c, publishers := Two(b, p, q).publishers[1 := next]) == Two(c, p, next)
  {
    assert map[0 := p, 1 := q][0 := next] == map[0 := next, 1 := q];
    assert map[0 := p, 1 := q][1 := next] == map[0 := p, 1 := next];
  }

  /** Both publishers start, and upload. */
  lemma BothUpload(d: Digest, e: Digest, v: Version, w: Version) returns (es: seq<Event>)
    requires v.id == VersionId(d) && w.id == VersionId(e)
    ensures
      var b := map[ObjectKey(v.id) := Archive(d)][ObjectKey(w.id) := Archive(e)];
      Run(Init(map[]), es) == Some(Two(b, HasUploaded(d, v), HasUploaded(e, w)))
  {
    hide Run;
    var n := Init(map[]);
    var b := map[ObjectKey(v.id) := Archive(d)];
    assert Run(n, []) == Some(n) by { NoCalls(n); }
    es := Extends(n, [], n, Start(0, d, v), n.(publishers := map[0 := Ready(d, v)]));
    assert map[0 := Ready(d, v)][1 := Ready(e, w)] == map[0 := Ready(d, v), 1 := Ready(e, w)];
    es := Extends(n, es, n.(publishers := map[0 := Ready(d, v)]), Start(1, e, w), Two(map[], Ready(d, v), Ready(e, w)));
    TwoSteps(map[], b, Ready(d, v), Ready(e, w), HasUploaded(d, v));
    es := Extends(n, es, Two(map[], Ready(d, v), Ready(e, w)), Upload(0, Works),
                  Two(b, HasUploaded(d, v), Ready(e, w)));
    var c := b[ObjectKey(w.id) := Archive(e)];
    TwoSteps(b, c, HasUploaded(d, v), Ready(e, w), HasUploaded(e, w));
    es := Extends(n, es, Two(b, HasUploaded(d, v), Ready(e, w)), Upload(1, Works),
                  Two(c, HasUploaded(d, v), HasUploaded(e, w)));
  }

  lemma NoCalls(n: Net)
    ensures Run(n, []) == Some(n)
  {}

  /** And find no index. */
  lemma BothLoad(d: Digest, e: Digest, v: Version, w: Version, b: Bucket, es: seq<Event>) returns (es': seq<Event>)
    requires INDEX_KEY !in b && Run(Init(map[]), es) == Some(Two(b, HasUploaded(d, v), HasUploaded(e, w)))
    ensures Run(Init(map[]), es') == Some(Two(b, HasLoaded(d, v, []), HasLoaded(e, w, [])))
  {
    hide Run;
    var n := Init(map[]);
    TwoSteps(b, b, HasUploaded(d, v), HasUploaded(e, w), HasLoaded(d, v, []));
    es' := Extends(n, es, Two(b, HasUploaded(d, v), HasUploaded(e, w)), FindIndex(0, true),
                   Two(b, HasLoaded(d, v, []), HasUploaded(e, w)));
    TwoSteps(b, b, HasLoaded(d, v, []), HasUploaded(e, w), HasLoaded(e, w, []));
    es' := Extends(n, es', Two(b, HasLoaded(d, v, []), HasUploaded(e, w)), FindIndex(1, true),
                   Two(b, HasLoaded(d, v, []), HasLoaded(e, w, [])));
  }

  /** Writes over what was loaded before another write do lose that one: two publishers both report
      success, both databases are there, and the index has only the second. */
  lemma SavedCanBeLost(d: Digest, e: Digest, createdAt: int) returns (es: seq<Event>, n: Net)
    requires d != e
    ensures |es| >= 2 && es[|es| - 2..] == [SaveIndex(0, Works), SaveIndex(1, Works)] && Run(Init(map[]), es) == Some(n)
    ensures Stored(n.bucket, VersionId(d)) && Stored(n.bucket, VersionId(e))
    ensures HasId(IndexOf(n.bucket), VersionId(e)) && !HasId(IndexOf(n.bucket), VersionId(d))
  {
    var v, w := Version(VersionId(d), Some(createdAt), "", ""), Version(VersionId(e), Some(createdAt), "", "");
    var b: Bucket := map[ObjectKey(v.id) := Archive(d)][ObjectKey(w.id) := Archive(e)];
    VersionIdsDiffer(d, e);
    ObjectKeysDiffer(v.id, w.id);
    ObjectKeysDiffer(w.id, v.id);
    es := BothUpload(d, e, v, w);
    es := BothLoad(d, e, v, w, b, es);
    var c := b[INDEX_KEY := Index([v])];
    es, n := BothSave(d, e, v, w, b, es);
    SaveKeeps(c, [w]);
    assert w in IndexOf(n.bucket);
  }

  lemma BothSave(d: Digest, e: Digest, v: Version, w: Version, b: Bucket, es: seq<Event>)
      returns (es': seq<Event>, n: Net)
    requires Run(Init(map[]), es) == Some(Two(b, HasLoaded(d, v, []), HasLoaded(e, w, [])))
    ensures es' == es + [SaveIndex(0, Works)] + [SaveIndex(1, Works)] && Run(Init(map[]), es') == Some(n)
    ensures n.bucket == b[INDEX_KEY := Index([v])][INDEX_KEY := Index([w])]
  {
    hide Run;
    var both := Two(b, HasLoaded(d, v, []), HasLoaded(e, w, []));
    AloneInserted(v);
    AloneInserted(w);
    var one := both.(bucket := b[INDEX_KEY := Index([v])], publishers := both.publishers - {0});
    ExtendsBy(Init(map[]), es, both, SaveIndex(0, Works), one);
    assert 1 in one.publishers && one.publishers[1] == HasLoaded(e, w, []);
    n := one.(bucket := one.bucket[INDEX_KEY := Index([w])], publishers := one.publishers - {1});
    es' := es + [SaveIndex(0, Works)];
    ExtendsBy(Init(map[]), es', one, SaveIndex(1, Works), n);
    es' := es' + [SaveIndex(1, Works)];
  }

  lemma AloneInserted(v: Version)
    ensures Inserted([], v) == [v]
  {}

  lemma ExtendsBy(n: Net, es: seq<Event>, m: Net, e: Event, next: Net)
    requires Run(n, es) == Some(m) && Do(m, e) == Some(next)
    ensures Run(n, es + [e]) == Some(next)
  {
    assert (es + [e])[..|es|] == es;
  }

  // ---- the code ----

  /** Publisher p at a position of its own. */
  function With(n: Net, p: nat, publisher: Publisher): Net {
    n.(publishers := n.publishers[p := publisher])
  }

  lemma WithMoves(n: Net, p: nat, a: Publisher, b: Publisher)
    ensures With(With(n, p, a), p, b) == With(n, p, b)
    ensures p !in n.publishers ==> Gone(With(n, p, a), p) == n
  {
    assert With(With(n, p, a), p, b).publishers == With(n, p, b).publishers;
    if p !in n.publishers {
      assert Gone(With(n, p, a), p).publishers == n.publishers;
    }
  }

  lemma Extends(n: Net, es: seq<Event>, m: Net, e: Event, next: Net) returns (es': seq<Event>)
    requires Run(n, es) == Some(m) && Do(m, e) == Some(next)
    ensures Run(n, es') == Some(next)
  {
    es' := es + [e];
    assert es'[..|es|] == es;
  }

  /** One publication of the code, however its calls fare, is a run of the protocol. */
  lemma PublishIsRun(n: Net, p: nat, a: Attempt) returns (es: seq<Event>)
    requires p !in n.publishers && Honest(Uploaded(n.bucket, a), INDEX_KEY, a.listing)
    ensures Run(n, es) == Some(n.(bucket := AfterPublish(n.bucket, a)))
  {
    var ready, done := Ready(a.digest, a.Version()), HasUploaded(a.digest, a.Version());
    var m := n.(bucket := Uploaded(n.bucket, a));
    es := Extends(n, [], n, Start(p, a.digest, a.Version()), With(n, p, ready));
    WithMoves(m, p, ready, done);
    es := Extends(n, es, With(n, p, ready), Upload(p, a.put), if a.put == Works then With(m, p, done) else m);
    if a.put == Works {
      es := Indexes(n, es, m, p, a);
    }
  }

  /** From the upload on. */
  lemma Indexes(n: Net, es: seq<Event>, m: Net, p: nat, a: Attempt) returns (es': seq<Event>)
    requires p !in m.publishers && Run(n, es) == Some(With(m, p, HasUploaded(a.digest, a.Version())))
    requires Honest(m.bucket, INDEX_KEY, a.listing) && m.bucket == Uploaded(n.bucket, a) && a.put == Works
    ensures Run(n, es') == Some(m.(bucket := AfterPublish(n.bucket, a)))
  {
    var done := HasUploaded(a.digest, a.Version());
    var listed := Scanned(a.listing, INDEX_KEY).Some?;
    var next := if INDEX_KEY in m.bucket then SawIndex(a.digest, a.Version()) else HasLoaded(a.digest, a.Version(), []);
    ExistsTellsTheTruth(m.bucket, INDEX_KEY, a.listing);
    WithMoves(m, p, done, next);
    es' := Extends(n, es, With(m, p, done), FindIndex(p, listed), if listed then With(m, p, next) else m);
    if listed && INDEX_KEY in m.bucket {
      es' := Gets(n, es', m, p, a);
    } else if listed {
      es' := Saves(n, es', m, p, a, []);
    }
  }

  lemma Gets(n: Net, es: seq<Event>, m: Net, p: nat, a: Attempt) returns (es': seq<Event>)
    requires p !in m.publishers && Run(n, es) == Some(With(m, p, SawIndex(a.digest, a.Version())))
    requires Scanned(a.listing, INDEX_KEY) == Some(true) && INDEX_KEY in m.bucket
    requires m.bucket == Uploaded(n.bucket, a) && a.put == Works
    ensures Run(n, es') == Some(m.(bucket := AfterPublish(n.bucket, a)))
  {
    var saw := SawIndex(a.digest, a.Version());
    if a.got && m.bucket[INDEX_KEY].Index? {
      var versions := m.bucket[INDEX_KEY].versions;
      var next := HasLoaded(a.digest, a.Version(), versions);
      WithMoves(m, p, saw, next);
      es' := Extends(n, es, With(m, p, saw), GetIndex(p, true), With(m, p, next));
      es' := Saves(n, es', m, p, a, versions);
    } else {
      WithMoves(m, p, saw, saw);
      es' := Extends(n, es, With(m, p, saw), GetIndex(p, a.got), m);
    }
  }

  lemma Saves(n: Net, es: seq<Event>, m: Net, p: nat, a: Attempt, versions: seq<Version>) returns (es': seq<Event>)
    requires p !in m.publishers && Run(n, es) == Some(With(m, p, HasLoaded(a.digest, a.Version(), versions)))
    requires m.bucket == Uploaded(n.bucket, a) && a.put == Works && Load(m.bucket, a.listing, a.got) == Some(versions)
    ensures Run(n, es') == Some(m.(bucket := AfterPublish(n.bucket, a)))
  {
    var loaded := HasLoaded(a.digest, a.Version(), versions);
    var after := m.(bucket := AfterPublish(n.bucket, a));
    WithMoves(after, p, loaded, loaded);
    es' := Extends(n, es, With(m, p, loaded), SaveIndex(p, a.save), after);
  }
}
