/** The bucket of published databases and one publication into it (internal/dbstore/store.go,
    internal/dbstore/keys.go, cmd/publish-database/main.go). */
module Buckets {
  import opened Prefixes
  import opened VersionIds
  import opened VersionIndexes

  const DATABASE_PREFIX := "databases/"
  const DATABASE_SUFFIX := ".mmdb.zst"
  const INDEX_KEY := "versions.pb.gz"

  function ObjectKey(id: string): string { DATABASE_PREFIX + id + DATABASE_SUFFIX }

  lemma ObjectKeysDiffer(a: string, b: string)
    ensures ObjectKey(a) == "databases/" + a + ".mmdb.zst"
    ensures ObjectKey(a) == ObjectKey(b) <==> a == b
    ensures ObjectKey(a) != INDEX_KEY
  {
    assert ObjectKey(a)[10..|ObjectKey(a)| - 9] == a;
    assert ObjectKey(b)[10..|ObjectKey(b)| - 9] == b;
    assert ObjectKey(a)[0] == 'd' && INDEX_KEY[0] == 'v';
  }

  /** A compressed database, known by its digest; an encoded index; or something that is neither. */
  datatype Object = Archive(digest: Digest) | Index(versions: seq<Version>) | Junk

  type Bucket = map<string, Object>

  /** The database of this version is where the version says it is. */
  predicate Stored(b: Bucket, id: string) {
    ObjectKey(id) in b && b[ObjectKey(id)].Archive? && VersionId(b[ObjectKey(id)].digest) == id
  }

  ghost predicate AllStored(b: Bucket, versions: seq<Version>) {
    forall v :: v in versions ==> Stored(b, v.id)
  }

  predicate Readable(b: Bucket) { INDEX_KEY in b ==> b[INDEX_KEY].Index? }

  function IndexOf(b: Bucket): seq<Version> {
    if INDEX_KEY in b && b[INDEX_KEY].Index? then b[INDEX_KEY].versions else []
  }

  /** Every version in the index has its database in the bucket. */
  ghost predicate Sound(b: Bucket) { AllStored(b, IndexOf(b)) }

  /** Whatever database was there is still there. */
  ghost predicate Keeps(b: Bucket, c: Bucket) {
    forall id :: Stored(b, id) ==> Stored(c, id)
  }

  lemma PutKeeps(b: Bucket, d: Digest)
    ensures
      var c := b[ObjectKey(VersionId(d)) := Archive(d)];
      Keeps(b, c) && Stored(c, VersionId(d)) && IndexOf(c) == IndexOf(b) && (Readable(c) <==> Readable(b))
  {
    var c := b[ObjectKey(VersionId(d)) := Archive(d)];
    ObjectKeysDiffer(VersionId(d), "");
    forall id | Stored(b, id) ensures Stored(c, id) {
      ObjectKeysDiffer(id, VersionId(d));
    }
  }

  lemma SaveKeeps(b: Bucket, versions: seq<Version>)
    ensures
      var c := b[INDEX_KEY := Index(versions)];
      Keeps(b, c) && IndexOf(c) == versions && Readable(c)
  {
    var c := b[INDEX_KEY := Index(versions)];
    forall id | Stored(b, id) ensures Stored(c, id) {
      ObjectKeysDiffer(id, "");
    }
  }

  /** An insertion adds no version but its own. */
  lemma InsertedStored(b: Bucket, versions: seq<Version>, v: Version)
    requires AllStored(b, versions) && Stored(b, v.id)
    ensures AllStored(b, Inserted(versions, v))
  {
    forall u | u in Inserted(versions, v) ensures Stored(b, u.id) {
      assert u in [v] + Others(versions, v.id);
      OthersAre(versions, v.id, u);
    }
  }

  // ---- listing ----

  /** What listing by prefix may yield: keys that are there, among them every one with the prefix
      unless an error, None, comes first. */
  ghost predicate Honest(b: Bucket, prefix: string, listing: seq<Option<string>>) {
    && (forall k: string :: Some(k) in listing ==> k in b)
    && (None !in listing ==> forall k :: k in b && prefix <= k ==> Some(k) in listing)
  }

  /** Whether the key turns up before an error does. */
  function Scanned(listing: seq<Option<string>>, key: string): Option<bool> {
    if listing == [] then Some(false)
    else if listing[0] == None then None
    else if listing[0] == Some(key) then Some(true)
    else Scanned(listing[1..], key)
  }

  lemma {:induction false} ScannedFinds(listing: seq<Option<string>>, key: string)
    ensures Scanned(listing, key) == Some(true) ==> Some(key) in listing
    ensures Scanned(listing, key) == Some(false) ==> Some(key) !in listing && None !in listing
    ensures Scanned(listing, key) == None ==> None in listing
  {
    if listing != [] && listing[0].Some? && listing[0] != Some(key) {
      ScannedFinds(listing[1..], key);
      assert listing == [listing[0]] + listing[1..];
    }
  }

  /** Exists never mistakes an error for absence, nor a longer key for this one. */
  lemma ExistsTellsTheTruth(b: Bucket, key: string, listing: seq<Option<string>>)
    requires Honest(b, key, listing)
    ensures Scanned(listing, key) == None || Scanned(listing, key) == Some(key in b)
    ensures None !in listing ==> Scanned(listing, key) == Some(key in b)
  {
    ScannedFinds(listing, key);
    match Scanned(listing, key)
    case None => assert None in listing;
    case Some(true) => assert Some(key) in listing; assert key in b;
    case Some(false) => assert None !in listing && Some(key) !in listing;
      assert key !in b;
  }

  /** Loading the index: empty when there is none, an error when it cannot be listed, got or read. */
  function Load(b: Bucket, listing: seq<Option<string>>, got: bool): Option<seq<Version>> {
    match Scanned(listing, INDEX_KEY)
    case None => None
    case Some(false) => Some([])
    case Some(true) => if got && INDEX_KEY in b && b[INDEX_KEY].Index? then Some(b[INDEX_KEY].versions) else None
  }

  /** A loaded index is the one in the bucket: no failure passes for an empty index. */
  lemma LoadIsIndex(b: Bucket, listing: seq<Option<string>>, got: bool)
    requires Honest(b, INDEX_KEY, listing)
    ensures Load(b, listing, got).Some? ==> Load(b, listing, got).value == IndexOf(b) && Readable(b)
    ensures None !in listing && got && Readable(b) ==> Load(b, listing, got).Some?
  {
    ExistsTellsTheTruth(b, INDEX_KEY, listing);
  }

  // ---- one publication ----

  /** A write that works, one that does not, and one that works but is reported to have failed. */
  datatype Write = Works | Fails | Unsure

  /** A publication, and how each of its calls fares. */
  datatype Attempt = Attempt(
    digest: Digest, createdAt: int, shasum: string, message: string,
    put: Write, listing: seq<Option<string>>, got: bool, save: Write
  ) {
    function Version(): Version { VersionIndexes.Version.Version(VersionId(digest), Some(createdAt), shasum, message) }

    function Key(): string { ObjectKey(VersionId(digest)) }
  }

  function Uploaded(b: Bucket, a: Attempt): Bucket {
    if a.put == Fails then b else b[a.Key() := Archive(a.digest)]
  }

  /** Whether the attempt gets as far as writing the index, and that write takes effect. */
  predicate Records(b: Bucket, a: Attempt) {
    a.put == Works && Load(Uploaded(b, a), a.listing, a.got).Some? && a.save != Fails
  }

  predicate Succeeds(b: Bucket, a: Attempt) { Records(b, a) && a.save == Works }

  function AfterPublish(b: Bucket, a: Attempt): Bucket {
    var c := Uploaded(b, a);
    if Records(b, a) then c[INDEX_KEY := Index(Inserted(Load(c, a.listing, a.got).value, a.Version()))] else c
  }

  /** Whichever call fails, the index names only databases that are there, no database is lost, and
      the index either is as before or has this version put in. */
  lemma PublishKeepsSound(b: Bucket, a: Attempt)
    requires Sound(b) && Honest(Uploaded(b, a), INDEX_KEY, a.listing)
    ensures
      var c := AfterPublish(b, a);
      && Sound(c) && Keeps(b, c)
      && IndexOf(c) == (if Records(b, a) then Inserted(IndexOf(b), a.Version()) else IndexOf(b))
      && (Records(b, a) ==> Stored(c, VersionId(a.digest)))
  {
    PutKeeps(b, a.digest);
    var c := Uploaded(b, a);
    assert AllStored(c, IndexOf(c));
    LoadIsIndex(c, a.listing, a.got);
    if Records(b, a) {
      var versions := Inserted(IndexOf(c), a.Version());
      InsertedStored(c, IndexOf(c), a.Version());
      SaveKeeps(c, versions);
    }
  }

  // ---- a series of publications ----

  function AfterAll(b: Bucket, attempts: seq<Attempt>): Bucket {
    if attempts == [] then b else AfterPublish(AfterAll(b, attempts[..|attempts| - 1]), attempts[|attempts| - 1])
  }

  /** The versions whose attempts reached the index, oldest first. */
  function Recorded(b: Bucket, attempts: seq<Attempt>): seq<Version> {
    if attempts == [] then []
    else
      var before, a := attempts[..|attempts| - 1], attempts[|attempts| - 1];
      if Records(AfterAll(b, before), a) then Recorded(b, before) + [a.Version()] else Recorded(b, before)
  }

  ghost predicate AllHonest(b: Bucket, attempts: seq<Attempt>) {
    forall k :: 0 <= k < |attempts| ==>
      Honest(Uploaded(AfterAll(b, attempts[..k]), attempts[k]), INDEX_KEY, attempts[k].listing)
  }

  lemma IndexSnoc(history: seq<Version>, v: Version)
    ensures IndexAfter(history + [v]) == Inserted(IndexAfter(history), v)
  {
    assert (history + [v])[..|history|] == history;
  }

  lemma HonestBefore(b: Bucket, attempts: seq<Attempt>)
    requires attempts != [] && AllHonest(b, attempts)
    ensures AllHonest(b, attempts[..|attempts| - 1])
    ensures
      var last := attempts[|attempts| - 1];
      Honest(Uploaded(AfterAll(b, attempts[..|attempts| - 1]), last), INDEX_KEY, last.listing)
  {
    var before := attempts[..|attempts| - 1];
    forall k | 0 <= k < |before|
      ensures Honest(Uploaded(AfterAll(b, before[..k]), before[k]), INDEX_KEY, before[k].listing)
    {
      assert before[..k] == attempts[..k];
    }
  }

  /** After any series of publications by one publisher, each going through or failing at any call,
      the index is the one that the recorded versions alone give. */
  lemma {:induction false} IndexAfterSeries(b: Bucket, history: seq<Version>, attempts: seq<Attempt>)
    requires Sound(b) && IndexOf(b) == IndexAfter(history) && AllHonest(b, attempts)
    ensures Sound(AfterAll(b, attempts)) && Keeps(b, AfterAll(b, attempts))
    ensures IndexOf(AfterAll(b, attempts)) == IndexAfter(history + Recorded(b, attempts))
  {
    hide AfterPublish, Records, Sound, IndexOf, Inserted, Honest;
    if attempts == [] {
      assert history + Recorded(b, attempts) == history;
    } else {
      var before, a := attempts[..|attempts| - 1], attempts[|attempts| - 1];
      HonestBefore(b, attempts);
      IndexAfterSeries(b, history, before);
      var c := AfterAll(b, before);
      PublishKeepsSound(c, a);
      assert Keeps(b, AfterPublish(c, a));
      if Records(c, a) {
        IndexSnoc(history + Recorded(b, before), a.Version());
        assert history + Recorded(b, attempts) == history + Recorded(b, before) + [a.Version()];
      }
    }
  }

  /** Begun on a bucket without an index, that is the ten most recently published versions, newest
      first, each with its latest metadata. */
  lemma SeriesKeepsTenLatest(b: Bucket, attempts: seq<Attempt>)
    requires IndexOf(b) == [] && AllHonest(b, attempts)
    ensures
      var history := Recorded(b, attempts);
      IndexOf(AfterAll(b, attempts)) == Trim(At(history, LatestPositions(history, |history|)))
  {
    IndexAfterSeries(b, [], attempts);
    assert [] + Recorded(b, attempts) == Recorded(b, attempts);
    IndexIsTenLatest(Recorded(b, attempts));
  }

  // ---- the code ----

  class Store {
    var objects: Bucket

    constructor (objects: Bucket)
      ensures this.objects == objects
    {
      this.objects := objects;
    }

    /** Whether the key is there: only an exact match counts, and an error is no answer. */
    method Exists(key: string, listing: seq<Option<string>>) returns (r: Option<bool>)
      requires Honest(objects, key, listing)
      ensures r == Scanned(listing, key)
      ensures r == None || r == Some(key in objects)
      ensures None !in listing ==> r.Some?
    {
      ExistsTellsTheTruth(objects, key, listing);
      for i := 0 to |listing|
        invariant Scanned(listing, key) == Scanned(listing[i..], key)
      {
        assert listing[i..][1..] == listing[i + 1..];
        if listing[i] == None {
          return None;
        }
        if listing[i] == Some(key) {
          return Some(true);
        }
      }
      r := Some(false);
    }

    /** The index in the bucket, empty when there is none yet. */
    method LoadIndex(listing: seq<Option<string>>, got: bool) returns (r: Option<seq<Version>>)
      requires Honest(objects, INDEX_KEY, listing)
      ensures r == Load(objects, listing, got)
      ensures r.Some? ==> r.value == IndexOf(objects)
    {
      LoadIsIndex(objects, listing, got);
      var present := Exists(INDEX_KEY, listing);
      if present == None {
        return None;
      }
      if present == Some(false) {
        return Some([]);
      }
      if !got || !objects[INDEX_KEY].Index? {
        return None;
      }
      return Some(objects[INDEX_KEY].versions);
    }

    method Put(key: string, content: Object, write: Write) returns (ok: bool)
      modifies this
      ensures objects == if write == Fails then old(objects) else old(objects)[key := content]
      ensures ok <==> write == Works
    {
      if write != Fails {
        objects := objects[key := content];
      }
      ok := write == Works;
    }

    /** publish-database: upload, then load the index, insert, and save it. */
    method Publish(a: Attempt) returns (ok: bool)
      requires Sound(objects) && Honest(Uploaded(objects, a), INDEX_KEY, a.listing)
      modifies this
      ensures objects == AfterPublish(old(objects), a) && (ok <==> Succeeds(old(objects), a))
      ensures Sound(objects) && Keeps(old(objects), objects)
      ensures ok ==>
                Stored(objects, VersionId(a.digest)) && IndexOf(objects) == Inserted(IndexOf(old(objects)), a.Version())
    {
      PublishKeepsSound(objects, a);
      var id := VersionId(a.digest);
      var key := ObjectKey(id);
      var put := Put(key, Archive(a.digest), a.put);
      if !put {
        return false;
      }
      var index := LoadIndex(a.listing, a.got);
      if index == None {
        return false;
      }
      var kept, _ := InsertVersion(index.value, Version(id, Some(a.createdAt), a.shasum, a.message));
      ok := Put(INDEX_KEY, Index(kept), a.save);
    }
  }
}
