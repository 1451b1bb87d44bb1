/** From the lists to a response: what the server and the Caddy matcher say of an address, in terms
    of who lists it. */
module EndToEnd {
  import opened Prefixes
  import opened Categories
  import opened Ordering
  import opened Records
  import opened Stores
  import opened Selections
  import opened Builds
  import opened SearchTrees
  import VersionIds
  import VersionIndexes
  import Buckets
  import Publishing
  import FetchServers
  import MappedProtocol
  import CacheRuns
  import Queries

  /** A mapped file returns for the address what the tree it was written from does. */
  ghost predicate WrittenFrom(content: MappedProtocol.Content, special: Networks, log: Log, a: Addr) {
    content.Mmdb? &&
    match LookupAt(special, log, a)
    case None => a !in content.records
    case Some(r) => a in content.records && content.records[a] == MappedProtocol.Good(r)
  }

  /** What the record in a response may say of an address with these memberships. */
  ghost predicate Tells(w: Queries.WireRecord, listed: set<ListMembership>) {
    && (forall name :: name in w.categories <==> Known(name) && exists m :: m in listed && Has(m.category, Bit(name)))
    && (w.isVpn <==> exists m :: m in listed && Has(m.category, Bit(VPN)))
    && (w.isDatacenter <==> exists m :: m in listed && Has(m.category, Bit(DATACENTER)))
    && (w.isCrawler <==> exists m :: m in listed && Has(m.category, Bit(CRAWLER)))
    && (w.isProxy <==> exists m :: m in listed && Has(m.category, Bit(PROXY)))
    && Elems(w.providers) == ProvidersAmong(listed)
    && exists order :: SourcesAre(w.sources, order, listed)
  }

  /** The sources say these memberships one by one, each once, in key order. */
  ghost predicate SourcesAre(sources: seq<Queries.WireMembership>, order: seq<ListMembership>,
                             listed: set<ListMembership>)
  {
    && NoDup(order) && Elems(order) == listed && Sorted(order, MembershipLe)
    && |sources| == |order| && forall i :: 0 <= i < |order| ==> Queries.Says(sources[i], order[i])
  }

  ghost function ProvidersAmong(listed: set<ListMembership>): set<string> { set m | m in listed :: m.provider }

  /** The record says of the address what the selected sources list for it. */
  ghost predicate TellsSources(record: Queries.WireRecord, cs: CategorySet, w: World, special: Networks, a: Addr)
    requires w.Valid()
  {
    exists listed :: Tells(record, listed) && forall m :: m in listed <==> ListedBySource(cs, w, special, a, m)
  }

  /** A record of a response says of an address exactly what the selected sources list for it. */
  lemma ResponseTellsTheLists(cs: CategorySet, w: World, special: Networks, log: Log, content: MappedProtocol.Content,
                              a: Addr, record: Queries.WireRecord, spelling: string)
    requires AnswersAll(log, cs, w, special) && Readable(cs, w) && WrittenFrom(content, special, log, a)
    requires Queries.Shows(record, spelling, content, a)
    ensures record.ipAddress == spelling && TellsSources(record, cs, w, special, a)
  {
    ListedAreSources(cs, w, special, a);
    var listed := ListedAt(special, BuildFacts(cs, w), a);
    assert Answers(LookupAt(special, log, a), listed);
    hide ListedBySource, BuildFacts, Readable, Tells, AnswersAll, LookupAt, ListedAt;
    var result := if a in content.records then content.records[a].result else Queries.NOTHING;
    assert Answers(if listed == {} then None else Some(result), listed);
    ResultTells(result, listed, record, spelling);
  }

  lemma ResultTells(result: Result, listed: set<ListMembership>, record: Queries.WireRecord, spelling: string)
    requires Answers(if listed == {} then None else Some(result), listed)
             && (listed == {} ==> result == Queries.NOTHING)
    requires Queries.Renders(record, spelling, result)
    ensures Tells(record, listed)
  {
    ResultListed(result, listed);
    hide Answers, SourcesAre;
    FlagsTell(result, listed, record, spelling);
    SourcesTell(result, listed, record, spelling);
  }

  lemma ResultListed(result: Result, listed: set<ListMembership>)
    requires Answers(if listed == {} then None else Some(result), listed)
             && (listed == {} ==> result == Queries.NOTHING)
    ensures NoDup(result.sources) && Elems(result.sources) == listed && Sorted(result.sources, MembershipLe)
    ensures forall kind :: Has(result.categories, kind) <==> exists m :: m in listed && Has(m.category, kind)
  {}

  lemma FlagsTell(result: Result, listed: set<ListMembership>, record: Queries.WireRecord, spelling: string)
    requires forall kind :: Has(result.categories, kind) <==> exists m :: m in listed && Has(m.category, kind)
    requires Queries.Renders(record, spelling, result)
    ensures forall name :: name in record.categories <==>
              Known(name) && exists m :: m in listed && Has(m.category, Bit(name))
    ensures record.isVpn <==> exists m :: m in listed && Has(m.category, Bit(VPN))
    ensures record.isDatacenter <==> exists m :: m in listed && Has(m.category, Bit(DATACENTER))
    ensures record.isCrawler <==> exists m :: m in listed && Has(m.category, Bit(CRAWLER))
    ensures record.isProxy <==> exists m :: m in listed && Has(m.category, Bit(PROXY))
  {
    hide Has, Bit, Queries.Says;
    forall name
      ensures name in record.categories <==> Known(name) && exists m :: m in listed && Has(m.category, Bit(name))
    {
      NamesAreSetBits(result.categories, name);
    }
  }

  lemma SourcesTell(result: Result, listed: set<ListMembership>, record: Queries.WireRecord, spelling: string)
    requires NoDup(result.sources) && Elems(result.sources) == listed && Sorted(result.sources, MembershipLe)
    requires Queries.Renders(record, spelling, result)
    ensures Elems(record.providers) == ProvidersAmong(listed)
    ensures SourcesAre(record.sources, result.sources, listed)
  {
    forall m ensures m in result.sources <==> m in listed { assert m in Elems(result.sources) <==> m in listed; }
    assert Providers(result.sources) == ProvidersAmong(listed);
  }

  /** What a mapped file was made from: the sources as they stood, and the tree written from them. */
  datatype Origin = Origin(world: World, log: Log)

  /** The file answers like a tree as SearchTrees.Run leaves it. */
  ghost predicate MadeBy(content: MappedProtocol.Content, o: Origin, cs: CategorySet, special: Networks) {
    && AnswersAll(o.log, cs, o.world, special) && Readable(cs, o.world)
    && forall a :: WrittenFrom(content, special, o.log, a)
  }

  /** Every record tells of its address what the sources of this world list. */
  ghost predicate TellAll(records: seq<Queries.WireRecord>, parse: Queries.Parser, raw: seq<string>, cs: CategorySet,
                          w: World, special: Networks)
    requires Queries.AllParse(parse, raw) && w.Valid()
  {
    var ps := Queries.FirstPositions(parse, raw, |raw|);
    && |records| == |ps|
    && forall k :: 0 <= k < |records| ==> TellsOne(records[k], parse, raw[ps[k]], cs, w, special)
  }

  ghost predicate TellsOne(record: Queries.WireRecord, parse: Queries.Parser, spelling: string,
                           cs: CategorySet, w: World, special: Networks)
    requires parse(spelling).Some? && w.Valid()
  {
    var a := Queries.AddressOf(parse, spelling);
    record.ipAddress == spelling && TellsSources(record, cs, w, special, a)
  }

  lemma AnswersTell(records: seq<Queries.WireRecord>, parse: Queries.Parser, raw: seq<string>,
                    content: MappedProtocol.Content, o: Origin, cs: CategorySet, special: Networks)
    requires Queries.AllParse(parse, raw) && MadeBy(content, o, cs, special)
    requires Queries.AnswersFrom(parse, raw, content, records)
    ensures o.world.Valid() && TellAll(records, parse, raw, cs, o.world, special)
  {
    hide TellsSources, Answers, Readable;
    forall k | 0 <= k < |records|
      ensures TellsOne(records[k], parse, raw[Queries.FirstPositions(parse, raw, |raw|)[k]], cs, o.world, special)
    {
      assert Queries.AnswersOne(parse, raw, content, records[k], k);
      var spelling := raw[Queries.FirstPositions(parse, raw, |raw|)[k]];
      var a := Queries.AddressOf(parse, spelling);
      assert WrittenFrom(content, special, o.log, a);
      ResponseTellsTheLists(cs, o.world, special, o.log, content, a, records[k], spelling);
    }
  }

  // ---- from the bucket to a response ----

  /** At step i this was reported to be the bucket's newest build. */
  ghost predicate ReportedAt(b: Buckets.Bucket, ps: seq<Publishing.Event>, i: nat, build: MappedProtocol.Build,
                             listing: seq<Option<string>>, got: bool)
  {
    && i <= |ps| && Publishing.Run(Publishing.Init(b), ps[..i]).Some?
    && var bucket := Publishing.StateAt(b, ps, i).bucket;
       Buckets.Honest(bucket, Buckets.INDEX_KEY, listing)
       && FetchServers.Current(Buckets.Load(bucket, listing, got)) ==
          Some(FetchServers.Newest(build.version, Buckets.ObjectKey(build.version), build.createdAt))
  }

  ghost predicate Reported(b: Buckets.Bucket, ps: seq<Publishing.Event>, build: MappedProtocol.Build) {
    exists i: nat, listing, got :: ReportedAt(b, ps, i, build, listing, got)
  }

  /** The mapping goes by the date that the index had for its version, or else the file's own. */
  ghost predicate DatedAsReported(b: Buckets.Bucket, ps: seq<Publishing.Event>, m: MappedProtocol.Mapping) {
    exists createdAt ::
      Reported(b, ps, MappedProtocol.Build(m.version, createdAt))
      && MappedProtocol.DatedBy(m, createdAt)
  }

  /** At step j this was read, in full, from the version's key; what is not a database reads as
      anything. */
  ghost predicate ReadFrom(b: Buckets.Bucket, ps: seq<Publishing.Event>, j: nat, version: string,
                           contents: VersionIds.Digest -> MappedProtocol.Content, content: MappedProtocol.Content)
  {
    && j <= |ps| && Publishing.Run(Publishing.Init(b), ps[..j]).Some?
    && var bucket, key := Publishing.StateAt(b, ps, j).bucket, Buckets.ObjectKey(version);
       key in bucket && (bucket[key].Archive? ==> content == contents(bucket[key].digest))
  }

  /** A download: some build was reported, and then its object was read. */
  ghost predicate Downloaded(b: Buckets.Bucket, ps: seq<Publishing.Event>, version: string,
                             contents: VersionIds.Digest -> MappedProtocol.Content, content: MappedProtocol.Content)
  {
    exists i: nat, j: nat, createdAt, listing, got ::
      i <= j && ReportedAt(b, ps, i, MappedProtocol.Build(version, createdAt), listing, got)
      && ReadFrom(b, ps, j, version, contents, content)
  }

  /** This is the published database of that version. */
  ghost predicate IsRelease(b: Buckets.Bucket, ps: seq<Publishing.Event>, d: VersionIds.Digest, version: string,
                            contents: VersionIds.Digest -> MappedProtocol.Content, content: MappedProtocol.Content)
  {
    VersionIds.VersionId(d) == version && content == contents(d) && Publishing.WasPublished(b, ps, d)
  }

  lemma PublishedEarlier(b: Buckets.Bucket, ps: seq<Publishing.Event>, j: nat, d: VersionIds.Digest)
    requires j <= |ps| && Publishing.WasPublished(b, ps[..j], d)
    ensures Publishing.WasPublished(b, ps, d)
  {}

  /** A download of what was reported brings the published database of that version, however much was
      published in between. */
  lemma DownloadIsRelease(b: Buckets.Bucket, ps: seq<Publishing.Event>, version: string,
                          contents: VersionIds.Digest -> MappedProtocol.Content, content: MappedProtocol.Content)
    requires Buckets.Sound(b) && Publishing.Orderly(b) && Downloaded(b, ps, version, contents, content)
    ensures exists d :: IsRelease(b, ps, d, version, contents, content)
  {
    hide Publishing.Run, Publishing.Do, Publishing.WasPublished, Buckets.Load, Buckets.Honest, FetchServers.Current;
    var i: nat, j: nat, createdAt, listing, got :|
      i <= j && ReportedAt(b, ps, i, MappedProtocol.Build(version, createdAt), listing, got)
      && ReadFrom(b, ps, j, version, contents, content);
    Publishing.InitOk(b);
    Publishing.RunKeeps(Publishing.Init(b), ps[..i]);
    FetchServers.CurrentIsStored(Publishing.StateAt(b, ps, i).bucket, listing, got);
    Publishing.StaysStored(b, ps, i, j, version);
    Publishing.StoredWerePublished(b, ps[..j]);
    var d := Publishing.StateAt(b, ps, j).bucket[Buckets.ObjectKey(version)].digest;
    PublishedEarlier(b, ps, j, d);
    assert IsRelease(b, ps, d, version, contents, content);
  }

  /** As long as publishers only upload databases that builds made, a query's response, however it
      interleaved with refreshes, downloads, publications and Close, says of each address what the
      sources of one single published build list, and carries the date the index had for that build;
      what was mapped for it goes by that build's version. */
  method QueryTellsOneBuild(ghost b: Buckets.Bucket, ghost ps: seq<Publishing.Event>,
                            ghost contents: VersionIds.Digest -> MappedProtocol.Content,
                            ghost origin: VersionIds.Digest -> Origin, ghost cs: CategorySet, ghost special: Networks,
                            ghost files: map<MappedProtocol.File, MappedProtocol.Content>,
                            ghost es: seq<MappedProtocol.Event>, ghost s: MappedProtocol.State,
                            ghost resp: MappedProtocol.Response, parse: Queries.Parser, raw: seq<string>,
                            matches: seq<CacheRuns.Match>, created: MappedProtocol.Time)
    returns (reply: Queries.Reply, ghost m: MappedProtocol.Mapping, ghost d: VersionIds.Digest)
    requires Buckets.Sound(b) && Publishing.Orderly(b)
    requires forall d :: Publishing.WasPublished(b, ps, d) ==> MadeBy(contents(d), origin(d), cs, special)
    requires MappedProtocol.Run(MappedProtocol.Init(MappedProtocol.DbCache, files), es) == Some(s)
    requires MappedProtocol.NamedRight(files, (v, c) => Downloaded(b, ps, v, contents, c))
    requires MappedProtocol.AllWriteRight(MappedProtocol.Init(MappedProtocol.DbCache, files), es,
                                          (v, c) => Downloaded(b, ps, v, contents, c))
    requires forall e :: e in es && e.SourceGives? ==> Reported(b, ps, e.b)
    requires resp in s.responses && |resp.outcomes| == |resp.asked| && created == resp.createdAt
    requires matches == CacheRuns.MatchesOf(resp.asked, resp.outcomes)
    requires 0 < |raw| <= Queries.MAX_BATCH_SIZE && Queries.AllParse(parse, raw)
    requires resp.asked == Queries.Addresses(parse, raw, |raw|)
    ensures reply.Answer? && m in s.mappings && reply.createdAt == m.createdAt
    ensures DatedAsReported(b, ps, m)
    ensures IsRelease(b, ps, d, m.version, contents, m.content) && origin(d).world.Valid()
    ensures TellAll(reply.records, parse, raw, cs, origin(d).world, special)
  {
    hide Downloaded, Reported, MadeBy, TellAll,
         MappedProtocol.Run, MappedProtocol.AllWriteRight, Publishing.WasPublished;
    hide Queries.AnswersFrom, Queries.FirstPositions, Queries.AllParse;
    reply, m := Queries.QueryAmidOthers(s, resp, parse, raw, matches, created);
    ghost var good := (v, c) => Downloaded(b, ps, v, contents, c);
    MappedProtocol.MappedIsItsVersion(MappedProtocol.Init(MappedProtocol.DbCache, files), es, good);
    assert good(m.version, m.content);
    ghost var given := build => Reported(b, ps, build);
    MappedProtocol.MappedWasGiven(MappedProtocol.Init(MappedProtocol.DbCache, files), es, given);
    ghost var createdAt :| given(MappedProtocol.Build(m.version, createdAt)) && MappedProtocol.DatedBy(m, createdAt);
    DownloadIsRelease(b, ps, m.version, contents, m.content);
    d :| IsRelease(b, ps, d, m.version, contents, m.content);
    AnswersTell(reply.records, parse, raw, m.content, origin(d), cs, special);
  }
}
