/** The reputation service: what a batch of addresses is told
    (cmd/reputationdbd/internal/svc/reputationdb/v1/reputationdb.go). */
module Queries {
  import opened Prefixes
  import opened Categories
  import opened Ordering
  import opened Records
  import opened MappedProtocol
  import opened CacheRuns
  import opened DbCaches

  const MAX_BATCH_SIZE := 100

  /** Parsing an address is the netip library's. */
  type Parser = string -> Option<Addr>

  // ---- the addresses of a request ----

  predicate AllParse(parse: Parser, raw: seq<string>) {
    forall i :: 0 <= i < |raw| ==> parse(raw[i]).Some?
  }

  /** The address a spelling stands for: an IPv4-mapped one is the IPv4 address it is. */
  function AddressOf(parse: Parser, s: string): Addr
    requires parse(s).Some?
  {
    parse(s).value.Unmap()
  }

  /** No earlier spelling stands for the same address. */
  predicate First(parse: Parser, raw: seq<string>, i: nat)
    requires AllParse(parse, raw)
  {
    i < |raw| && forall j :: 0 <= j < i ==> AddressOf(parse, raw[j]) != AddressOf(parse, raw[i])
  }

  /** The positions, in order, at which an address is asked about for the first time. */
  function FirstPositions(parse: Parser, raw: seq<string>, n: nat): (ps: seq<nat>)
    requires AllParse(parse, raw) && n <= |raw|
    ensures forall k :: 0 <= k < |ps| ==> ps[k] < n && First(parse, raw, ps[k])
    ensures forall k, m :: 0 <= k < m < |ps| ==> ps[k] < ps[m]
    ensures forall i :: 0 <= i < n && First(parse, raw, i) ==> i in ps
  {
    if n == 0 then []
    else if First(parse, raw, n - 1) then FirstPositions(parse, raw, n - 1) + [n - 1]
    else FirstPositions(parse, raw, n - 1)
  }

  function Addresses(parse: Parser, raw: seq<string>, n: nat): (addrs: seq<Addr>)
    requires AllParse(parse, raw) && n <= |raw|
  {
    var ps := FirstPositions(parse, raw, n);
    seq(|ps|, k requires 0 <= k < |ps| => AddressOf(parse, raw[ps[k]]))
  }

  /** How each of them was first spelled. */
  function Spellings(parse: Parser, raw: seq<string>, n: nat): (spellings: seq<string>)
    requires AllParse(parse, raw) && n <= |raw|
  {
    var ps := FirstPositions(parse, raw, n);
    seq(|ps|, k requires 0 <= k < |ps| => raw[ps[k]])
  }

  /** The first position at which an address is asked about. */
  lemma {:induction false} FirstOf(parse: Parser, raw: seq<string>, i: nat) returns (j: nat)
    requires AllParse(parse, raw) && i < |raw|
    ensures j <= i && First(parse, raw, j) && AddressOf(parse, raw[j]) == AddressOf(parse, raw[i])
  {
    j := i;
    if !First(parse, raw, i) {
      var earlier :| 0 <= earlier < i && AddressOf(parse, raw[earlier]) == AddressOf(parse, raw[i]);
      j := FirstOf(parse, raw, earlier);
    }
  }

  /** Every spelling's address is among the addresses exactly once. */
  lemma EachAddressOnce(parse: Parser, raw: seq<string>, n: nat, i: nat)
    requires AllParse(parse, raw) && i < n <= |raw|
    ensures AddressOf(parse, raw[i]) in Addresses(parse, raw, n)
    ensures NoDup(Addresses(parse, raw, n))
  {
    var j := FirstOf(parse, raw, i);
    var ps := FirstPositions(parse, raw, n);
    var k :| 0 <= k < |ps| && ps[k] == j;
    assert Addresses(parse, raw, n)[k] == AddressOf(parse, raw[i]);
  }

  /** Two spellings of one address, plain and IPv4-mapped, make one record, under the first of them. */
  lemma MappedSpellingIsTheSame(parse: Parser, raw: seq<string>, i: nat, j: nat, v: nat)
    requires AllParse(parse, raw) && i < j < |raw| && v < 0x1_0000_0000
    requires {parse(raw[i]).value, parse(raw[j]).value} == {Addr(V4, v), Addr(V6, 0xffff_0000_0000 + v)}
    ensures AddressOf(parse, raw[i]) == AddressOf(parse, raw[j]) == Addr(V4, v)
    ensures j !in FirstPositions(parse, raw, |raw|)
  {
    UnmapIsLowWord(Addr(V4, v));
    UnmapIsLowWord(Addr(V6, 0xffff_0000_0000 + v));
    hide Addr.Unmap;
    var a, b := parse(raw[i]).value, parse(raw[j]).value;
    assert a in {Addr(V4, v), Addr(V6, 0xffff_0000_0000 + v)} && b in {Addr(V4, v), Addr(V6, 0xffff_0000_0000 + v)};
    assert !First(parse, raw, j);
  }

  lemma AddressesStep(parse: Parser, raw: seq<string>, n: nat)
    requires AllParse(parse, raw) && n < |raw|
    ensures
      var before, a := Addresses(parse, raw, n), AddressOf(parse, raw[n]);
      && (First(parse, raw, n) <==> a !in before)
      && Addresses(parse, raw, n + 1) == (if a in before then before else before + [a])
      && Spellings(parse, raw, n + 1) == Spellings(parse, raw, n) + if a in before then [] else [raw[n]]
  {
    var a := AddressOf(parse, raw[n]);
    var ps, before := FirstPositions(parse, raw, n), Addresses(parse, raw, n);
    if !First(parse, raw, n) {
      var i :| 0 <= i < n && AddressOf(parse, raw[i]) == a;
      EachAddressOnce(parse, raw, n, i);
    } else {
      forall k | 0 <= k < |before| ensures before[k] != a { assert before[k] == AddressOf(parse, raw[ps[k]]); }
      assert FirstPositions(parse, raw, n + 1) == ps + [n];
      assert Addresses(parse, raw, n + 1) == before + [a];
      assert Spellings(parse, raw, n + 1) == Spellings(parse, raw, n) + [raw[n]];
    }
  }

  /** parseAddrs: the distinct addresses in the order first asked about, each with its first
      spelling, or nothing when any spelling is no address. */
  method ParseAddrs(parse: Parser, raw: seq<string>) returns (r: Option<(seq<Addr>, map<Addr, string>)>)
    ensures r.Some? <==> AllParse(parse, raw)
    ensures r.Some? ==> r.value.0 == Addresses(parse, raw, |raw|)
    ensures r.Some? ==> Spelled(parse, raw, |raw|, r.value.1)
  {
    hide Spelled, Addresses, Spellings;
    var addrs: seq<Addr>, inputs: map<Addr, string> := [], map[];
    NoneSpelled(parse);
    for i := 0 to |raw|
      invariant AllParse(parse, raw[..i])
      invariant addrs == Addresses(parse, raw[..i], i) && Spelled(parse, raw[..i], i, inputs)
    {
      if parse(raw[i]) == None {
        return None;
      }
      ghost var before, now := raw[..i], raw[..i + 1];
      assert now == before + [raw[i]];
      assert AllParse(parse, now);
      var addr := parse(raw[i]).value.Unmap();
      SpelledStep(parse, before, now, i, inputs);
      if addr in inputs {
        continue;
      }
      inputs := inputs[addr := raw[i]];
      addrs := addrs + [addr];
    }
    assert raw[..|raw|] == raw;
    r := Some((addrs, inputs));
  }

  lemma NoneSpelled(parse: Parser)
    ensures AllParse(parse, []) && Spelled(parse, [], 0, map[]) && Addresses(parse, [], 0) == []
  {}

  /** inputs has exactly these addresses, each with its spelling. */
  ghost predicate Pairs(addrs: seq<Addr>, spellings: seq<string>, inputs: map<Addr, string>) {
    && |addrs| == |spellings| && (forall a :: a in inputs <==> a in addrs)
    && forall k :: 0 <= k < |addrs| ==> addrs[k] in inputs && inputs[addrs[k]] == spellings[k]
  }

  lemma PairsMore(addrs: seq<Addr>, spellings: seq<string>, inputs: map<Addr, string>, a: Addr, spelling: string)
    requires Pairs(addrs, spellings, inputs) && a !in addrs
    ensures Pairs(addrs + [a], spellings + [spelling], inputs[a := spelling])
  {
    forall k | 0 <= k < |addrs| ensures addrs[k] != a { assert addrs[k] in addrs; }
  }

  /** inputs has, for each address, the spelling it was first asked about with. */
  ghost predicate Spelled(parse: Parser, raw: seq<string>, n: nat, inputs: map<Addr, string>)
    requires AllParse(parse, raw) && n <= |raw|
  {
    Pairs(Addresses(parse, raw, n), Spellings(parse, raw, n), inputs)
  }

  lemma PrefixFirst(parse: Parser, before: seq<string>, now: seq<string>, i: nat)
    requires AllParse(parse, now) && before <= now && i < |before|
    ensures AllParse(parse, before) && (First(parse, before, i) <==> First(parse, now, i))
  {
    assert forall j :: 0 <= j < |before| ==> before[j] == now[j];
  }

  lemma {:induction false} PrefixPositions(parse: Parser, before: seq<string>, now: seq<string>, n: nat)
    requires AllParse(parse, now) && AllParse(parse, before) && before <= now && n <= |before|
    ensures FirstPositions(parse, before, n) == FirstPositions(parse, now, n)
  {
    hide First, AllParse;
    if n > 0 {
      PrefixPositions(parse, before, now, n - 1);
      PrefixFirst(parse, before, now, n - 1);
    }
  }

  lemma PrefixAddresses(parse: Parser, before: seq<string>, now: seq<string>, n: nat)
    requires AllParse(parse, now) && AllParse(parse, before) && before <= now && n <= |before|
    ensures Addresses(parse, before, n) == Addresses(parse, now, n)
            && Spellings(parse, before, n) == Spellings(parse, now, n)
  {
    PrefixPositions(parse, before, now, n);
    assert forall i :: 0 <= i < |before| ==> before[i] == now[i];
  }

  lemma SpelledStep(parse: Parser, before: seq<string>, now: seq<string>, n: nat, inputs: map<Addr, string>)
    requires n == |before| && |now| == n + 1 && AllParse(parse, now) && before <= now
    requires AllParse(parse, before) && Spelled(parse, before, n, inputs)
    ensures
      var a := AddressOf(parse, now[n]);
      && Spelled(parse, now, n + 1, if a in inputs then inputs else inputs[a := now[n]])
      && Addresses(parse, now, n + 1) == Addresses(parse, before, n) + if a in inputs then [] else [a]
  {
    hide First, Addresses, Spellings;
    PrefixAddresses(parse, before, now, n);
    AddressesStep(parse, now, n);
    var a := AddressOf(parse, now[n]);
    if a !in inputs {
      PairsMore(Addresses(parse, now, n), Spellings(parse, now, n), inputs, a, now[n]);
    }
  }

  // ---- one record of the response ----

  datatype WireMembership = WireMembership(repository: string, list: string, provider: string, category: string)

  datatype WireRecord = WireRecord(
    ipAddress: string, isVpn: bool, isDatacenter: bool, isCrawler: bool, isProxy: bool,
    categories: seq<string>, providers: seq<string>, sources: seq<WireMembership>)

  function Joined(names: seq<string>): string {
    if names == [] then "" else if |names| == 1 then names[0] else names[0] + "|" + Joined(names[1..])
  }

  /** The pieces of a text between its bars. */
  function Split(text: string): (pieces: seq<string>)
    ensures pieces != []
  {
    if text == "" then [""]
    else
      var rest := Split(text[1..]);
      if text[0] == '|' then [""] + rest else [[text[0]] + rest[0]] + rest[1..]
  }

  /** The text names these categories: nothing for none, and otherwise their names between bars. */
  ghost predicate SaysCategories(text: string, mask: CategoryByte) {
    if Names(mask) == [] then text == "" else Split(text) == Names(mask)
  }

  /** The source in the response is this membership, field by field. */
  ghost predicate Says(source: WireMembership, m: ListMembership) {
    && source.repository == m.repository && source.list == m.list && source.provider == m.provider
    && SaysCategories(source.category, m.category)
  }

  lemma SplitNoBar(name: string)
    requires '|' !in name
    ensures Split(name) == [name]
  {
    if name != "" {
      SplitNoBar(name[1..]);
      assert [name[0]] + name[1..] == name;
    }
  }

  lemma {:induction false} SplitAfter(name: string, text: string)
    requires '|' !in name
    ensures Split(name + "|" + text) == [name] + Split(text)
  {
    var whole := name + "|" + text;
    if name == "" {
      assert whole[1..] == text;
    } else {
      SplitAfter(name[1..], text);
      assert whole[1..] == name[1..] + "|" + text;
      assert [name[0]] + name[1..] == name;
    }
  }

  /** Joining and splitting are inverse for names without bars. */
  lemma {:induction false} SplitJoined(names: seq<string>)
    requires names != [] && forall n :: n in names ==> '|' !in n
    ensures Split(Joined(names)) == names
  {
    SplitNoBar(names[0]);
    if |names| > 1 {
      SplitJoined(names[1..]);
      SplitAfter(names[0], Joined(names[1..]));
    }
  }

  /** The pieces determine the text. */
  lemma {:induction false} SplitOnce(s: string, t: string)
    requires Split(s) == Split(t)
    ensures s == t
  {
    PiecesOf(s);
    PiecesOf(t);
    if s != "" && t != "" {
      var p, q := Split(s[1..]), Split(t[1..]);
      assert s == [s[0]] + s[1..] && t == [t[0]] + t[1..];
      if s[0] == '|' {
        assert Split(s)[1..] == p && Split(t)[1..] == q;
      } else {
        assert Split(s)[0][1..] == p[0] && Split(t)[0][1..] == q[0];
        assert p == [p[0]] + Split(s)[1..] && q == [q[0]] + Split(t)[1..];
      }
      SplitOnce(s[1..], t[1..]);
    }
  }

  /** The first piece is empty just before a bar or the end. */
  lemma PiecesOf(s: string)
    ensures Split(s) == [""] <==> s == ""
    ensures Split(s)[0] == "" <==> s == "" || s[0] == '|'
    ensures s != "" && s[0] == '|' ==> |Split(s)| > 1
  {}

  lemma NamesHaveNoBar(mask: CategoryByte)
    ensures forall n :: n in Names(mask) ==> '|' !in n
  {
    forall n | n in Names(mask) ensures '|' !in n {
      NamesAreSetBits(mask, n);
    }
  }

  /** A membership's categories are written as they are said. */
  lemma WireSays(m: ListMembership)
    ensures Says(Wire(m), m)
  {
    NamesHaveNoBar(m.category);
    if Names(m.category) != [] {
      SplitJoined(Names(m.category));
    }
  }

  /** A source of one category is written with just its name. */
  lemma OneCategorySays(source: WireMembership, m: ListMembership, name: string)
    requires Says(source, m) && Known(name) && m.category == MaskOf([name])
    ensures source.category == name
  {
    OneName(name);
    NamesHaveNoBar(m.category);
    SplitNoBar(name);
    SplitOnce(source.category, name);
  }

  lemma OneName(name: string)
    requires Known(name)
    ensures Names(MaskOf([name])) == [name]
  {
    var names := Names(MaskOf([name]));
    forall n ensures n in names <==> n == name {
      NamesAreSetBits(MaskOf([name]), n);
      MaskHasName([name], n);
    }
    NamesInOrder(MaskOf([name]), |ALL_CATEGORIES|);
    assert Elems(names) == {name};
    NoDupCount(names);
    assert names[0] in names;
  }

  function Wire(m: ListMembership): WireMembership {
    WireMembership(m.repository, m.list, m.provider, Joined(Names(m.category)))
  }

  /** The record says of this spelling exactly what the result does. */
  ghost predicate Renders(w: WireRecord, spelling: string, result: Result) {
    && w.ipAddress == spelling
    && w.isVpn == Has(result.categories, Bit(VPN)) && w.isDatacenter == Has(result.categories, Bit(DATACENTER))
    && w.isCrawler == Has(result.categories, Bit(CRAWLER)) && w.isProxy == Has(result.categories, Bit(PROXY))
    && w.categories == Names(result.categories)
    && NoDup(w.providers) && Sorted(w.providers, StrLe) && Elems(w.providers) == Providers(result.sources)
    && |w.sources| == |result.sources| && forall i :: 0 <= i < |w.sources| ==> Says(w.sources[i], result.sources[i])
  }

  method ToRecord(spelling: string, result: Result) returns (w: WireRecord)
    ensures Renders(w, spelling, result)
  {
    var sources := [];
    for i := 0 to |result.sources|
      invariant |sources| == i && forall k :: 0 <= k < i ==> Says(sources[k], result.sources[k])
    {
      WireSays(result.sources[i]);
      sources := sources + [Wire(result.sources[i])];
    }
    var names := Strings(result.categories);
    var providers := result.ProvidersSorted();
    var c := result.categories;
    w := WireRecord(spelling, Has(c, Bit(VPN)), Has(c, Bit(DATACENTER)), Has(c, Bit(CRAWLER)), Has(c, Bit(PROXY)),
                    names, providers, sources);
  }

  lemma SaysOnce(x: WireMembership, y: WireMembership, m: ListMembership)
    requires Says(x, m) && Says(y, m)
    ensures x == y
  {
    if Names(m.category) != [] {
      SplitOnce(x.category, y.category);
    }
  }

  /** The record is determined: there is one way to render a result. */
  lemma RenderedOnce(v: WireRecord, w: WireRecord, spelling: string, result: Result)
    requires Renders(v, spelling, result) && Renders(w, spelling, result)
    ensures v == w
  {
    StringOrder();
    SameElementsSameMultiset(v.providers, w.providers);
    SortedUnique(v.providers, w.providers, StrLe);
    forall i | 0 <= i < |v.sources| ensures v.sources[i] == w.sources[i] {
      SaysOnce(v.sources[i], w.sources[i], result.sources[i]);
    }
    assert v.sources == w.sources;
  }

  /** A record without categories, providers and sources is what an address that is not listed gets. */
  lemma MissIsEmpty(w: WireRecord, spelling: string)
    requires Renders(w, spelling, NOTHING)
    ensures w == WireRecord(spelling, false, false, false, false, [], [], [])
  {
    var empty := WireRecord(spelling, false, false, false, false, [], [], []);
    NamesOfNone(6);
    assert Elems(empty.providers) == Providers(NOTHING.sources);
    RenderedOnce(w, empty, spelling, NOTHING);
  }

  lemma {:induction false} NamesOfNone(n: nat)
    requires n <= 6
    ensures NamesUpTo({}, n) == []
  {
    if n > 0 {
      NamesOfNone(n - 1);
    }
  }

  // ---- the response ----

  /** What an address that has no record is rendered from. */
  const NOTHING := Result({}, [])

  function ResultOf(outcome: Outcome): Result {
    match outcome case Found(result) => result case _ => NOTHING
  }

  /** One record per distinct address, in the order first asked about, echoing the first spelling,
      with what this content has for it. */
  ghost predicate AnswersFrom(parse: Parser, raw: seq<string>, content: Content, records: seq<WireRecord>)
    requires AllParse(parse, raw)
  {
    && |records| == |FirstPositions(parse, raw, |raw|)|
    && forall k :: 0 <= k < |records| ==> AnswersOne(parse, raw, content, records[k], k)
  }

  /** The record shows what this content has for the address, which decodes, or that it has nothing. */
  ghost predicate Shows(w: WireRecord, spelling: string, content: Content, a: Addr) {
    if content.Mmdb? && a in content.records then
      content.records[a].Good? && Renders(w, spelling, content.records[a].result)
    else Renders(w, spelling, NOTHING)
  }

  /** The record tells of the k-th distinct address what this content has for it. */
  ghost predicate AnswersOne(parse: Parser, raw: seq<string>, content: Content, w: WireRecord, k: nat)
    requires AllParse(parse, raw) && k < |FirstPositions(parse, raw, |raw|)|
  {
    var spelling := raw[FirstPositions(parse, raw, |raw|)[k]];
    Shows(w, spelling, content, AddressOf(parse, spelling))
  }

  datatype Reply = InvalidArgument | Unavailable | Internal | Answer(createdAt: Time, records: seq<WireRecord>)

  method HitsOf(matches: seq<Match>, ghost content: Content, ghost addrs: seq<Addr>) returns (hits: map<Addr, Result>)
    requires matches == Matches(content, addrs)
    ensures forall a :: a in addrs ==> HitOr(hits, a) == ResultOf(LookupIn(content, a))
  {
    hits := map[];
    for i := 0 to |matches|
      invariant forall a :: a in hits <==> exists k :: 0 <= k < i && matches[k].addr == a
      invariant forall a :: a in hits ==> LookupIn(content, a) == Found(hits[a])
    {
      MatchesAreRecords(content, addrs, matches[i]);
      hits := hits[matches[i].addr := matches[i].result];
    }
    forall a | a in addrs ensures HitOr(hits, a) == ResultOf(LookupIn(content, a)) {
      if LookupIn(content, a).Found? {
        MatchesAreRecords(content, addrs, Match(a, LookupIn(content, a).result));
        var k :| 0 <= k < |matches| && matches[k] == Match(a, LookupIn(content, a).result);
        assert matches[k].addr == a;
      }
    }
  }

  /** Query: every way it can be answered, and which. */
  method Query(cache: Cache, parse: Parser, raw: seq<string>) returns (reply: Reply)
    requires cache.Valid()
    ensures reply == InvalidArgument <==> |raw| == 0 || |raw| > MAX_BATCH_SIZE || !AllParse(parse, raw)
    ensures reply == Unavailable ==> cache.db == None
    ensures reply != InvalidArgument && cache.db == None ==> reply == Unavailable
    ensures reply != InvalidArgument && cache.db.Some? ==>
      && cache.db.value < |cache.mappings|
      && cache.mappings[cache.db.value].content.Mmdb?
      && var records := cache.mappings[cache.db.value].content.records;
         reply == Internal <==>
           exists a :: a in Addresses(parse, raw, |raw|) && a in records && records[a] == Undecodable
    ensures reply.Answer? ==>
      && cache.db.Some? && cache.db.value < |cache.mappings| && reply.createdAt == cache.createdAt
      && AnswersFrom(parse, raw, cache.mappings[cache.db.value].content, reply.records)
  {
    if |raw| == 0 || |raw| > MAX_BATCH_SIZE {
      return InvalidArgument;
    }
    var parsed := ParseAddrs(parse, raw);
    if parsed == None {
      return InvalidArgument;
    }
    var addrs, inputs := parsed.value.0, parsed.value.1;
    var matches, created, loaded, failed, _ := cache.Query(addrs);
    if !loaded {
      return Unavailable;
    }
    if failed {
      return Internal;
    }
    reply := Compose(parse, raw, addrs, inputs, matches, created, cache.mappings[cache.db.value].content);
  }

  /** No record of these addresses is broken. */
  ghost predicate Decodable(content: Content, addrs: seq<Addr>) {
    forall a :: a in addrs ==> LookupIn(content, a) != Broken
  }

  /** The response from what the cache returned. */
  method Compose(ghost parse: Parser, ghost raw: seq<string>, addrs: seq<Addr>, inputs: map<Addr, string>,
                 matches: seq<Match>, created: Time, ghost content: Content)
    returns (reply: Reply)
    requires AllParse(parse, raw) && addrs == Addresses(parse, raw, |raw|) && Spelled(parse, raw, |raw|, inputs)
    requires matches == Matches(content, addrs) && Decodable(content, addrs)
    ensures reply.Answer? && reply.createdAt == created && AnswersFrom(parse, raw, content, reply.records)
  {
    var hits := HitsOf(matches, content, addrs);
    var records := Respond(parse, raw, addrs, inputs, hits, content);
    return Answer(created, records);
  }

  method Respond(ghost parse: Parser, ghost raw: seq<string>, addrs: seq<Addr>, inputs: map<Addr, string>,
                 hits: map<Addr, Result>, ghost content: Content)
    returns (records: seq<WireRecord>)
    requires AllParse(parse, raw) && addrs == Addresses(parse, raw, |raw|) && Spelled(parse, raw, |raw|, inputs)
    requires forall a :: a in addrs ==> HitOr(hits, a) == ResultOf(LookupIn(content, a))
    requires Decodable(content, addrs)
    ensures AnswersFrom(parse, raw, content, records)
  {
    SpelledAll(parse, raw, inputs);
    records := Render(addrs, inputs, hits);
    RenderedAnswers(parse, raw, inputs, hits, content, records);
  }

  lemma SpelledAll(parse: Parser, raw: seq<string>, inputs: map<Addr, string>)
    requires AllParse(parse, raw) && Spelled(parse, raw, |raw|, inputs)
    ensures forall a :: a in Addresses(parse, raw, |raw|) ==> a in inputs
  {}

  lemma RenderedAnswers(parse: Parser, raw: seq<string>, inputs: map<Addr, string>,
                        hits: map<Addr, Result>, content: Content, records: seq<WireRecord>)
    requires AllParse(parse, raw) && Spelled(parse, raw, |raw|, inputs)
    requires |records| == |Addresses(parse, raw, |raw|)|
    requires forall a :: a in Addresses(parse, raw, |raw|) ==>
               HitOr(hits, a) == ResultOf(LookupIn(content, a)) && a in inputs
    requires Decodable(content, Addresses(parse, raw, |raw|))
    requires forall k :: 0 <= k < |records| ==>
      Renders(records[k], inputs[Addresses(parse, raw, |raw|)[k]], HitOr(hits, Addresses(parse, raw, |raw|)[k]))
    ensures AnswersFrom(parse, raw, content, records)
  {
    hide Renders, HitOr;
    var addrs := Addresses(parse, raw, |raw|);
    forall k | 0 <= k < |records|
      ensures k < |FirstPositions(parse, raw, |raw|)| && AnswersOne(parse, raw, content, records[k], k)
    {
      SpelledAt(parse, raw, inputs, k);
      assert addrs[k] in addrs;
    }
  }

  /** What was found for the address, or nothing. */
  function HitOr(hits: map<Addr, Result>, a: Addr): Result { if a in hits then hits[a] else NOTHING }

  method Render(addrs: seq<Addr>, inputs: map<Addr, string>, hits: map<Addr, Result>) returns (records: seq<WireRecord>)
    requires forall a :: a in addrs ==> a in inputs
    ensures |records| == |addrs|
            && forall k :: 0 <= k < |records| ==> Renders(records[k], inputs[addrs[k]], HitOr(hits, addrs[k]))
  {
    hide Renders;
    records := [];
    for i := 0 to |addrs|
      invariant |records| == i
                && forall k :: 0 <= k < i ==> Renders(records[k], inputs[addrs[k]], HitOr(hits, addrs[k]))
    {
      var w := ToRecord(inputs[addrs[i]], HitOr(hits, addrs[i]));
      records := records + [w];
    }
  }

  /** What inputs holds for the i-th address. */
  lemma SpelledAt(parse: Parser, raw: seq<string>, inputs: map<Addr, string>, i: nat)
    requires AllParse(parse, raw) && Spelled(parse, raw, |raw|, inputs) && i < |Addresses(parse, raw, |raw|)|
    ensures
      var ps, addrs := FirstPositions(parse, raw, |raw|), Addresses(parse, raw, |raw|);
      && |ps| == |addrs| && addrs[i] == AddressOf(parse, raw[ps[i]])
      && addrs[i] in inputs && inputs[addrs[i]] == raw[ps[i]]
  {}

  /** A query that ran amid refreshes, other queries and Close: from whatever its lookups returned in
      any reachable state, the handler composes records of one single build, the one whose date the
      response carries. */
  method QueryAmidOthers(ghost s: State, ghost resp: Response, parse: Parser, raw: seq<string>,
                         matches: seq<Match>, created: Time)
    returns (reply: Reply, ghost m: Mapping)
    requires Reachable(s) && resp in s.responses && |raw| <= MAX_BATCH_SIZE
    requires AllParse(parse, raw) ==> resp.asked == Addresses(parse, raw, |raw|)
    requires |resp.outcomes| == |resp.asked| && matches == MatchesOf(resp.asked, resp.outcomes)
             && created == resp.createdAt
    ensures reply.InvalidArgument? <==> |raw| == 0 || !AllParse(parse, raw)
    ensures !reply.InvalidArgument? ==>
      && m in s.mappings && m.content.Mmdb? && reply.Answer? && reply.createdAt == m.createdAt
      && AnswersFrom(parse, raw, m.content, reply.records)
  {
    m := ResponseFromOneBuild(s, resp);
    if |raw| == 0 {
      return InvalidArgument, m;
    }
    var parsed := ParseAddrs(parse, raw);
    if parsed == None {
      return InvalidArgument, m;
    }
    MatchesFromOutcomes(m.content, resp.asked, resp.outcomes);
    reply := Compose(parse, raw, parsed.value.0, parsed.value.1, matches, created, m.content);
  }
}
