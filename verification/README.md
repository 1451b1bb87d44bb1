# Reputation database: a verified model

This project models, in Dafny, how the IP reputation database is built, published, kept fresh and
queried, and proves properties of that model that span those steps.

**Building** (`Prefixes`, `Ordering`, `Categories`, `Records`, `Stores`, `RepoFiles`, `Selections`,
`Builds`, `SearchTrees`). Lists of prefixes are filtered by category, folded into a table of
prefixes (IPv6 collapsed to /64), broad listings are pushed down into narrow records in place, and
the table is drained into a search tree. The main results: every lookup answers with exactly the
union of what the selected sources list for the address, an IPv4 address inside an IPv6 alias for
that address, and a reserved one never; narrowing the sources by category is narrowing every answer;
the merge does not depend on the order in which it walks the table; a shared on-disk copy of a
repository serves what its clone would, and exactly when.

**Keeping a mapped copy fresh** (`MappedProtocol`, `CacheRuns`, `DbCaches`, `CaddyStores`). The
server's cache and the Caddy store are one state machine over locks, open mappings and files, with
any number of queries, a refresh and a close interleaved between any two of their steps. The classes
`Cache` and `Store` follow the code statement by statement; each call states its whole new state and
comes with a run of the state machine that ends there. No lookup runs on a closed mapping, one live
handle is mapped on its own file, no file that is mapped is removed or replaced, every response comes
from one build, no build is ever mapped under another's version or date, and what failed refreshes
leave behind is stated for both stores.

**Publishing and fetching** (`VersionIds`, `VersionIndexes`, `Buckets`, `Publishing`,
`FetchServers`). Publishers and requests to the fetch service share a bucket; calls interleave and
fail freely, including writes that take effect and are reported to have failed. Every version in the
index, and in any copy of it, has its database in the bucket; an uploaded version can be fetched from
then on; for one publisher the index is the ten most recently published versions, for several it is
settled exactly which saved versions it still has. Every index handed out was read by a load that
ended less than a minute before; since a load takes its time, there is no bound on how long ago the
bucket held it.

**Front ends** (`Matching`, `Queries`, `EndToEnd`). The Caddy matcher decides alike on the free and on
the full database, and a query's response has one record per distinct address, first spelling, one
build. `EndToEnd` joins the parts: as long as publishers only upload databases that builds made, a
response says of every address exactly what the selected sources of one single published build list
for it, under the date the index had for it, whatever the query interleaved with.

`dafny verify dfyconfig.toml` checks the whole project.

## Conventions

- Addresses are naturals below 2^32 or 2^128 and a prefix is a family, an address and a length.
  Containment compares the leading bits (`Shr`, proved to be division by a power of two).
- A category mask is the set of its bit positions; `Categories.NumberInjective` shows that nothing
  is lost against the 16-bit number.
- Libraries appear through what callers rely on: the prefix table yields exactly the stored prefixes
  that contain a given one, inserting into the search tree overwrites everything below the prefix,
  a sort yields some sorted permutation, `reputationdb.Open` opens what is a database, the base64
  decoder skips line breaks also when strict.
- Whatever is decided outside (answers of the network, whether a file can be removed, clocks,
  temporary names, what a parser makes of a line) is a parameter, and results hold for every value
  of it.
- Where the code and its comments differ, the model follows the code. `Record.Add` compares the
  category too, so "the same (repository, list, provider) tuple" can be recorded twice; the stored
  value is then not determined (`Records.TiesAreNotCanonical`), and `Records.StoredIsCanonical` says
  exactly when it is. A corrupt cached database file stays on disk when downloading it again fails
  (`CacheRuns.UnusableFileSurvives`); `CacheRuns.FailedRefreshLeavesTarget` says exactly when a file
  is left. The cached tree of a repository does not always match like its clone:
  `RepoFiles.CachedRootCanVanish` names the case and `RepoFiles.CollectingFromCache` the exact
  condition. `validVersionID` accepts strings with line breaks that name no version:
  `VersionIds.LineBreaksSlipThrough` and `VersionIds.AcceptedExactlyVersions`.

## Model

| member | source | states |
|---|---|---|
| `Prefixes.ShrIsDivision` | cmd/mkdatabase/sources.go:2202-2219 | comparing leading bits is comparing network numbers, the quotients by a power of two of section 3.1 of RFC 4632 |
| `Prefixes.CoversIsBlock` | cmd/mkdatabase/sources.go:2178-2188 | a prefix covers the block of its family that begins at its own address and has two to the power of its host bits addresses, section 3.1 of RFC 4632 |
| `Prefixes.ContainsIsInclusion` | cmd/mkdatabase/sources.go:2178-2188 | one prefix contains another exactly when every address under the second is under the first |
| `Prefixes.Nested` | cmd/mkdatabase/sources.go:2178-2188 | two prefixes over one address are nested |
| `Prefixes.CollapseIsMostSpecific` | cmd/mkdatabase/sources.go:2197-2219 | collapsing leaves IPv4 and IPv4-mapped prefixes alone, gives any other the longest prefix of at most 64 bits that contains it, and is idempotent |
| `Prefixes.CollapseContains` | cmd/mkdatabase/sources.go:2214-2219 | the collapsed prefix is masked and contains the one it came from |
| `Prefixes.CollapseMonotone` | cmd/mkdatabase/sources.go:2202-2219 | collapsing keeps containment, so no listed address loses a covering prefix |
| `Prefixes.UnmapIsLowWord` | cmd/mkdatabase/sources.go:1402-1403 | unmapping turns exactly the addresses of ::ffff:0:0/96 into the IPv4 addresses in them and leaves every other alone |
| `Prefixes.ParsedFieldIsValid` | cmd/mkdatabase/sources.go:1382-1404 | a field is accepted exactly when it is not empty and the library parses it; the result is masked, has the written length and covers exactly the addresses that were written; a bare address covers itself alone, a mapped one the IPv4 address it is |
| `Categories.FromCategories` | categories.go:76-99 | the mask of a list of names is the union of the bits of the known ones |
| `Categories.MaskHasName` | categories.go:76-99 | a mask built from names has a category's bit exactly when that known name was given |
| `Categories.BitMeetsMask` | categories.go:20-27 | a record of one category meets a filter exactly when the filter names that category |
| `Categories.Strings` | categories.go:55-70 | the names listed for a mask, in the fixed order |
| `Categories.NamesAreSetBits` | categories.go:55-70 | a name is listed exactly when it is known and its bit is set |
| `Categories.NamesInOrder` | categories.go:39-53 | the names come in alphabetical order, each once |
| `Categories.CategoryNumbers` | categories.go:29-37 | vpn, datacenter, crawler, proxy, abuse and tor are the powers of two from 1 to 32 |
| `Categories.NamesRoundTrip` | categories.go:43-99 | naming a mask and parsing the names gives back its six category bits |
| `Categories.NumberInjective` | categories.go:5-18 | different masks are different 16-bit numbers |
| `Records.Record.Add` | record.go:51-58 | adding keeps what is there in place and appends only what is not there yet, comparing all four fields |
| `Records.Record.Sort` | record.go:60-74 | sorting permutes the sources into (repository, list, provider) order, ties in any order |
| `Records.KeyLeByFields` | record.go:62-74 | that order is by repository, among equal repositories by list, and then by provider |
| `Ordering.StrLeIsLexicographic` | record.go:66-72 | each of them lexicographically: a beginning comes first, and otherwise the smaller character where the two part |
| `Records.Record.CategoriesOf` | record.go:76-83 | the accumulated mask is the union of the sources' masks |
| `Records.UnionMaskHas` | record.go:76-83 | a bit is in that union exactly when some source has it |
| `Records.Record.ProvidersOf` | record.go:85-98 | the distinct providers, each once, sorted |
| `Records.Result.HasProviderIsListed` | reader.go:30-39 | asking a decoded record for one provider is looking for it in the list of all |
| `Records.Result.ProvidersSorted` | reader.go:41-55 | the same of a decoded record |
| `Records.ProvidersAgree` | reader.go:41-55 | the two provider lists are the same list, before storing and after decoding |
| `Records.Record.DataType` | record.go:100-135 | the stored value is a sorted permutation of the sources under the union of their masks |
| `Records.StoredFromAdds` | record.go:51-135 | after any sequence of adds the stored value has each distinct membership once, in key order, under the union of the masks |
| `Records.StoredKeysAreCanonical` | record.go:60-135 | the stored keys and mask depend only on the set of memberships, not on the order they were added in |
| `Records.StoredIsCanonical` | record.go:51-135 | the whole stored value depends only on that set exactly when no two of the memberships share a (repository, list, provider) key |
| `Records.OtherOrder` | record.go:60-74 | memberships that share a key can always be stored the other way round as well |
| `Records.TiesAreNotCanonical` | cmd/mkdatabase/sources.go:2020-2037 | two memberships that differ only in category, as one autonomous system of two categories has, may be stored in either order whichever was added first |
| `Stores.FoldOne` | cmd/mkdatabase/sources.go:2226-2237 | one fold adds exactly the one membership at the one prefix, creating the record if need be, and keeps the table's records apart and duplicate-free |
| `Stores.Fold` | cmd/mkdatabase/sources.go:2221-2237 | folding lists every prefix, collapsed, under the membership and nothing else, and returns how many there were |
| `Stores.FoldEach` | cmd/mkdatabase/sources.go:2221-2237 | any sequence of folds lists the union |
| `Stores.TakeInSupernets` | cmd/mkdatabase/sources.go:2186-2193 | one record ends with everything initially listed at stored prefixes containing its own, although some of those records are already enlarged and others not |
| `Stores.InheritInto` | cmd/mkdatabase/sources.go:2184-2195 | one round of the walk does that for its prefix and touches no other record |
| `Stores.MergeContained` | cmd/mkdatabase/sources.go:2172-2195 | whatever order the table is walked in, no key is added or dropped, records stay duplicate-free, and each ends with the union of the initial memberships of all stored prefixes containing its own |
| `Stores.MergeIdempotent` | cmd/mkdatabase/sources.go:2172-2195 | merging again changes nothing |
| `Stores.MergeOrderIrrelevant` | cmd/mkdatabase/sources.go:2178-2183 | two merges of one table hold the same sets |
| `Stores.MergedAnswer` | cmd/mkdatabase/sources.go:2172-2195 | after the merge the most specific prefix over an address holds the union over all prefixes over it, and none covers it exactly when that union is empty |
| `Stores.LookupIsUnionOfListings` | cmd/mkdatabase/sources.go:2172-2237 | for every run of folds and a merge, the precomputed answer at an address is the set of memberships folded under a prefix whose collapsed form covers it |
| `Stores.ListedAsWritten` | cmd/mkdatabase/sources.go:2202-2219 | a prefix that covers an address as written always counts, and on IPv4 nothing else does |
| `Stores.FoldAndMerge` | cmd/mkdatabase/sources.go:2172-2237 | folds and merge together give that answer at every address |
| `RepoFiles.MatchedArePicked` | cmd/mkdatabase/sources.go:1684-1720 | a pattern can be followed exactly when its root is there or it picks no directory, and then matches exactly the files it picks, by their path or by their last name |
| `RepoFiles.AnyDepth` | cmd/mkdatabase/sources.go:1684-1687 | below the root of a "**" pattern a file is picked by its last name alone, however deep it lies |
| `RepoFiles.OnlyBelow` | cmd/mkdatabase/sources.go:1693-1720 | nothing is picked that is not that root or below it |
| `RepoFiles.CollectList` | cmd/mkdatabase/sources.go:1832-1859 | what is added is exactly what the files that the pattern picks list: each prefix, collapsed, under the repository, the file's path, the list's provider or the one derived from the path, and the category; it fails exactly when the pattern cannot be followed |
| `RepoFiles.Collect` | cmd/mkdatabase/sources.go:1825-1862 | so does the loop over lists; it fails exactly when one of the patterns cannot be followed |
| `RepoFiles.CachedMatches` | cmd/mkdatabase/sources.go:1684-1720 | a pattern on a complete cache fails exactly when its root was not kept, and otherwise matches the files that it picks from the clone, with the clone's bytes |
| `RepoFiles.CachedTreeIs` | cmd/mkdatabase/sources.go:1800-1820 | a complete cache has, byte for byte, exactly the clone's files that some list picks, and the marker |
| `RepoFiles.CollectingFromCache` | cmd/mkdatabase/sources.go:1778-1791 | collecting the selected lists from a complete cache is collecting them from the clone, exactly when the root of every selected "**" pattern was kept |
| `RepoFiles.CachedRootCanVanish` | cmd/mkdatabase/sources.go:1694-1720 | a "**" pattern below a directory can fail on the cache of a clone it collects nothing from |
| `RepoFiles.RemoveAll` | cmd/mkdatabase/sources.go:1792-1798 | emptying the directory, stopped anywhere, never renews the marker |
| `RepoFiles.CacheList` | cmd/mkdatabase/sources.go:1800-1820 | one list's files are copied byte for byte and never onto the marker, or caching stops |
| `RepoFiles.CacheRepo` | cmd/mkdatabase/sources.go:1778-1823 | stopped after any number of file operations, a marker newly written implies the complete tree of every list the repository has |
| `RepoFiles.RepoFS` | cmd/mkdatabase/sources.go:1728-1776 | the tree served is a copy of the clone a fresh cache was made from, else of a new one; a fresh cache is left alone, and one that is fresh later vouches for the new clone |
| `RepoFiles.ServeBuilds` | cmd/mkdatabase/sources.go:1728-1823 | over any sequence of builds sharing the directory, with crashes anywhere, every tree served is a clone that this or an earlier build made or the complete cache of one, and a build that can clone is served |
| `RepoFiles.ServedCollectsTheClone` | cmd/mkdatabase/sources.go:1728-1862 | whichever lists a build selects, it collects from a served tree what it would from that clone; it cannot exactly when the clone cannot be collected, or the tree is a cache that has not kept the root of a selected pattern, which plain and root-level patterns always do |
| `Selections.ParseCategories` | cmd/mkdatabase/category.go:31-52 | no flags select everything, known flags exactly themselves, and an unknown one is an error |
| `Selections.SelectLists` | cmd/mkdatabase/category.go:74-85 | the lists of selected categories, in order |
| `Selections.Intersect` | cmd/mkdatabase/category.go:87-100 | the selected ones of a source's categories, in order |
| `Selections.SelectionByMask` | cmd/mkdatabase/category.go:54-72 | a list's category bit meets the selection's mask exactly when the list is selected |
| `Builds.CollectRepo` | cmd/mkdatabase/main.go:116-136 | a repository with no selected list is skipped; any other is read through its cache, and lists what the clone it gets to see lists, or the build fails; the cache is fit for every later build |
| `Builds.CollectRepos` | cmd/mkdatabase/main.go:116-136 | so does the loop over all repositories, each with its own cache or none, and what later builds will see of each is determined |
| `Builds.FoldBody` | cmd/mkdatabase/sources.go:1864-1902 | a body adds exactly its prefixes under the source's name, list and category: each group under its own key as provider, an ungrouped one under the source's provider |
| `Builds.AsnPrefixes` | cmd/mkdatabase/sources.go:2008-2018 | exactly the valid announcements, masked, in their order; they are over exactly the addresses that the valid announcements are over |
| `Builds.FoldAS` | cmd/mkdatabase/sources.go:2020-2037 | every announced prefix is added under "stat.ripe.net", the AS as list, the source's provider and each given category, and nothing else |
| `Builds.BuildFactsAre` | cmd/mkdatabase/sources.go:1848-1855 | what a build lists is, field by field, what its selected sources list: repository, list and provider are those of the source, the group or the file that has the prefix |
| `Builds.CollectAll` | cmd/mkdatabase/main.go:93-176 | the four source loops, with repositories coming out of their caches, add exactly what the selected ones of the sources this build gets to see list under those fields, and succeed when those can be read and caches keep their roots |
| `Builds.FilteringCommutes` | cmd/mkdatabase/main.go:116-176 | what a filtered build lists is what the full build lists, restricted to the selected categories |
| `Builds.FilteredAnswer` | cmd/mkdatabase/category.go:22-29 | on every address the filtered build answers with the full build's selected memberships, and finds it exactly when there are any |
| `SearchTrees.SearchTree.Insert` | cmd/mkdatabase/writer.go:51-75 | an insertion into a reserved or aliased network is refused and recognisable as such; any other is recorded or fails |
| `SearchTrees.LastIsLongest` | cmd/mkdatabase/main.go:196-221 | written broader first, overwriting insertions give longest-prefix match |
| `SearchTrees.DrainOne` | cmd/mkdatabase/main.go:206-220 | one round inserts or skips its prefix, takes it out of the table and touches no other record |
| `SearchTrees.Drain` | cmd/mkdatabase/main.go:196-221 | every stored prefix is inserted or skipped exactly once, the counters add up to the initial size, and the table ends empty |
| `SearchTrees.LateBroadPrefixHidesNarrow` | cmd/mkdatabase/main.go:196-206 | in the opposite order a broad prefix hides every narrow one, so the order of the drain matters |
| `SearchTrees.ResolvedIsOrdinary` | cmd/mkdatabase/writer.go:61-75 | a lookup ends at an address in no reserved or aliased network, and at the address itself when that is in none |
| `SearchTrees.MappedAnswersAsIPv4` | reader_test.go:129-133 | an IPv4-mapped address has the record of the IPv4 address |
| `SearchTrees.AliasedAnswersAsIPv4` | cmd/mkdatabase/writer.go:22-37 | an address in an alias has the record of the IPv4 address whose bits follow the alias's own |
| `SearchTrees.Run` | cmd/mkdatabase/main.go:93-221 | for any selection, any state of the caches and any order of walking, every lookup answers with the union of what the selected sources list for the address it resolves to, and with nothing when that is reserved |
| `SearchTrees.AnswerNamesSources` | cmd/mkdatabase/main.go:93-221 | so the memberships and the providers that a lookup finds are exactly those under which selected sources list the address, and nothing is found exactly when none does |
| `Matching.Matcher.Provision` | caddy/maat/datacenterdb.go:122-170 | a configuration is accepted exactly when its server is a URL of the right shape, every category is known, a full-tier matcher has a key and the directory can be made; the categories end sorted, distinct and matching the mask and the tier |
| `Matching.OneCategory` | caddy/maat/datacenterdb.go:172-181 | the free tier is chosen exactly for the category set {datacenter} |
| `Matching.Matcher.MatchWithError` | caddy/maat/datacenterdb.go:201-233 | a request matches exactly when a loaded database has a record for its address in a wanted category, or any record when none is named |
| `Matching.MatchMeansListed` | caddy/maat/datacenterdb.go:223-233 | a match means that some source lists the address in a wanted category, and the other way round |
| `Matching.FreeBuildIsDatacenterPart` | cmd/mkdatabase/main.go:116-176 | the free build lists for an address exactly the full build's datacenter memberships |
| `Matching.TierNeverMatters` | caddy/maat/datacenterdb.go:172-181 | a matcher of the free tier decides alike on the free and on the full database, at every address |
| `Matching.BothTreesDecideAlike` | caddy/maat/datacenterdb.go:172-233 | so do the finished search trees of two builds of the same sources, at every address, reserved and aliased ones among them |
| `Matching.BuildBoth` | cmd/mkdatabase/main.go:93-221 | the free and the full build, made one after the other over the same caches, answer for the same sources, the second out of whatever caches the first left |
| `Matching.DecideOnBoth` | caddy/maat/datacenterdb.go:122-233 | both databases built, one matcher provisioned, one request from any address: a free-tier matcher decides the same on either |
| `MappedProtocol.StepKeeps` | cmd/reputationdbd/internal/dbcache/cache.go:146-396 | every step of every thread of either store keeps the invariant about handles, files, locks, queries and responses |
| `MappedProtocol.NoLookupOnClosedMapping` | cmd/reputationdbd/internal/dbcache/cache.go:142-166 | in every reachable state a running lookup is on the mapping in the cache, which is open, and nobody holds the write lock |
| `MappedProtocol.ClosedOnlyWhenUnused` | cmd/reputationdbd/internal/dbcache/cache.go:321-360 | a step that closes a handle finds it out of the cache, with no query on it or holding anything from it |
| `MappedProtocol.OneLiveHandle` | cmd/reputationdbd/internal/dbcache/cache.go:173-195 | either nothing is mapped under empty path and version, or one open handle is, on the file of its version as it is on disk; at rest nothing else is open |
| `MappedProtocol.TargetsAreNotMapped` | cmd/reputationdbd/internal/dbcache/cache.go:250-299 | every rename and every removal, in either store, is aimed at a file other than the mapped one |
| `MappedProtocol.MappedFileUntouched` | cmd/reputationdbd/internal/dbcache/cache.go:352-396 | no step makes a file vanish or change that is mapped before or after it |
| `MappedProtocol.CloseReleasesAll` | cmd/reputationdbd/internal/dbcache/cache.go:178-195 | once Close has returned nothing is open, in every continuation |
| `MappedProtocol.ResponseFromOneBuild` | cmd/reputationdbd/internal/dbcache/cache.go:134-166 | every response has, address by address, what one and the same mapping holds, and carries that mapping's creation time |
| `MappedProtocol.QueriesDoNotSteer` | cmd/reputationdbd/internal/dbcache/cache.go:73-85 | leaving the queries out of any interleaving is a run that ends in the same place |
| `MappedProtocol.QueriesOnlyDelayTheLock` | cmd/reputationdbd/internal/dbcache/cache.go:321-324 | and the only steps that queries ever hold up are those that take the write lock |
| `MappedProtocol.OnlyWritersDelayEntry` | cmd/reputationdbd/internal/dbcache/cache.go:146-152 | a query is held up only on entry and only by a writer, wherever the refresh and Close stand |
| `MappedProtocol.FailedRefreshesAddNothing` | cmd/reputationdbd/internal/dbcache/cache.go:202-248 | however queries interleave, refreshes that swap nothing in leave what is mapped alone and, once over, no file that was not there before |
| `MappedProtocol.FailedRefreshesKeepServing` | caddy/maat/store.go:186-346 | however lookups interleave, refreshes that swap nothing in leave what is served alone, unless a build without a version was about to replace it in place; then nothing is mapped and, once over, no handle is open |
| `MappedProtocol.SameVersionChangesNothing` | cmd/reputationdbd/internal/dbcache/cache.go:206-220 | however queries and Close interleave, a refresh that finds its version mapped opens, downloads and removes nothing, and what is served stays as it is unless Close takes it away |
| `MappedProtocol.MappedIsItsVersion` | cmd/reputationdbd/internal/dbcache/cache.go:222-248 | a matching file name means matching data: if files named after versions hold them at the start and every download brings the version it was to bring, then in every run so do the files and the mappings |
| `MappedProtocol.MappedWasGiven` | cmd/reputationdbd/internal/dbcache/cache.go:304-323 | every mapping goes by a version that the source gave and by the date it gave with it, or else by the date in the file |
| `CacheRuns.RefreshIsRun` | cmd/reputationdbd/internal/dbcache/cache.go:202-299 | one refresh of either store, whatever the outside world does, is a run of the protocol to the state Refreshed names |
| `CacheRuns.RefreshKeeps` | caddy/maat/store.go:189-233 | so it ends at rest with every invariant intact |
| `CacheRuns.FailedRefreshKeepsServing` | cmd/reputationdbd/internal/dbcache/cache.go:202-299 | a failed refresh of the server's cache keeps handle, path, version and creation time, leaves no staging file, adds no file that could be removed, and changes no file but the target, which is not the mapped one |
| `CacheRuns.FailedRefreshLeavesTarget` | cmd/reputationdbd/internal/dbcache/cache.go:222-248 | after a failed refresh the file of the build asked for is there exactly when a finished download that did not open could not be removed, or, without a finished download, when it was there before, and then with the same bytes |
| `CacheRuns.UnusableFileSurvives` | cmd/reputationdbd/internal/dbcache/cache.go:224-238 | so an unusable cached file survives a download that brings nothing |
| `CacheRuns.SuccessfulRefreshLeavesOneFile` | cmd/reputationdbd/internal/dbcache/cache.go:301-396 | a load that changes version leaves exactly its own file among those matching the sweep that could be removed, one open handle, and every other file as it was |
| `CacheRuns.FailedCaddyRefresh` | caddy/maat/store.go:186-302 | a failed refresh of the Caddy store leaves what it serves alone, except that once a build without a version has been downloaded to the path being served nothing is loaded and no handle is open |
| `CacheRuns.CaddyGivesUp` | caddy/maat/store.go:286-295 | that exception occurs: after a first build without a version, a second that cannot be moved into place leaves nothing loaded |
| `CacheRuns.NeverMovedOntoMapped` | caddy/maat/store.go:286-295 | when a finished download is moved, its destination is not mapped |
| `CacheRuns.QueryIsRun` | cmd/reputationdbd/internal/dbcache/cache.go:146-166 | one query of the code is a run of the protocol with one response, or none when a record does not decode |
| `CacheRuns.MatchesAreRecords` | cmd/reputationdbd/internal/dbcache/cache.go:154-163 | a query's matches are exactly the asked addresses that are keys of the mapped records and decode, each with its record |
| `CacheRuns.MatchesInOrder` | cmd/reputationdbd/internal/dbcache/cache.go:154-163 | they come in the order asked |
| `CacheRuns.CloseIsRun` | cmd/reputationdbd/internal/dbcache/cache.go:178-195 | one Close of the code is a run of the protocol that ends closed |
| `DbCaches.Cache.Release` | cmd/reputationdbd/internal/dbcache/cache.go:352-367 | the retired handle is closed, and its file removed unless it is the one in use |
| `DbCaches.Cache.Sweep` | cmd/reputationdbd/internal/dbcache/cache.go:369-396 | exactly the database files other than the kept one that can be removed are gone |
| `DbCaches.Cache.Load` | cmd/reputationdbd/internal/dbcache/cache.go:301-350 | a file that opens is swapped in, its predecessor released and the directory swept; one that does not changes nothing |
| `DbCaches.Cache.Download` | cmd/reputationdbd/internal/dbcache/cache.go:250-299 | the directory gains the whole file under its final name or nothing at all |
| `DbCaches.Cache.Refresh` | cmd/reputationdbd/internal/dbcache/cache.go:202-248 | the new state is the one Refreshed names, reached by a run of the protocol, and good again |
| `DbCaches.Cache.Query` | cmd/reputationdbd/internal/dbcache/cache.go:134-166 | a batch is answered from the one mapping under its date; it fails exactly when the record of an asked address does not decode, and otherwise has exactly the asked addresses that have one, each with it; nothing is loaded when nothing is mapped |
| `DbCaches.Cache.Close` | cmd/reputationdbd/internal/dbcache/cache.go:178-195 | nothing is mapped or open afterwards and no file is touched, by a run of the protocol |
| `CaddyStores.Store.UnloadMapped` | caddy/maat/store.go:337-346 | nothing is mapped afterwards, and the handle and file behind it are released |
| `CaddyStores.Store.Load` | caddy/maat/store.go:304-335 | a file that opens is swapped in and its predecessor released; nothing is swept |
| `CaddyStores.Store.Download` | caddy/maat/store.go:235-302 | what is mapped at the destination is given up before the move, and nothing else is |
| `CaddyStores.Store.Refresh` | caddy/maat/store.go:186-233 | the new state is the one Refreshed names, reached by a run of the protocol, and good again |
| `CaddyStores.Store.Lookup` | caddy/maat/store.go:128-143 | one address is answered with its record in what is mapped, as missing exactly when it has none and as failed exactly when it does not decode, or reported as not loaded |
| `CaddyStores.Store.Destruct` | caddy/maat/store.go:386-405 | nothing is mapped or open afterwards and no file is touched |
| `VersionIds.DecodeInvertsEncode` | internal/dbstore/keys.go:28-37 | decoding an unpadded URL-safe encoding gives back its bytes |
| `VersionIds.EncodeInvertsDecode` | cmd/reputationdbd/internal/svc/fetch/v1/fetch.go:129-135 | what the strict decoder accepts is the encoding of what it returns, so no string decodes with stray trailing bits (section 3.5 of RFC 4648) |
| `VersionIds.LettersAreTheAlphabet` | internal/dbstore/keys.go:36 | the letters are A to Z, a to z, 0 to 9, - and _, in this order (section 5 of RFC 4648) |
| `VersionIds.QuadIsBigEndian` | internal/dbstore/keys.go:36 | four letters are the 24 bits of three bytes, highest first |
| `VersionIds.StrippedByCharacter` | cmd/reputationdbd/internal/svc/fetch/v1/fetch.go:129-135 | what the decoder reads is the text without its carriage returns and line feeds |
| `VersionIds.AcceptsEveryVersion` | cmd/reputationdbd/internal/svc/fetch/v1/fetch.go:121-135 | the identifier of every 64-byte digest has 86 characters and is accepted |
| `VersionIds.VersionIdsDiffer` | internal/dbstore/keys.go:28-37 | different digests have different identifiers |
| `VersionIds.AcceptedExactlyVersions` | cmd/reputationdbd/internal/svc/fetch/v1/fetch.go:121-135 | a string is the identifier of a digest exactly when it is accepted and has no line break in it |
| `VersionIds.AcceptedExactlyEncodings` | cmd/reputationdbd/internal/svc/fetch/v1/fetch.go:129-135 | accepted are exactly the strings of the right length that, line breaks aside, encode some bytes |
| `VersionIds.LineBreaksSlipThrough` | cmd/reputationdbd/internal/svc/fetch/v1/fetch.go:129-135 | an accepted string with a line break that is no digest's identifier |
| `VersionIndexes.InsertVersion` | internal/dbstore/index.go:58-82 | the version comes first, earlier entries of it are dropped, kept and evicted together are all the others in order, and eviction begins only after ten |
| `VersionIndexes.InsertedHas` | internal/dbstore/index.go:58-82 | after an insertion a version is in the index exactly when it is the inserted one or among the nine newest others |
| `VersionIndexes.TrimOnce` | internal/dbstore/index.go:58-82 | trimming to ten at every insertion gives what trimming the whole history once gives |
| `VersionIndexes.IndexIsTenLatest` | internal/dbstore/index.go:58-82 | the index is the ten most recently published distinct versions, newest first, each with its latest metadata |
| `VersionIndexes.LatestPositions` | internal/dbstore/index.go:58-66 | those are read off at the positions, last first, after which the version is not published again |
| `Buckets.ObjectKeysDiffer` | internal/dbstore/keys.go:39-43 | different versions have different keys, and none of them is the index's |
| `Buckets.ExistsTellsTheTruth` | internal/dbstore/store.go:52-73 | an existence check never takes an error for absence nor a longer key for this one |
| `Buckets.LoadIsIndex` | internal/dbstore/store.go:75-104 | a loaded index is the bucket's; no failure passes for an empty index |
| `Buckets.PublishKeepsSound` | cmd/publish-database/main.go:87-110 | whichever call of a publication fails, the index names only databases that are there, none is lost, and the index is as before or has this version put in |
| `Buckets.IndexAfterSeries` | cmd/publish-database/main.go:87-110 | after any series of publications by one publisher the index is what the recorded versions alone give |
| `Buckets.SeriesKeepsTenLatest` | cmd/publish-database/main.go:96-110 | begun without an index, that is the ten most recently published versions, newest first, with their latest metadata |
| `Buckets.Store.Exists` | internal/dbstore/store.go:61-73 | the listing loop answers as the bucket stands, or not at all |
| `Buckets.Store.LoadIndex` | internal/dbstore/store.go:75-104 | the index in the bucket, empty when there is none, nothing on any failure |
| `Buckets.Store.Publish` | cmd/publish-database/main.go:64-127 | a reported success has the database stored and the version in the index; in every case the index names only databases that are there |
| `Publishing.StepKeeps` | cmd/publish-database/main.go:87-110 | every call of every publisher and request keeps the invariant and every database that is there |
| `Publishing.EveryIndexedVersionIsStored` | cmd/publish-database/main.go:92-110 | in every reachable state each version in the index, in the server's copy and in every copy in flight has its database in the bucket |
| `Publishing.UrlsStayGood` | cmd/reputationdbd/internal/svc/fetch/v1/fetch.go:189-229 | every URL handed out addresses the database of the version asked for, then and ever after |
| `Publishing.UploadStores` | internal/dbstore/store.go:125-137 | an upload that takes effect stores the database even when it is reported to have failed |
| `Publishing.UploadedStaysFetchable` | cmd/reputationdbd/internal/svc/fetch/v1/fetch.go:183-229 | from then on, whatever else happens, no fetch of the version is called malformed or not found, also after it has aged out of the index |
| `Publishing.NotFoundIsTrue` | cmd/reputationdbd/internal/svc/fetch/v1/fetch.go:203-212 | a fetch is told there is no such version only when there is none |
| `Publishing.StoredWerePublished` | cmd/publish-database/main.go:64-90 | whatever happens, the databases in the bucket were there to begin with or are ones that a publisher set out to upload |
| `Publishing.IndexIsRecent` | cmd/reputationdbd/internal/svc/fetch/v1/fetch.go:91-108 | every index a request works with, and every list handed out, is the bucket's as some load read it in one step; the step that ended that load and stamped the copy came less than a minute before the request took it |
| `Publishing.ServedIndexCanBeOlder` | cmd/reputationdbd/internal/svc/fetch/v1/fetch.go:99-106 | and there is no bound from the reading step: however long a load takes after it, a request that arrives 59 seconds after the load's end is handed an index that was replaced right after it was read |
| `Publishing.StillIndexed` | cmd/publish-database/main.go:92-110 | with any number of publishers, a version is in the index exactly when the last writer wrote it or it is among the nine newest others of the index as it stood when that writer loaded it |
| `Publishing.NewestStaysIndexed` | cmd/publish-database/main.go:92-110 | the newest version stays in the index through the next nine writes as long as no publisher that had loaded the index before it writes |
| `Publishing.SavedCanBeLost` | cmd/publish-database/main.go:92-110 | otherwise it can be lost: two publishers report success, both databases are there, the index has only the second |
| `Publishing.PublishIsRun` | cmd/publish-database/main.go:87-110 | one publication of the code, however its calls fare, is a run of the protocol |
| `FetchServers.Server.IndexCopy` | cmd/reputationdbd/internal/svc/fetch/v1/fetch.go:80-108 | within a minute the copy is served; after that the bucket's index or an error, never the old copy |
| `FetchServers.Server.FindVersion` | cmd/reputationdbd/internal/svc/fetch/v1/fetch.go:137-145 | the first entry of that version, or the knowledge that there is none |
| `FetchServers.Server.List` | cmd/reputationdbd/internal/svc/fetch/v1/fetch.go:110-119 | a list of versions that are all there, or unavailable; reply and copy are those of the request's run |
| `FetchServers.Server.InfoOf` | cmd/reputationdbd/internal/svc/fetch/v1/fetch.go:147-170 | details are of the version asked for and of one that is there; malformed identifiers and nothing else are rejected as such |
| `FetchServers.Server.FetchUrl` | cmd/reputationdbd/internal/svc/fetch/v1/fetch.go:183-229 | a URL is given for exactly the versions that are there unless a call fails; one that aged out is named by its identifier alone |
| `FetchServers.FetchIsRun` | cmd/reputationdbd/internal/svc/fetch/v1/fetch.go:91-229 | one request of the code, however its calls fare and however long its load takes, is a run of the protocol to the same reply and the same copy of the index |
| `FetchServers.CurrentIsStored` | cmd/reputationdbd/internal/dbcache/source.go:58-92 | the newest build reported has a version, and its database is there to be opened; nothing is reported exactly for an empty index |
| `FetchServers.PublishedIsCurrent` | cmd/reputationdbd/internal/dbcache/source.go:58-92 | after a publication that reached the index the newest build is that one, under its own date |
| `Queries.ParseAddrs` | cmd/reputationdbd/internal/svc/reputationdb/v1/reputationdb.go:32-59 | the distinct addresses in the order first asked about, each with its first spelling, or an error exactly when some spelling is no address |
| `Queries.EachAddressOnce` | cmd/reputationdbd/internal/svc/reputationdb/v1/reputationdb.go:32-59 | every address asked about is among them exactly once |
| `Queries.MappedSpellingIsTheSame` | cmd/reputationdbd/internal/svc/reputationdb/v1/reputationdb.go:38-51 | an IPv4 spelling and its mapped spelling make one record, under the first of them |
| `Queries.ToRecord` | cmd/reputationdbd/internal/svc/reputationdb/v1/reputationdb.go:61-91 | the record carries the spelling asked about and the flags, names and providers of the result, and its k-th source has the repository, list and provider of the k-th membership and the names of its categories between bars |
| `Queries.OneCategorySays` | categories.go:72-74 | the category text of a membership of one category is that name |
| `Queries.SplitJoined` | categories.go:72-74 | in general its pieces between bars are the names, in their order |
| `Queries.RenderedOnce` | cmd/reputationdbd/internal/svc/reputationdb/v1/reputationdb.go:70-91 | those properties leave only one record |
| `Queries.MissIsEmpty` | cmd/reputationdbd/internal/svc/reputationdb/v1/reputationdb.go:176-188 | an address without a record comes back with its spelling and nothing else |
| `Queries.Query` | cmd/reputationdbd/internal/svc/reputationdb/v1/reputationdb.go:141-195 | each way of answering, and exactly when, an internal error exactly when the record of an asked address does not decode; a response has one record per distinct address in first-occurrence order, with what the one mapped build has for it or nothing |
| `Queries.QueryAmidOthers` | cmd/reputationdbd/internal/svc/reputationdb/v1/reputationdb.go:141-195 | from whatever the lookups of a query returned in any reachable state, amid refreshes, other queries and Close, the handler composes records of one single build, the one whose date the response carries |
| `EndToEnd.ResponseTellsTheLists` | cmd/reputationdbd/internal/svc/reputationdb/v1/reputationdb.go:61-91 | the flags, category names, providers and sources of a record are exactly those of the memberships under which selected sources list its address, each source once, in key order, field by field |
| `EndToEnd.DownloadIsRelease` | cmd/reputationdbd/internal/dbcache/source.go:58-102 | reading the object of a build that was reported, however much was published in between, brings the published database of that very version |
| `EndToEnd.QueryTellsOneBuild` | cmd/reputationdbd/internal/svc/reputationdb/v1/reputationdb.go:141-195 | if publishers only upload databases that builds made, and the server downloads what its source reports, a response, whatever it interleaved with, tells of each address what the sources of one single published build list, under the date the index had for that build, and what is mapped goes by that build's version |

## Left out

- The text and JSON list parsers other than parsePrefixField, `netip` text parsing, and IPv6 zones: parsers are parameters that yield masked prefixes, or addresses.
- HTTP, git cloning, RIPEstat, gzip, zstd, protobuf and the bucket client: their results are parameters that may be failures.
- SHA-256 and SHA-512: a database file is named by its version and a published database is known by its digest, so both hashes count as injective.
- The per-source HTTP and RIPEstat caches, and file write errors in the repository cache other than stopping: readers of a finished file see it whole.
- Splitting a glob into its directory and file-name parts, `**` twice in one pattern, and the order of files inside one match.
- The entry counts that the collect functions return, logging, metrics, descriptions and database types.
- The order of `store.All()`: that broader prefixes are drained before narrower ones is a precondition of the drain.
- Which networks the search tree reserves and aliases: both are parameters; a reserved address has no record and an address in an alias has that of the IPv4 address in it.
- The place of the IPv4 space under `::/96`, and IPv6 prefixes over or inside it: one tree per family.
- `store.Get` failing during the drain: nothing else deletes from the table, so that branch is never taken.
- Several builds writing one repository cache at the same time, and a clock that runs backwards between builds.
- External calls of Refresh that overlap Close: in the protocol they have finished when Close begins and none begins later.
- Readers queued behind a waiting writer, and every other liveness question: the lock is only ever exclusive.
- Writing and reading the mmdb format: EndToEnd takes a mapped file to return what the search tree it was written from returns.
- Removing a staging file is taken to work; all other removals may fail.
- The ready channel, retry and refresh delays, timeouts and the download size limit.
- The reference-counted pool that shares Caddy stores, and two processes sharing one directory.
- A download cut short that still opens as a database: what opens is what was stored under the key it was read from.
- The order of the bucket's listing and eventual consistency: a listing is of the bucket as it stands.
- Objects that are not databases under a database's key: runs begin on a bucket without any.
- More than one fetch server: servers do not write to the bucket, so each is alone with the publishers.
- Matching.Matcher.Provision: placeholder expansion, lower-casing, the URL check and making the directory are parameters; sharing one store between matchers is not modelled.
