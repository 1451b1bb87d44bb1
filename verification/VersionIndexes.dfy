/** The index of recent versions (internal/dbstore/index.go). */
module VersionIndexes {
  import opened Prefixes

  const MAX_VERSIONS := 10

  datatype Version = Version(id: string, createdAt: Option<int>, shasum: string, message: string)

  /** The versions other than id, in their order. */
  function Others(versions: seq<Version>, id: string): seq<Version> {
    if versions == [] then []
    else
      var before, last := versions[..|versions| - 1], versions[|versions| - 1];
      if last.id == id then Others(before, id) else Others(before, id) + [last]
  }

  function Trim(versions: seq<Version>): seq<Version> {
    if |versions| > MAX_VERSIONS then versions[..MAX_VERSIONS] else versions
  }

  function Inserted(versions: seq<Version>, v: Version): seq<Version> {
    Trim([v] + Others(versions, v.id))
  }

  /** InsertVersion: v first, then the rest without an earlier entry of the same version, cut after
      the ten newest; nothing is lost between what is kept and what is evicted. */
  method InsertVersion(versions: seq<Version>, v: Version) returns (kept: seq<Version>, evicted: seq<Version>)
    ensures kept == Inserted(versions, v)
    ensures kept + evicted == [v] + Others(versions, v.id)
    ensures evicted != [] ==> |kept| == MAX_VERSIONS
  {
    kept, evicted := [v], [];
    for i := 0 to |versions|
      invariant kept == [v] + Others(versions[..i], v.id)
    {
      assert versions[..i + 1][..i] == versions[..i];
      if versions[i].id == v.id {
        continue;
      }
      kept := kept + [versions[i]];
    }
    assert versions[..|versions|] == versions;
    if |kept| > MAX_VERSIONS {
      kept, evicted := kept[..MAX_VERSIONS], kept[MAX_VERSIONS..];
    }
  }

  /** The first entry of this version. */
  function Find(versions: seq<Version>, id: string): Option<Version> {
    if versions == [] then None
    else if versions[0].id == id then Some(versions[0])
    else Find(versions[1..], id)
  }

  lemma {:induction false} FindFinds(versions: seq<Version>, id: string)
    ensures Find(versions, id).Some? ==> Find(versions, id).value in versions && Find(versions, id).value.id == id
    ensures Find(versions, id) == None ==> forall v :: v in versions ==> v.id != id
  {
    if versions != [] && versions[0].id != id {
      FindFinds(versions[1..], id);
      assert versions == [versions[0]] + versions[1..];
    }
  }

  // ---- what an insertion keeps ----

  ghost predicate HasId(versions: seq<Version>, id: string) { exists v :: v in versions && v.id == id }

  function Newest(versions: seq<Version>, n: nat): seq<Version> {
    if |versions| > n then versions[..n] else versions
  }

  /** After an insertion a version is in the index exactly when it is the inserted one or among the
      nine newest others. */
  lemma InsertedHas(versions: seq<Version>, v: Version, id: string)
    ensures HasId(Inserted(versions, v), id) <==>
              id == v.id || HasId(Newest(Others(versions, v.id), MAX_VERSIONS - 1), id)
  {
    var rest := Others(versions, v.id);
    var kept := Newest(rest, MAX_VERSIONS - 1);
    assert Inserted(versions, v) == [v] + kept;
    assert forall u :: u in [v] + kept <==> u == v || u in kept;
  }

  /** An insertion moves a version back by at most one place. */
  lemma InsertedMovesBack(versions: seq<Version>, v: Version, id: string, n: nat)
    requires n < MAX_VERSIONS && HasId(Newest(versions, n), id)
    ensures HasId(Newest(Inserted(versions, v), n + 1), id)
  {
    if id != v.id {
      var head := Newest(versions, n);
      var tail := versions[|head|..];
      assert versions == head + tail;
      OthersAppend(head, tail, v.id);
      OthersFewer(head, v.id);
      var u :| u in head && u.id == id;
      OthersAre(head, v.id, u);
      var front := [v] + Others(head, v.id);
      assert [v] + Others(versions, v.id) == front + Others(tail, v.id);
      assert u in front && front <= Inserted(versions, v) && |front| <= n + 1;
      var k :| 0 <= k < |front| && front[k] == u;
      assert Newest(Inserted(versions, v), n + 1)[k] == u;
    } else {
      assert Inserted(versions, v)[0] == v == Newest(Inserted(versions, v), n + 1)[0];
    }
  }

  lemma {:induction false} OthersFewer(versions: seq<Version>, id: string)
    ensures |Others(versions, id)| <= |versions|
  {
    if versions != [] {
      OthersFewer(versions[..|versions| - 1], id);
    }
  }

  // ---- a history of publishing ----

  /** The index after publishing these versions one after the other, oldest first. */
  function IndexAfter(history: seq<Version>): seq<Version> {
    if history == [] then []
    else Inserted(IndexAfter(history[..|history| - 1]), history[|history| - 1])
  }

  /** The same without ever trimming. */
  function Untrimmed(history: seq<Version>): seq<Version> {
    if history == [] then []
    else
      var v := history[|history| - 1];
      [v] + Others(Untrimmed(history[..|history| - 1]), v.id)
  }

  predicate DistinctIds(versions: seq<Version>) {
    forall i, j :: 0 <= i < j < |versions| ==> versions[i].id != versions[j].id
  }

  /** Others keeps exactly the entries of other versions. */
  lemma {:induction false} OthersAre(versions: seq<Version>, id: string, v: Version)
    ensures v in Others(versions, id) <==> v in versions && v.id != id
  {
    if versions != [] {
      var before, last := versions[..|versions| - 1], versions[|versions| - 1];
      OthersAre(before, id, v);
      assert v in versions <==> v in before || v == last by { assert versions == before + [last]; }
      assert v in Others(before, id) + [last] <==> v in Others(before, id) || v == last;
    }
  }

  lemma DistinctSnoc(versions: seq<Version>, last: Version)
    requires DistinctIds(versions) && forall v :: v in versions ==> v.id != last.id
    ensures DistinctIds(versions + [last])
  {}

  lemma {:induction false} OthersDistinct(versions: seq<Version>, id: string)
    requires DistinctIds(versions)
    ensures DistinctIds(Others(versions, id))
  {
    if versions != [] {
      var before, last := versions[..|versions| - 1], versions[|versions| - 1];
      OthersDistinct(before, id);
      if last.id != id {
        forall v | v in Others(before, id) ensures v.id != last.id {
          OthersAre(before, id, v);
          var i :| 0 <= i < |before| && before[i] == v;
          assert versions[i].id != versions[|versions| - 1].id;
        }
        DistinctSnoc(Others(before, id), last);
      }
    }
  }

  lemma DistinctCons(v: Version, rest: seq<Version>)
    requires DistinctIds(rest) && forall u :: u in rest ==> u.id != v.id
    ensures DistinctIds([v] + rest)
  {}

  lemma {:induction false} OthersWithout(versions: seq<Version>, id: string)
    requires forall v :: v in versions ==> v.id != id
    ensures Others(versions, id) == versions
  {
    if versions != [] {
      var before, last := versions[..|versions| - 1], versions[|versions| - 1];
      assert forall v :: v in before ==> v in versions;
      OthersWithout(before, id);
      assert versions == before + [last];
    }
  }

  /** Dropping distinguishes nothing: it can be done on either side of a cut. */
  lemma {:induction false} OthersAppend(a: seq<Version>, b: seq<Version>, id: string)
    ensures Others(a + b, id) == Others(a, id) + Others(b, id)
  {
    if b == [] {
      assert a + b == a;
    } else {
      var before := b[..|b| - 1];
      OthersAppend(a, before, id);
      assert (a + b)[..|a + b| - 1] == a + before;
    }
  }

  /** At most one of distinct versions is dropped. */
  lemma {:induction false} OthersDropOne(versions: seq<Version>, id: string)
    requires DistinctIds(versions)
    ensures |Others(versions, id)| >= |versions| - 1
  {
    if versions != [] {
      var before, last := versions[..|versions| - 1], versions[|versions| - 1];
      if last.id == id {
        OthersWithout(before, id);
      } else {
        OthersDropOne(before, id);
      }
    }
  }

  /** Trimming before an insertion makes no difference after it. */
  lemma TrimThenInsert(versions: seq<Version>, v: Version)
    requires DistinctIds(versions)
    ensures Inserted(Trim(versions), v) == Inserted(versions, v)
  {
    if |versions| > MAX_VERSIONS {
      var head, tail := versions[..MAX_VERSIONS], versions[MAX_VERSIONS..];
      assert versions == head + tail;
      OthersAppend(head, tail, v.id);
      OthersDropOne(head, v.id);
      var a, b := [v] + Others(head, v.id), Others(tail, v.id);
      assert [v] + Others(versions, v.id) == a + b;
      assert Trim(a) == Trim(a + b) by { TrimPrefix(a, b); }
    }
  }

  lemma TrimPrefix(a: seq<Version>, b: seq<Version>)
    requires |a| >= MAX_VERSIONS
    ensures Trim(a + b) == Trim(a)
  {
    assert (a + b)[..MAX_VERSIONS] == a[..MAX_VERSIONS];
  }

  /** Trimming to ten at every step is trimming the whole history once. */
  lemma {:induction false} TrimOnce(history: seq<Version>)
    ensures IndexAfter(history) == Trim(Untrimmed(history))
    ensures DistinctIds(Untrimmed(history))
  {
    if history != [] {
      var before, v := history[..|history| - 1], history[|history| - 1];
      TrimOnce(before);
      TrimThenInsert(Untrimmed(before), v);
      OthersDistinct(Untrimmed(before), v.id);
      forall u | u in Others(Untrimmed(before), v.id) ensures u.id != v.id { OthersAre(Untrimmed(before), v.id, u); }
      DistinctCons(v, Others(Untrimmed(before), v.id));
    }
  }

  // ---- what that is ----

  /** Position i of the history is the latest publication of its version. */
  predicate Latest(history: seq<Version>, i: nat) {
    i < |history| && forall j :: i < j < |history| ==> history[j].id != history[i].id
  }

  /** The positions whose publication is the latest of its version, last first. */
  function LatestPositions(history: seq<Version>, n: nat): (ps: seq<nat>)
    requires n <= |history|
    ensures forall k :: 0 <= k < |ps| ==> ps[k] < n && Latest(history, ps[k])
    ensures forall k, m :: 0 <= k < m < |ps| ==> ps[m] < ps[k]
    ensures forall i :: 0 <= i < n && Latest(history, i) ==> i in ps
  {
    if n == 0 then []
    else if Latest(history, n - 1) then [n - 1] + LatestPositions(history, n - 1)
    else LatestPositions(history, n - 1)
  }

  function At(history: seq<Version>, ps: seq<nat>): seq<Version>
    requires forall k :: 0 <= k < |ps| ==> ps[k] < |history|
  {
    seq(|ps|, k requires 0 <= k < |ps| => history[ps[k]])
  }

  /** What was the latest of its version still is, unless it is of the version published now. */
  lemma LatestAfter(before: seq<Version>, v: Version, i: nat)
    requires i < |before|
    ensures Latest(before + [v], i) <==> Latest(before, i) && before[i].id != v.id
  {
    var history := before + [v];
    assert history[|before|] == v && history[i] == before[i];
    assert forall j :: 0 <= j < |before| ==> history[j] == before[j];
  }

  lemma OthersOfOne(u: Version, id: string)
    ensures Others([u], id) == if u.id == id then [] else [u]
  {
    assert [u][..0] == [];
  }

  lemma AtCons(history: seq<Version>, p: nat, ps: seq<nat>)
    requires p < |history| && forall k :: 0 <= k < |ps| ==> ps[k] < |history|
    ensures At(history, [p] + ps) == [history[p]] + At(history, ps)
  {}

  /** A publication supersedes the earlier ones of its version and only those. */
  lemma {:induction false} Supersedes(before: seq<Version>, v: Version, n: nat)
    requires n <= |before|
    ensures At(before + [v], LatestPositions(before + [v], n)) == Others(At(before, LatestPositions(before, n)), v.id)
  {
    var history := before + [v];
    if n > 0 {
      Supersedes(before, v, n - 1);
      LatestAfter(before, v, n - 1);
      var u, ps, qs := before[n - 1], LatestPositions(before, n - 1), LatestPositions(history, n - 1);
      if Latest(before, n - 1) {
        AtCons(before, n - 1, ps);
        OthersAppend([u], At(before, ps), v.id);
        OthersOfOne(u, v.id);
        AtCons(history, n - 1, qs);
      }
    }
  }

  /** The index is the ten most recently published versions, newest first, each with its latest
      metadata. */
  lemma {:induction false} IndexIsTenLatest(history: seq<Version>)
    ensures IndexAfter(history) == Trim(At(history, LatestPositions(history, |history|)))
  {
    TrimOnce(history);
    UntrimmedIsLatest(history);
  }

  lemma LatestSnoc(before: seq<Version>, v: Version)
    ensures
      var history, n := before + [v], |before|;
      LatestPositions(history, n + 1) == [n] + LatestPositions(history, n)
  {
    assert Latest(before + [v], |before|);
  }

  lemma {:induction false} UntrimmedIsLatest(history: seq<Version>)
    ensures Untrimmed(history) == At(history, LatestPositions(history, |history|))
  {
    if history != [] {
      var before, v := history[..|history| - 1], history[|history| - 1];
      assert history == before + [v];
      UntrimmedIsLatest(before);
      Supersedes(before, v, |before|);
      LatestSnoc(before, v);
      AtCons(history, |before|, LatestPositions(history, |before|));
    }
  }
}
