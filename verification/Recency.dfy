/** Which of several hits with one source and one source id supplies a merged field: the cluster lists
    put later candidates first, and the precedence sort is stable. */
module Recency {
  import opened Aggregation
  import opened Clustering
  import opened Folds
  import opened Identity
  import opened Merging
  import opened Options
  import opened Ordering

  /** Candidates with one source key stand latest discovered first. */
  ghost predicate LatestFirst(members: seq<Candidate>)
  {
    forall p, q :: 0 <= p < q < |members| && SourceKey(members[p]) == SourceKey(members[q]) ==>
      members[p].discovery > members[q].discovery
  }

  ghost predicate AllLatestFirst(clusters: seq<Cluster>)
  {
    forall i :: 0 <= i < |clusters| ==> LatestFirst(clusters[i])
  }

  lemma {:induction false} FlattenLatestFirst(clusters: seq<Cluster>)
    requires AllLatestFirst(clusters) && Separated(clusters)
    ensures LatestFirst(Flatten(clusters))
  {
    if clusters == [] {
    } else {
      var n := |clusters| - 1;
      var front, last := Flatten(clusters[..n]), clusters[n];
      FlattenLatestFirst(clusters[..n]);
      forall a, b | a in front && b in last ensures SourceKey(a) != SourceKey(b) {
        FlattenMembers(clusters[..n], a);
        var i :| 0 <= i < n && a in clusters[..n][i];
        assert a in clusters[i];
        assert !StronglyLinked(a, b);
      }
    }
  }

  /** `c` was discovered after every clustered candidate with its source key. */
  ghost predicate Newest(clusters: seq<Cluster>, c: Candidate)
  {
    forall i, e :: 0 <= i < |clusters| && e in clusters[i] && SourceKey(e) == SourceKey(c) ==> e.discovery < c.discovery
  }

  lemma AttachLatestFirst(clusters: seq<Cluster>, c: Candidate)
    requires AllLatestFirst(clusters) && Separated(clusters) && Newest(clusters, c)
    ensures AllLatestFirst(Attach(clusters, c))
  {
    var chosen := Ascending(|clusters|, References(clusters, c));
    var referenced := Pick(clusters, chosen);
    PickKeepsSeparated(clusters, |clusters|, References(clusters, c));
    FlattenLatestFirst(referenced);
    forall e | e in Flatten(referenced) && SourceKey(e) == SourceKey(c) ensures e.discovery < c.discovery {
      FlattenMembers(referenced, e);
      var k :| 0 <= k < |referenced| && e in referenced[k];
      assert e in clusters[chosen[k]];
    }
    LatestFirstCons(c, Flatten(referenced));
  }

  /** Later candidates of one source carry larger discovery indexes. */
  ghost predicate DiscoveryOrdered(candidates: seq<Candidate>)
  {
    forall i, j :: 0 <= i < j < |candidates| && candidates[i].source == candidates[j].source ==>
      candidates[i].discovery < candidates[j].discovery
  }

  lemma {:induction false} ResolveLatestFirst(candidates: seq<Candidate>)
    requires DiscoveryOrdered(candidates)
    ensures AllLatestFirst(Resolve(candidates).clusters)
  {
    if candidates == [] {
    } else {
      var front, c := candidates[..|candidates| - 1], candidates[|candidates| - 1];
      var clusters := Resolve(front).clusters;
      ResolveLatestFirst(front);
      FoldNext(Next, EMPTY_RUN, front, c);
      assert front + [c] == candidates;
      ResolveWellClustered(front);
      forall i, e | 0 <= i < |clusters| && e in clusters[i] && SourceKey(e) == SourceKey(c)
        ensures e.discovery < c.discovery
      {
        ClusteredWasProcessed(front, e, i);
      }
      AttachLatestFirst(clusters, c);
    }
  }

  lemma ProcessedDiscoveryOrdered(priority: Priority, hits: seq<Hit>)
    ensures DiscoveryOrdered(Processed(priority, hits))
  {
    var candidates, ordered := NormalizeAll(priority, hits), Processed(priority, hits);
    ProcessingIsStrict(priority, hits);
    SortOnPermutes(candidates, ProcessingKey);
    forall i, j | 0 <= i < j < |ordered| && ordered[i].source == ordered[j].source
      ensures ordered[i].discovery < ordered[j].discovery
    {
      PermutationMembers(ordered, candidates, ordered[i]);
      PermutationMembers(ordered, candidates, ordered[j]);
      DiscoveryBelow(priority, hits, ordered[i]);
      DiscoveryBelow(priority, hits, ordered[j]);
      ProcessingKeysDiffer(priority, hits);
      assert KeyLess(ProcessingKey(ordered[i]), ProcessingKey(ordered[j]));
      if ordered[i].discovery == ordered[j].discovery {
        SameDiscoverySameCandidate(priority, hits, ordered[i], ordered[j]);
        KeyLessTotal(ProcessingKey(ordered[i]), ProcessingKey(ordered[j]));
      }
    }
  }

  lemma {:induction false} SameDiscoverySameCandidate(priority: Priority, hits: seq<Hit>, a: Candidate, b: Candidate)
    requires a in NormalizeAll(priority, hits) && b in NormalizeAll(priority, hits)
    requires a.source == b.source && a.discovery == b.discovery
    ensures a == b
  {
    var front, last := hits[..|hits| - 1], hits[|hits| - 1];
    var before := NormalizeAll(priority, front);
    if a in before { DiscoveryBelow(priority, front, a); }
    if b in before { DiscoveryBelow(priority, front, b); }
    if a in before && b in before { SameDiscoverySameCandidate(priority, front, a, b); }
  }

  // ----- the stable precedence sort -----

  /** Candidates with one source key have one precedence. */
  ghost predicate KeyedPrecedence(x: Candidate, xs: seq<Candidate>)
  {
    forall y :: y in xs && SourceKey(y) == SourceKey(x) ==> Precedence(y) == Precedence(x)
  }

  lemma InsertedMembers(x: Candidate, xs: seq<Candidate>)
    ensures forall y :: y in InsertOn(x, xs, Precedence) ==> y == x || y in xs
  {
    InsertOnPermutes(x, xs, Precedence);
    forall y | y in InsertOn(x, xs, Precedence) ensures y == x || y in xs {
      assert y in multiset(InsertOn(x, xs, Precedence));
    }
  }

  lemma LatestFirstCons(first: Candidate, rest: seq<Candidate>)
    requires LatestFirst(rest) && forall y :: y in rest && SourceKey(y) == SourceKey(first) ==>
        first.discovery > y.discovery
    ensures LatestFirst([first] + rest)
  {
  }

  lemma {:induction false} InsertLatestFirst(x: Candidate, xs: seq<Candidate>)
    requires LatestFirst(xs) && SortedOn(xs, Precedence) && KeyedPrecedence(x, xs)
    requires forall y :: y in xs && SourceKey(y) == SourceKey(x) ==> x.discovery > y.discovery
    ensures LatestFirst(InsertOn(x, xs, Precedence))
  {
    if xs == [] || KeyLe(Precedence(x), Precedence(xs[0])) {
    } else {
      assert SourceKey(xs[0]) != SourceKey(x);
      InsertLatestFirst(x, xs[1..]);
      InsertedMembers(x, xs[1..]);
      assert forall y :: y in xs[1..] && SourceKey(y) == SourceKey(xs[0]) ==> xs[0].discovery > y.discovery;
      LatestFirstCons(xs[0], InsertOn(x, xs[1..], Precedence));
    }
  }

  /** The source rank of a candidate is fixed by its source. */
  ghost predicate RankedBySource(members: seq<Candidate>)
  {
    forall a, b :: a in members && b in members && a.source == b.source ==> a.rank == b.rank
  }

  lemma {:induction false} SortLatestFirst(members: seq<Candidate>)
    requires LatestFirst(members) && RankedBySource(members)
    ensures LatestFirst(SortOn(members, Precedence))
  {
    if members == [] {
    } else {
      var rest := SortOn(members[1..], Precedence);
      SortLatestFirst(members[1..]);
      SortOnSorted(members[1..], Precedence);
      SortOnPermutes(members[1..], Precedence);
      forall y | y in [members[0]] + rest ensures y in members {
        if y in rest { PermutationMembers(rest, members[1..], y); }
      }
      forall y | y in rest && SourceKey(y) == SourceKey(members[0]) ensures members[0].discovery > y.discovery {
        PermutationMembers(rest, members[1..], y);
        var k :| 0 <= k < |members[1..]| && members[1..][k] == y;
        assert members[k + 1] == y;
      }
      InsertLatestFirst(members[0], rest);
    }
  }

  /** `m` supplies a field, and is the latest discovered among equals in precedence that have it set. */
  ghost predicate SuppliesLatest<V>(m: Candidate, cluster: Cluster, value: Candidate -> V, default: V)
  {
    && Supplies(m, cluster, value, default)
    && forall x :: x in cluster && value(x) != default && SourceKey(x) == SourceKey(m) ==> x.discovery <= m.discovery
  }

  lemma HeadSuppliesLatest<V>(sorted: seq<Candidate>, value: Candidate -> V, default: V)
    requires SortedOn(sorted, Precedence) && LatestFirst(sorted)
    requires sorted != [] && value(sorted[0]) != default
    ensures SuppliesLatest(sorted[0], sorted, value, default)
  {
  }

  lemma TailSuppliesLatest<V>(sorted: seq<Candidate>, value: Candidate -> V, default: V, m: Candidate)
    requires sorted != [] && value(sorted[0]) == default
    requires SuppliesLatest(m, sorted[1..], value, default)
    ensures SuppliesLatest(m, sorted, value, default)
  {
    assert forall x :: x in sorted ==> x == sorted[0] || x in sorted[1..];
  }

  lemma {:induction false} FirstValueLatest<V>(sorted: seq<Candidate>, value: Candidate -> V, default: V)
    requires SortedOn(sorted, Precedence) && LatestFirst(sorted)
    requires exists x :: x in sorted && value(x) != default
    ensures exists m :: SuppliesLatest(m, sorted, value, default) && FirstValue(sorted, value, default) == value(m)
  {
    if value(sorted[0]) != default {
      HeadSuppliesLatest(sorted, value, default);
    } else {
      var x :| x in sorted && value(x) != default;
      assert x in sorted[1..];
      FirstValueLatest(sorted[1..], value, default);
      var m :| SuppliesLatest(m, sorted[1..], value, default) && FirstValue(sorted, value, default) == value(m);
      TailSuppliesLatest(sorted, value, default, m);
    }
  }

  /** In the clusters of any aggregation, a field that several hits with one source and one source id
      set is taken from the hit discovered last. */
  lemma DuplicatesYieldLatest<V>(priority: Priority, hits: seq<Hit>, i: nat, value: Candidate -> V, default: V)
    requires i < |Resolve(Processed(priority, hits)).clusters|
    requires exists x :: x in Resolve(Processed(priority, hits)).clusters[i] && value(x) != default
    ensures var cluster := Resolve(Processed(priority, hits)).clusters[i];
      exists m :: SuppliesLatest(m, cluster, value, default)
        && FirstValue(SortOn(cluster, Precedence), value, default) == value(m)
  {
    var candidates := Processed(priority, hits);
    var cluster := Resolve(candidates).clusters[i];
    var sorted := SortOn(cluster, Precedence);
    ProcessedDiscoveryOrdered(priority, hits);
    ResolveLatestFirst(candidates);
    ClusterRankedBySource(priority, hits, i);
    SortLatestFirst(cluster);
    SortOnSorted(cluster, Precedence);
    SortOnPermutes(cluster, Precedence);
    forall x ensures x in sorted <==> x in cluster { PermutationMembers(sorted, cluster, x); }
    FirstValueLatest(sorted, value, default);
    var m :| SuppliesLatest(m, sorted, value, default) && FirstValue(sorted, value, default) == value(m);
    assert SuppliesLatest(m, cluster, value, default);
  }

  lemma ClusterRankedBySource(priority: Priority, hits: seq<Hit>, i: nat)
    requires i < |Resolve(Processed(priority, hits)).clusters|
    ensures RankedBySource(Resolve(Processed(priority, hits)).clusters[i])
  {
    var cluster := Resolve(Processed(priority, hits)).clusters[i];
    SortOnPermutes(NormalizeAll(priority, hits), ProcessingKey);
    forall c | c in cluster ensures c.rank == SourceRank(priority, c.source) {
      ClusteredWasProcessed(Processed(priority, hits), c, i);
      PermutationMembers(Processed(priority, hits), NormalizeAll(priority, hits), c);
      DiscoveryBelow(priority, hits, c);
    }
  }

  // ----- two hits of one paper -----

  lemma TwoNormalize(priority: Priority, first: Hit, second: Hit)
    requires first.source == second.source
    requires NormalizeHit(priority, first, 0).Some? && NormalizeHit(priority, second, 1).Some?
    ensures Processed(priority, [first, second]) ==
            [NormalizeHit(priority, first, 0).value, NormalizeHit(priority, second, 1).value]
  {
    NormalizeNext(priority, [], first);
    NormalizeNext(priority, [first], second);
    OfSourceNext([], first, second.source);
    assert [] + [first] == [first] && [first] + [second] == [first, second];
    SortOnKeepsSorted(NormalizeAll(priority, [first, second]), ProcessingKey);
  }

  lemma RefersToIt(a: Candidate, b: Candidate)
    requires StronglyLinked(a, b)
    ensures References([[a]], b) == {0}
  {
    assert a in [a];
    assert 0 in StrongReferences([[a]], b);
  }

  lemma MergesBoth(a: Candidate, b: Candidate)
    requires References([[a]], b) == {0}
    ensures Merged([[a]], b) == [b, a] && Untouched([[a]], b) == []
  {
    assert Ascending(1, {0}) == [0] by { AscendingNone(0, {}); }
    assert Pick([[a]], [0]) == [[a]];
    FlattenAppend([], [a]);
    assert [] + [[a]] == [[a]];
    assert Below(1) - {0} == {};
    AscendingNone(1, {});
  }

  lemma SecondIsMergedFirst(a: Candidate, b: Candidate)
    requires StronglyLinked(a, b) && OneIdentity([b, a])
    ensures Resolve([a, b]).clusters == [[b, a]]
  {
    RefersToIt(a, b);
    MergesBoth(a, b);
    ResolveOne(a);
    FoldNext(Next, EMPTY_RUN, [a], b);
    assert [a] + [b] == [a, b];
  }

  lemma MergedPair(a: Candidate, b: Candidate)
    requires Precedence(a) == Precedence(b)
    ensures MergedRecord([b, a]).title == b.title.text
    ensures MergedRecord([b, a]).summary == if b.summary != "" then b.summary else a.summary
  {
    SortOnKeepsSorted([b, a], Precedence);
    assert [b, a][1..] == [a];
    assert FirstValue([a], (c: Candidate) => c.summary, "") == a.summary;
  }

  lemma OneRecord(priority: Priority, hits: seq<Hit>, cluster: Cluster)
    requires Resolve(Processed(priority, hits)).clusters == [cluster]
    ensures cluster != [] && Records(priority, hits) == [MergedRecord(cluster)]
  {
    SortOnKeepsSorted([cluster], OriginRank);
    OrderedClustersNonempty(priority, hits);
    assert OrderedClusters(priority, hits)[0] == cluster;
  }

  /** Of two hits with one source and one source id that do not contradict each other, the second names
      the paper and supplies its abstract. */
  lemma SecondHitSupplies(priority: Priority, first: Hit, second: Hit)
    requires first.source == second.source && first.sourceId == second.sourceId
    requires NormalizeHit(priority, first, 0).Some? && NormalizeHit(priority, second, 1).Some?
    requires OneIdentity([NormalizeHit(priority, second, 1).value, NormalizeHit(priority, first, 0).value])
    ensures var records := Records(priority, [first, second]);
      && |records| == 1
      && records[0].title == second.title.text
      && records[0].summary == if second.summary != "" then second.summary else first.summary
  {
    var a, b := NormalizeHit(priority, first, 0).value, NormalizeHit(priority, second, 1).value;
    TwoNormalize(priority, first, second);
    SecondIsMergedFirst(a, b);
    OneRecord(priority, [first, second], [b, a]);
    MergedPair(a, b);
  }

  /** So an abstract can be replaced by a later hit of the same paper. */
  lemma LaterAbstractReplaces() returns (hits: seq<Hit>)
    ensures |hits| == 2 && hits[0].source == hits[1].source && hits[0].sourceId == hits[1].sourceId
    ensures hits[0].summary != "" && hits[0].summary != hits[1].summary
    ensures var records := Records(map[], hits); |records| == 1 && records[0].summary == hits[1].summary
  {
    var url := Some("https://core.ac.uk/1");
    var first :=
      Hit("core", Some("1"), Folded("P", "p"), [], "a", Some(""), Some(""), Some(None), Some(None), url, None,
        "", [], None, None, "", "");
    var second := first.(summary := "b");
    hits := [first, second];
    assert first.summary[0] != second.summary[0];
    SecondHitSupplies(map[], first, second);
  }
}
