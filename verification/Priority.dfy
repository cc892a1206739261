/** How the configured list of sources decides which candidate supplies a field, which is processed first
    and in which order records come out (academic/aggregator.py, lines 93-109, 191-201 and 264-273). */
module Priority {
  import opened Aggregation
  import opened Clustering
  import opened Identity
  import opened Merging
  import opened Options
  import opened Ordering
  import opened Recency

  // ----- the list -----

  /** The last place of `s` in the list. */
  ghost predicate ListedAt(sources: seq<string>, s: string, i: nat)
  {
    i < |sources| && sources[i] == s != "" && forall j :: i < j < |sources| ==> sources[j] != s
  }

  predicate Listed(sources: seq<string>, s: string)
  {
    s in sources && s != ""
  }

  ghost function Names(sources: seq<string>): set<string>
  {
    set s | s in sources && s != ""
  }

  /** `s` is to be preferred to `t`: it stands before `t`, or it alone is listed, or neither is and only `t`
      is a language model or an agent. */
  ghost predicate Preferred(sources: seq<string>, s: string, t: string)
  {
    || (exists i: nat, j: nat :: ListedAt(sources, s, i) && ListedAt(sources, t, j) && i < j)
    || (Listed(sources, s) && !Listed(sources, t))
    || (!Listed(sources, s) && !Listed(sources, t) && !Generated(s) && Generated(t))
  }

  /** No name stands so far behind in the list that repeated or blank names push it out of it. */
  ghost predicate Compact(sources: seq<string>)
  {
    forall s, i: nat :: ListedAt(sources, s, i) ==> i <= |Names(sources)|
  }

  lemma {:induction false} RankOfHit(priority: Priority, hits: seq<Hit>, c: Candidate)
    requires c in NormalizeAll(priority, hits)
    ensures c.rank == SourceRank(priority, c.source) && c.source != ""
  {
    var front := hits[..|hits| - 1];
    if c in NormalizeAll(priority, front) {
      RankOfHit(priority, front, c);
    }
  }

  lemma PlaceIsPriority(priority: Priority, sources: seq<string>, s: string, i: nat)
    requires Configured(priority, sources) && ListedAt(sources, s, i)
    ensures s in priority && priority[s] == i
  {
    assert sources[i] in sources && s in priority.Keys;
  }

  lemma ListedHasPlace(priority: Priority, sources: seq<string>, s: string)
    requires Configured(priority, sources)
    ensures Listed(sources, s) <==> s in priority
    ensures s in priority ==> ListedAt(sources, s, priority[s])
    ensures |priority| == |Names(sources)|
  {
    assert s in priority <==> s in priority.Keys;
    assert priority.Keys == Names(sources);
  }

  /** Of two listed sources the one whose last place comes first ranks lower, whatever the list. */
  lemma ListedRankInOrder(priority: Priority, sources: seq<string>, hits: seq<Hit>, a: Candidate, b: Candidate,
                          i: nat, j: nat)
    requires Configured(priority, sources) && a in NormalizeAll(priority, hits) && b in NormalizeAll(priority, hits)
    requires ListedAt(sources, a.source, i) && ListedAt(sources, b.source, j)
    ensures a.rank < b.rank <==> i < j
  {
    RankOfHit(priority, hits, a);
    RankOfHit(priority, hits, b);
    PlaceIsPriority(priority, sources, a.source, i);
    PlaceIsPriority(priority, sources, b.source, j);
  }

  /** A listed source ranks before an unlisted academic one exactly when its last place is at most the number
      of different names, and before an unlisted generated one exactly when it is at most one more. */
  lemma ListedRanksFirstIff(priority: Priority, sources: seq<string>, hits: seq<Hit>, a: Candidate, b: Candidate,
                            i: nat)
    requires Configured(priority, sources) && a in NormalizeAll(priority, hits) && b in NormalizeAll(priority, hits)
    requires ListedAt(sources, a.source, i) && !Listed(sources, b.source)
    ensures a.rank < b.rank <==> i <= |Names(sources)| + (if Generated(b.source) then 1 else 0)
  {
    RankOfHit(priority, hits, a);
    RankOfHit(priority, hits, b);
    PlaceIsPriority(priority, sources, a.source, i);
    ListedHasPlace(priority, sources, b.source);
  }

  /** In a compact list, ranks are exactly the preference the list expresses. */
  lemma RanksFollowList(priority: Priority, sources: seq<string>, hits: seq<Hit>, a: Candidate, b: Candidate)
    requires Configured(priority, sources) && Compact(sources)
    requires a in NormalizeAll(priority, hits) && b in NormalizeAll(priority, hits)
    ensures a.rank < b.rank <==> Preferred(sources, a.source, b.source)
  {
    RankOfHit(priority, hits, a);
    RankOfHit(priority, hits, b);
    ListedHasPlace(priority, sources, a.source);
    ListedHasPlace(priority, sources, b.source);
    if i: nat, j: nat :| ListedAt(sources, a.source, i) && ListedAt(sources, b.source, j) && i < j {
      PlaceIsPriority(priority, sources, a.source, i);
      PlaceIsPriority(priority, sources, b.source, j);
    }
  }

  /** A list of different names, none of them blank, is compact. */
  lemma {:induction false} DifferentNames(sources: seq<string>)
    requires "" !in sources && forall i, j :: 0 <= i < j < |sources| ==> sources[i] != sources[j]
    ensures |Names(sources)| == |sources| && Compact(sources)
  {
    if sources == [] {
    } else {
      var n := |sources| - 1;
      DifferentNames(sources[..n]);
      assert sources == sources[..n] + [sources[n]];
      assert Names(sources) == Names(sources[..n]) + {sources[n]};
    }
  }

  /** With a name repeated often enough, a listed source falls behind unlisted ones. */
  lemma RepeatedNamesBuryOne(s: string, t: string)
    requires s != "" && t != "" && s != t
    ensures var sources := [s, s, s, s, t];
      ListedAt(sources, t, 4) && |Names(sources)| == 2 && !Compact(sources)
  {
    var sources := [s, s, s, s, t];
    assert sources[4] == t && ListedAt(sources, t, 4);
    assert Names(sources) == {s, t};
  }

  // ----- which member supplies a field -----

  /** `x` supplies a field before `m`: generated candidates come last, then the list decides, then the names
      of the sources and their ids. */
  ghost predicate Outranks(sources: seq<string>, x: Candidate, m: Candidate)
  {
    || (!Generated(x.source) && Generated(m.source))
    || (Generated(x.source) == Generated(m.source)
        && (|| Preferred(sources, x.source, m.source)
            || (!Preferred(sources, m.source, x.source)
                && (Precedes(x.source, m.source) || (x.source == m.source && Precedes(x.sourceId, m.sourceId))))))
  }

  lemma PrecedenceMeaning(priority: Priority, sources: seq<string>, hits: seq<Hit>, x: Candidate, m: Candidate)
    requires Configured(priority, sources) && Compact(sources)
    requires x in NormalizeAll(priority, hits) && m in NormalizeAll(priority, hits)
    ensures KeyLess(Precedence(x), Precedence(m)) <==> Outranks(sources, x, m)
  {
    RanksFollowList(priority, sources, hits, x, m);
    RanksFollowList(priority, sources, hits, m, x);
    StringLessMeaning(x.source, m.source);
    StringLessMeaning(x.sourceId, m.sourceId);
  }

  /** `m` has the field, and no member that has it outranks `m`. */
  ghost predicate BestSupplier<V>(sources: seq<string>, m: Candidate, cluster: Cluster, value: Candidate -> V,
                                  default: V)
  {
    && m in cluster && value(m) != default
    && forall x :: x in cluster && value(x) != default ==> !Outranks(sources, x, m)
  }

  /** The field comes from a member that no other with the field outranks, and is unset when no member has it. */
  ghost predicate FollowsList<V>(sources: seq<string>, cluster: Cluster, value: Candidate -> V, default: V, result: V)
  {
    || ((forall x :: x in cluster ==> value(x) == default) && result == default)
    || (exists m :: BestSupplier(sources, m, cluster, value, default) && result == value(m))
  }

  /** The members of the cluster are candidates of these hits. */
  ghost predicate FromHits(priority: Priority, hits: seq<Hit>, cluster: Cluster)
  {
    forall c :: c in cluster ==> c in NormalizeAll(priority, hits)
  }

  lemma RunClusterFromHits(priority: Priority, hits: seq<Hit>, cluster: Cluster)
    requires cluster in OrderedClusters(priority, hits)
    ensures FromHits(priority, hits, cluster)
  {
    var candidates := Processed(priority, hits);
    var clusters := Resolve(candidates).clusters;
    RunCluster(priority, hits, cluster);
    var i :| 0 <= i < |clusters| && clusters[i] == cluster;
    SortOnPermutes(NormalizeAll(priority, hits), ProcessingKey);
    forall c | c in cluster ensures c in NormalizeAll(priority, hits) {
      ClusteredWasProcessed(candidates, c, i);
      PermutationMembers(candidates, NormalizeAll(priority, hits), c);
    }
  }

  lemma LeastIsBest(priority: Priority, sources: seq<string>, hits: seq<Hit>, x: Candidate, m: Candidate)
    requires Configured(priority, sources) && Compact(sources)
    requires x in NormalizeAll(priority, hits) && m in NormalizeAll(priority, hits)
    requires KeyLe(Precedence(m), Precedence(x))
    ensures !Outranks(sources, x, m)
  {
    PrecedenceMeaning(priority, sources, hits, x, m);
    KeyLessTotal(Precedence(x), Precedence(m));
  }

  lemma SupplierIsBest<V>(priority: Priority, sources: seq<string>, hits: seq<Hit>, cluster: Cluster,
                          value: Candidate -> V, default: V, result: V)
    requires Configured(priority, sources) && Compact(sources) && FromHits(priority, hits, cluster)
    requires FieldFrom(cluster, value, default, result)
    ensures FollowsList(sources, cluster, value, default, result)
  {
    if exists x :: x in cluster && value(x) != default {
      var m :| Supplies(m, cluster, value, default) && result == value(m);
      forall x | x in cluster && value(x) != default ensures !Outranks(sources, x, m) {
        LeastIsBest(priority, sources, hits, x, m);
      }
      assert BestSupplier(sources, m, cluster, value, default);
    }
  }

  /** Title and URL come from a member that no other outranks, every scalar field from one that no other with
      the field outranks. */
  ghost predicate RecordFollowsList(sources: seq<string>, cluster: Cluster, r: PaperRecord)
  {
    && (exists m :: m in cluster && (forall x :: x in cluster ==> !Outranks(sources, x, m))
          && r.title == m.title.text && r.url == m.url)
    && FollowsList(sources, cluster, (c: Candidate) => c.authors, [], r.authors)
    && FollowsList(sources, cluster, (c: Candidate) => c.summary, "", r.summary)
    && FollowsList(sources, cluster, (c: Candidate) => c.published, None, r.published)
    && FollowsList(sources, cluster, (c: Candidate) => c.updated, None, r.updated)
    && FollowsList(sources, cluster, (c: Candidate) => c.pdfUrl, None, r.pdfUrl)
    && FollowsList(sources, cluster, (c: Candidate) => c.venue, "", r.venue)
    && FollowsList(sources, cluster, (c: Candidate) => c.openAccess, None, r.openAccess)
    && FollowsList(sources, cluster, (c: Candidate) => c.oaStatus, "", r.oaStatus)
    && FollowsList(sources, cluster, (c: Candidate) => c.license, "", r.license)
  }

  lemma MergedFollowsList(priority: Priority, sources: seq<string>, hits: seq<Hit>, cluster: Cluster)
    requires Configured(priority, sources) && Compact(sources) && FromHits(priority, hits, cluster) && cluster != []
    ensures RecordFollowsList(sources, cluster, MergedRecord(cluster))
  {
    var r := MergedRecord(cluster);
    MergedFields(cluster);
    LeastMember(cluster);
    var least := SortOn(cluster, Precedence)[0];
    forall x | x in cluster ensures !Outranks(sources, x, least) {
      LeastIsBest(priority, sources, hits, x, least);
    }
    SupplierIsBest(priority, sources, hits, cluster, (c: Candidate) => c.authors, [], r.authors);
    SupplierIsBest(priority, sources, hits, cluster, (c: Candidate) => c.summary, "", r.summary);
    SupplierIsBest(priority, sources, hits, cluster, (c: Candidate) => c.published, None, r.published);
    SupplierIsBest(priority, sources, hits, cluster, (c: Candidate) => c.updated, None, r.updated);
    SupplierIsBest(priority, sources, hits, cluster, (c: Candidate) => c.pdfUrl, None, r.pdfUrl);
    SupplierIsBest(priority, sources, hits, cluster, (c: Candidate) => c.venue, "", r.venue);
    SupplierIsBest(priority, sources, hits, cluster, (c: Candidate) => c.openAccess, None, r.openAccess);
    SupplierIsBest(priority, sources, hits, cluster, (c: Candidate) => c.oaStatus, "", r.oaStatus);
    SupplierIsBest(priority, sources, hits, cluster, (c: Candidate) => c.license, "", r.license);
  }

  /** Every record of an aggregation takes its title, its URL and each field from the member that the
      configured list prefers. */
  lemma RecordsFollowList(priority: Priority, sources: seq<string>, hits: seq<Hit>)
    requires Configured(priority, sources) && Compact(sources)
    ensures |Records(priority, hits)| == |OrderedClusters(priority, hits)|
    ensures forall k :: 0 <= k < |Records(priority, hits)| ==>
              RecordFollowsList(sources, OrderedClusters(priority, hits)[k], Records(priority, hits)[k])
  {
    var records, ordered := Records(priority, hits), OrderedClusters(priority, hits);
    RecordsOrderedByOrigin(priority, hits);
    forall k | 0 <= k < |records| ensures RecordFollowsList(sources, ordered[k], records[k]) {
      RunClusterFromHits(priority, hits, ordered[k]);
      MergedFollowsList(priority, sources, hits, ordered[k]);
    }
  }

  // ----- in which order candidates are processed and records come out -----

  /** `x` is processed before `y`: the list decides, then how early its source gave it, then the names. */
  ghost predicate ProcessedFirst(sources: seq<string>, x: Candidate, y: Candidate)
  {
    || Preferred(sources, x.source, y.source)
    || (!Preferred(sources, y.source, x.source)
        && (x.discovery < y.discovery || (x.discovery == y.discovery && Precedes(x.source, y.source))))
  }

  lemma ProcessingKeyMeaning(priority: Priority, sources: seq<string>, hits: seq<Hit>, x: Candidate, y: Candidate)
    requires Configured(priority, sources) && Compact(sources)
    requires x in NormalizeAll(priority, hits) && y in NormalizeAll(priority, hits)
    ensures KeyLess(ProcessingKey(x), ProcessingKey(y)) <==> ProcessedFirst(sources, x, y)
  {
    RanksFollowList(priority, sources, hits, x, y);
    RanksFollowList(priority, sources, hits, y, x);
    StringLessMeaning(x.source, y.source);
    if x.source == y.source && x.discovery == y.discovery {
      SameDiscoverySameCandidate(priority, hits, x, y);
      StringLessTotal(x.sourceId, y.sourceId);
    }
  }

  /** Candidates are processed in the order of the list, each source's in the order it gave them. */
  lemma ProcessedInListOrder(priority: Priority, sources: seq<string>, hits: seq<Hit>)
    requires Configured(priority, sources) && Compact(sources)
    ensures var ordered := Processed(priority, hits);
      forall i, j :: 0 <= i < j < |ordered| ==> ProcessedFirst(sources, ordered[i], ordered[j])
  {
    var ordered := Processed(priority, hits);
    ProcessingIsStrict(priority, hits);
    SortOnPermutes(NormalizeAll(priority, hits), ProcessingKey);
    forall i, j | 0 <= i < j < |ordered| ensures ProcessedFirst(sources, ordered[i], ordered[j]) {
      PermutationMembers(ordered, NormalizeAll(priority, hits), ordered[i]);
      PermutationMembers(ordered, NormalizeAll(priority, hits), ordered[j]);
      ProcessingKeyMeaning(priority, sources, hits, ordered[i], ordered[j]);
    }
  }

  /** `origin` is the member processed first. */
  ghost predicate OriginOf(sources: seq<string>, origin: Candidate, cluster: Cluster)
  {
    origin in cluster && forall c :: c in cluster ==> c == origin || ProcessedFirst(sources, origin, c)
  }

  lemma OriginExists(priority: Priority, sources: seq<string>, hits: seq<Hit>, cluster: Cluster)
    returns (origin: Candidate)
    requires Configured(priority, sources) && Compact(sources) && FromHits(priority, hits, cluster) && cluster != []
    ensures OriginOf(sources, origin, cluster) && ProcessingKey(origin) == OriginRank(cluster)
  {
    origin := OriginRankIsLeast(cluster);
    forall c | c in cluster ensures c == origin || ProcessedFirst(sources, origin, c) {
      ProcessingKeyMeaning(priority, sources, hits, origin, c);
      if ProcessingKey(origin) == ProcessingKey(c) {
        SameDiscoverySameCandidate(priority, hits, origin, c);
      }
    }
  }

  /** Of two records of an aggregation, the one whose first processed member came first comes first. */
  lemma RecordsInListOrder(priority: Priority, sources: seq<string>, hits: seq<Hit>, i: nat, j: nat)
    returns (a: Candidate, b: Candidate)
    requires Configured(priority, sources) && Compact(sources)
    requires i < j < |OrderedClusters(priority, hits)|
    ensures OriginOf(sources, a, OrderedClusters(priority, hits)[i])
    ensures OriginOf(sources, b, OrderedClusters(priority, hits)[j])
    ensures ProcessedFirst(sources, a, b)
  {
    var ordered := OrderedClusters(priority, hits);
    RecordsOrderedByOrigin(priority, hits);
    RunClusterFromHits(priority, hits, ordered[i]);
    RunClusterFromHits(priority, hits, ordered[j]);
    a := OriginExists(priority, sources, hits, ordered[i]);
    b := OriginExists(priority, sources, hits, ordered[j]);
    ProcessingKeyMeaning(priority, sources, hits, a, b);
  }

  // ----- two hits of one paper -----

  /** The field of `a` when it is set, of `b` when it is not. */
  function Either<V(==)>(value: Candidate -> V, a: Candidate, b: Candidate, default: V): V
  {
    if value(a) != default then value(a) else value(b)
  }

  /** Every field of the record is `a`'s where `a` has it, and `b`'s where it has not. */
  ghost predicate NamedBy(r: PaperRecord, a: Candidate, b: Candidate)
  {
    && r.title == a.title.text && r.url == a.url
    && r.authors == Either((c: Candidate) => c.authors, a, b, [])
    && r.summary == Either((c: Candidate) => c.summary, a, b, "")
    && r.published == Either((c: Candidate) => c.published, a, b, None)
    && r.updated == Either((c: Candidate) => c.updated, a, b, None)
    && r.pdfUrl == Either((c: Candidate) => c.pdfUrl, a, b, None)
    && r.venue == Either((c: Candidate) => c.venue, a, b, "")
    && r.openAccess == Either((c: Candidate) => c.openAccess, a, b, None)
    && r.oaStatus == Either((c: Candidate) => c.oaStatus, a, b, "")
    && r.license == Either((c: Candidate) => c.license, a, b, "")
  }

  lemma FirstOfTwo<V>(value: Candidate -> V, a: Candidate, b: Candidate, default: V)
    ensures FirstValue([a, b], value, default) == Either(value, a, b, default)
  {
    assert [a, b][1..] == [b];
    assert FirstValue([b], value, default) == value(b);
  }

  lemma SortTwo(a: Candidate, b: Candidate)
    requires KeyLess(Precedence(a), Precedence(b))
    ensures SortOn([b, a], Precedence) == [a, b]
  {
    KeyLessTotal(Precedence(a), Precedence(b));
    SortOnKeepsSorted([a], Precedence);
    assert [b, a][1..] == [a];
    assert InsertOn(b, [a], Precedence) == [a] + InsertOn(b, [], Precedence);
  }

  lemma MergedTwo(a: Candidate, b: Candidate)
    requires KeyLess(Precedence(a), Precedence(b))
    ensures NamedBy(MergedRecord([b, a]), a, b)
  {
    SortTwo(a, b);
    FirstOfTwo((c: Candidate) => c.authors, a, b, []);
    FirstOfTwo((c: Candidate) => c.summary, a, b, "");
    FirstOfTwo((c: Candidate) => c.published, a, b, None);
    FirstOfTwo((c: Candidate) => c.updated, a, b, None);
    FirstOfTwo((c: Candidate) => c.pdfUrl, a, b, None);
    FirstOfTwo((c: Candidate) => c.venue, a, b, "");
    FirstOfTwo((c: Candidate) => c.openAccess, a, b, None);
    FirstOfTwo((c: Candidate) => c.oaStatus, a, b, "");
    FirstOfTwo((c: Candidate) => c.license, a, b, "");
  }

  lemma NormalizeTwo(priority: Priority, first: Hit, second: Hit)
    requires first.source != second.source
    requires NormalizeHit(priority, first, 0).Some? && NormalizeHit(priority, second, 0).Some?
    ensures NormalizeAll(priority, [first, second]) ==
            [NormalizeHit(priority, first, 0).value, NormalizeHit(priority, second, 0).value]
  {
    NormalizeNext(priority, [], first);
    NormalizeNext(priority, [first], second);
    OfSourceNext([], first, second.source);
    assert [] + [first] == [first] && [first] + [second] == [first, second];
  }

  lemma EitherOrder(first: Hit, second: Hit)
    requires first.source != second.source
    ensures SamePerSource([first, second], [second, first])
  {
    forall s ensures OfSource([first, second], s) == OfSource([second, first], s) {
      OfSourceNext([], first, s);
      OfSourceNext([first], second, s);
      OfSourceNext([], second, s);
      OfSourceNext([second], first, s);
      assert [] + [first] == [first] && [first] + [second] == [first, second];
      assert [] + [second] == [second] && [second] + [first] == [second, first];
    }
  }

  /** Of two academic hits that share a DOI and do not contradict each other, the one whose source the list
      names first names the one record and supplies every field it has, whichever hit comes first. */
  lemma FirstListedSupplies(priority: Priority, sources: seq<string>, first: Hit, second: Hit, i: nat, j: nat)
    requires Configured(priority, sources) && i < j
    requires ListedAt(sources, first.source, i) && ListedAt(sources, second.source, j)
    requires !Generated(first.source) && !Generated(second.source)
    requires NormalizeHit(priority, first, 0).Some? && NormalizeHit(priority, second, 0).Some?
    requires var a, b := NormalizeHit(priority, first, 0).value, NormalizeHit(priority, second, 0).value;
      a.doi == b.doi != "" && OneIdentity([b, a])
    ensures var a, b := NormalizeHit(priority, first, 0).value, NormalizeHit(priority, second, 0).value;
      && |Records(priority, [first, second])| == 1
      && NamedBy(Records(priority, [first, second])[0], a, b)
      && Records(priority, [second, first]) == Records(priority, [first, second])
  {
    var a, b := NormalizeHit(priority, first, 0).value, NormalizeHit(priority, second, 0).value;
    NormalizeTwo(priority, first, second);
    assert a in NormalizeAll(priority, [first, second]) && b in NormalizeAll(priority, [first, second]);
    ListedRankInOrder(priority, sources, [first, second], a, b, i, j);
    SortOnKeepsSorted([a, b], ProcessingKey);
    SecondIsMergedFirst(a, b);
    OneRecord(priority, [first, second], [b, a]);
    MergedTwo(a, b);
    EitherOrder(first, second);
    AggregateIgnoresInterleaving(priority, [first, second], [second, first]);
  }
}
