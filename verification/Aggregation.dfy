/** The whole aggregation: normalize, sort, attach, sort, merge (academic/aggregator.py, lines 93-201,
    264-273), and its independence from how provider results interleave. */
module Aggregation {
  import opened Clustering
  import opened Identity
  import opened Merging
  import opened Options
  import opened Ordering
  import opened PaperClusters

  /** A provider hit after each field went through its own string normalizer: a blank `source` was
      not a source name; `None` in an identifier, a date or the landing URL was present but invalid;
      a blank DOI or arXiv id was absent. */
  datatype Hit = Hit(
    source: string,
    sourceId: Option<string>,
    title: Folded,
    authors: seq<Folded>,
    summary: string,
    doi: Option<string>,
    arxivId: Option<string>,
    published: Option<Option<Date>>,
    updated: Option<Option<Date>>,
    url: Option<string>,
    pdfUrl: Option<string>,
    venue: string,
    topics: seq<Folded>,
    citationCount: Option<nat>,
    openAccess: Option<bool>,
    oaStatus: string,
    license: string)

  type Priority = map<string, nat>

  function SourceRank(priority: Priority, source: string): int
  {
    if source in priority then priority[source]
    else if Generated(source) then |priority| + 2
    else |priority| + 1
  }

  /** Crossref and arXiv records carry their own identifier as the DOI and the arXiv id; a hit that
      contradicts this is refused. */
  function NormalizeHit(priority: Priority, hit: Hit, discovery: nat): Option<Candidate>
  {
    if hit.source == "" || hit.title.text == "" || hit.sourceId.None? || hit.sourceId.value == "" then None
    else if hit.doi.None? || hit.arxivId.None? then None
    else if hit.source == "crossref" && hit.doi.value != "" && hit.doi.value != hit.sourceId.value then None
    else if hit.source == "arxiv" && hit.arxivId.value != "" && hit.arxivId.value != hit.sourceId.value then None
    else if hit.published.None? || hit.updated.None? || hit.url.None? then None
    else
      Some(Candidate(
        hit.source, hit.sourceId.value, hit.title, hit.authors, hit.summary,
        if hit.source == "crossref" then hit.sourceId.value else hit.doi.value,
        if hit.source == "arxiv" then hit.sourceId.value else hit.arxivId.value,
        hit.published.value, hit.updated.value, hit.url.value, hit.pdfUrl, hit.venue, hit.topics,
        hit.citationCount, hit.openAccess, hit.oaStatus, hit.license,
        SourceRank(priority, hit.source), discovery))
  }

  /** The identifier a source carries of itself contradicts the hit's own. */
  predicate Contradicts(hit: Hit, id: string)
  {
    || (hit.source == "crossref" && hit.doi.Some? && hit.doi.value !in {"", id})
    || (hit.source == "arxiv" && hit.arxivId.Some? && hit.arxivId.value !in {"", id})
  }

  /** A hit is used exactly when it has a source, a title, an id and a valid URL, nothing in it is malformed,
      and its identifiers do not contradict each other. */
  predicate Usable(hit: Hit)
  {
    && hit.source != "" && hit.title.text != "" && hit.url.Some?
    && hit.sourceId.Some? && hit.sourceId.value != "" && !Contradicts(hit, hit.sourceId.value)
    && hit.doi.Some? && hit.arxivId.Some? && hit.published.Some? && hit.updated.Some?
  }

  /** A used hit keeps its fields; a crossref record always has its id as the DOI, an arXiv record as the
      arXiv id. */
  lemma NormalizeMeaning(priority: Priority, hit: Hit, discovery: nat)
    ensures NormalizeHit(priority, hit, discovery).Some? <==> Usable(hit)
    ensures Usable(hit) ==>
      var c := NormalizeHit(priority, hit, discovery).value;
      && Some(c.sourceId) == hit.sourceId && Some(c.url) == hit.url
      && Some(c.published) == hit.published && Some(c.updated) == hit.updated
      && (c.source, c.title, c.authors, c.summary) == (hit.source, hit.title, hit.authors, hit.summary)
      && (c.pdfUrl, c.venue, c.topics) == (hit.pdfUrl, hit.venue, hit.topics)
      && (c.citationCount, c.openAccess) == (hit.citationCount, hit.openAccess)
      && (c.oaStatus, c.license, c.discovery) == (hit.oaStatus, hit.license, discovery)
      && (c.doi == hit.doi.value || (c.source == "crossref" && hit.doi.value == ""))
      && (c.arxivId == hit.arxivId.value || (c.source == "arxiv" && hit.arxivId.value == ""))
      && (c.source == "crossref" ==> c.doi == c.sourceId) && (c.source == "arxiv" ==> c.arxivId == c.sourceId)
  {
  }

  function OfSource(hits: seq<Hit>, source: string): seq<Hit>
  {
    if hits == [] then []
    else
      var front, last := OfSource(hits[..|hits| - 1], source), hits[|hits| - 1];
      if last.source == source then front + [last] else front
  }

  /** The candidates of `hits` in order; a hit's discovery index counts the earlier hits of its source. */
  function NormalizeAll(priority: Priority, hits: seq<Hit>): seq<Candidate>
  {
    if hits == [] then []
    else
      var front, last := hits[..|hits| - 1], hits[|hits| - 1];
      var candidate := NormalizeHit(priority, last, |OfSource(front, last.source)|);
      if candidate.Some? then NormalizeAll(priority, front) + [candidate.value] else NormalizeAll(priority, front)
  }

  function OriginRank(cluster: Cluster): Key
  {
    if cluster == [] then Key(0, 0, "", "")
    else if |cluster| == 1 then ProcessingKey(cluster[0])
    else
      var rest := OriginRank(cluster[1..]);
      if KeyLe(ProcessingKey(cluster[0]), rest) then ProcessingKey(cluster[0]) else rest
  }

  ghost function Processed(priority: Priority, hits: seq<Hit>): seq<Candidate>
  {
    SortOn(NormalizeAll(priority, hits), ProcessingKey)
  }

  ghost function OrderedClusters(priority: Priority, hits: seq<Hit>): seq<Cluster>
  {
    SortOn(Resolve(Processed(priority, hits)).clusters, OriginRank)
  }

  ghost predicate NoneEmpty(clusters: seq<Cluster>)
  {
    forall k :: 0 <= k < |clusters| ==> clusters[k] != []
  }

  lemma SortedNoneEmpty(clusters: seq<Cluster>)
    requires NoneEmpty(clusters)
    ensures NoneEmpty(SortOn(clusters, OriginRank))
  {
    var ordered := SortOn(clusters, OriginRank);
    SortOnPermutes(clusters, OriginRank);
    forall k | 0 <= k < |ordered| ensures ordered[k] != [] {
      PermutationMembers(ordered, clusters, ordered[k]);
    }
  }

  lemma OrderedClustersNonempty(priority: Priority, hits: seq<Hit>)
    ensures NoneEmpty(OrderedClusters(priority, hits))
  {
    ResolveWellClustered(Processed(priority, hits));
    SortedNoneEmpty(Resolve(Processed(priority, hits)).clusters);
  }

  ghost function MergeAll(clusters: seq<Cluster>): seq<PaperRecord>
    requires NoneEmpty(clusters)
  {
    seq(|clusters|, k requires 0 <= k < |clusters| => MergedRecord(clusters[k]))
  }

  /** The records `aggregate` returns. */
  ghost function Records(priority: Priority, hits: seq<Hit>): seq<PaperRecord>
  {
    OrderedClustersNonempty(priority, hits);
    MergeAll(OrderedClusters(priority, hits))
  }

  /** A name's priority is its last place in the list; blank names have none. */
  ghost predicate Configured(priority: Priority, sources: seq<string>)
  {
    && (priority.Keys == set s | s in sources && s != "")
    && (forall s :: s in priority ==> priority[s] < |sources| && sources[priority[s]] == s)
    && (forall s, i :: s in priority && priority[s] < i < |sources| ==> sources[i] != s)
  }

  // ----- the aggregator -----

  class PaperAggregator {
    var priority: Priority

    constructor (sources: seq<string>)
      ensures Configured(priority, sources)
    {
      var ranks: Priority := map[];
      for n := 0 to |sources|
        invariant ranks.Keys == set s | s in sources[..n] && s != ""
        invariant forall s :: s in ranks ==> ranks[s] < n && sources[ranks[s]] == s
        invariant forall s, i :: s in ranks && ranks[s] < i < n ==> sources[i] != s
      {
        assert sources[..n + 1] == sources[..n] + [sources[n]];
        if sources[n] != "" {
          ranks := ranks[sources[n] := n];
        }
      }
      assert sources[..|sources|] == sources;
      priority := ranks;
    }

    method NormalizeHits(hits: seq<Hit>) returns (normalized: seq<Candidate>)
      ensures normalized == NormalizeAll(priority, hits)
    {
      var sourcePositions: map<string, nat> := map[];
      normalized := [];
      for n := 0 to |hits|
        invariant normalized == NormalizeAll(priority, hits[..n])
        invariant forall s :: |OfSource(hits[..n], s)| == if s in sourcePositions then sourcePositions[s] else 0
      {
        assert hits[..n + 1][..n] == hits[..n];
        var source := hits[n].source;
        var discovery := if source in sourcePositions then sourcePositions[source] else 0;
        sourcePositions := sourcePositions[source := discovery + 1];
        var candidate := NormalizeHit(priority, hits[n], discovery);
        if candidate.Some? {
          normalized := normalized + [candidate.value];
        }
      }
      assert hits[..|hits|] == hits;
    }

    method Aggregate(hits: seq<Hit>) returns (records: seq<PaperRecord>)
      ensures records == Records(priority, hits)
    {
      var normalized := NormalizeHits(hits);
      var clusters := ResolveClusters(SortOn(normalized, ProcessingKey));
      var ordered := SortOn(clusters, OriginRank);
      assert ordered == OrderedClusters(priority, hits);
      OrderedClustersNonempty(priority, hits);
      records := MergeClusters(ordered);
    }

    method ResolveClusters(ordered: seq<Candidate>) returns (clusters: seq<Cluster>)
      ensures clusters == Resolve(ordered).clusters
    {
      var table := new PaperClusters();
      for n := 0 to |ordered|
        invariant table.Valid() && table.processed == ordered[..n] && fresh(table)
      {
        TakeNext(ordered, n);
        var _ := table.AttachCandidate(ordered[n]);
      }
      assert ordered[..|ordered|] == ordered;
      clusters := table.clusters;
    }

    method MergeClusters(clusters: seq<Cluster>) returns (records: seq<PaperRecord>)
      requires NoneEmpty(clusters)
      ensures records == MergeAll(clusters)
    {
      records := [];
      for n := 0 to |clusters|
        invariant |records| == n && forall k :: 0 <= k < n ==> records[k] == MergedRecord(clusters[k])
      {
        var record := MergeCluster(clusters[n]);
        records := records + [record];
      }
    }

    method MergeCluster(cluster: Cluster) returns (record: PaperRecord)
      requires cluster != []
      ensures record == MergedRecord(cluster)
    {
      SortOnPermutes(cluster, Precedence);
      var candidates := SortOn(cluster, Precedence);
      var topics := CollectTopics(candidates);
      var counts := CollectCitationCounts(candidates);
      record := MergedFrom(candidates).(topics := topics, citationCounts := counts);
    }
  }

  lemma TakeNext<T>(xs: seq<T>, n: nat)
    requires n < |xs|
    ensures xs[..n + 1] == xs[..n] + [xs[n]]
  {
  }

  // ----- interleaving -----

  /** The two inputs give each source the same hits in the same order. */
  ghost predicate SamePerSource(left: seq<Hit>, right: seq<Hit>)
  {
    forall s :: OfSource(left, s) == OfSource(right, s)
  }

  function FromSource(candidates: seq<Candidate>, source: string): seq<Candidate>
  {
    if candidates == [] then []
    else
      var front, last := FromSource(candidates[..|candidates| - 1], source), candidates[|candidates| - 1];
      if last.source == source then front + [last] else front
  }

  lemma FromSourceNext(front: seq<Candidate>, last: Candidate, source: string)
    ensures FromSource(front + [last], source) ==
            if last.source == source then FromSource(front, source) + [last] else FromSource(front, source)
  {
    assert (front + [last])[..|front|] == front;
  }

  lemma OfSourceNext(front: seq<Hit>, last: Hit, source: string)
    ensures OfSource(front + [last], source) ==
            if last.source == source then OfSource(front, source) + [last] else OfSource(front, source)
  {
    assert (front + [last])[..|front|] == front;
  }

  lemma {:induction false} OfSourceAgain(hits: seq<Hit>, source: string)
    ensures OfSource(OfSource(hits, source), source) == OfSource(hits, source)
  {
    if hits == [] {
    } else {
      var front, last := hits[..|hits| - 1], hits[|hits| - 1];
      OfSourceAgain(front, source);
      OfSourceNext(OfSource(front, source), last, source);
    }
  }

  lemma NormalizeNext(priority: Priority, front: seq<Hit>, last: Hit)
    ensures var candidate := NormalizeHit(priority, last, |OfSource(front, last.source)|);
            NormalizeAll(priority, front + [last]) ==
              NormalizeAll(priority, front) + (if candidate.Some? then [candidate.value] else [])
  {
    assert (front + [last])[..|front|] == front;
    assert NormalizeAll(priority, front) + [] == NormalizeAll(priority, front);
  }

  /** What a source contributes depends on its own hits only. */
  lemma {:induction false} NormalizePerSource(priority: Priority, hits: seq<Hit>, source: string)
    ensures FromSource(NormalizeAll(priority, hits), source) == NormalizeAll(priority, OfSource(hits, source))
  {
    if hits == [] {
    } else {
      var front, last := hits[..|hits| - 1], hits[|hits| - 1];
      NormalizePerSource(priority, front, source);
      var candidate := NormalizeHit(priority, last, |OfSource(front, last.source)|);
      if candidate.Some? {
        FromSourceNext(NormalizeAll(priority, front), candidate.value, source);
      }
      if last.source == source {
        OfSourceAgain(front, source);
        NormalizeNext(priority, OfSource(front, source), last);
      }
    }
  }

  lemma {:induction false} FromSourceKeepsCount(candidates: seq<Candidate>, c: Candidate)
    ensures multiset(FromSource(candidates, c.source))[c] == multiset(candidates)[c]
  {
    if candidates == [] {
    } else {
      var front, last := candidates[..|candidates| - 1], candidates[|candidates| - 1];
      FromSourceKeepsCount(front, c);
      assert candidates == front + [last];
    }
  }

  lemma NormalizeIgnoresInterleaving(priority: Priority, left: seq<Hit>, right: seq<Hit>)
    requires SamePerSource(left, right)
    ensures multiset(NormalizeAll(priority, left)) == multiset(NormalizeAll(priority, right))
  {
    var xs, ys := NormalizeAll(priority, left), NormalizeAll(priority, right);
    forall c ensures multiset(xs)[c] == multiset(ys)[c] {
      FromSourceKeepsCount(xs, c);
      FromSourceKeepsCount(ys, c);
      NormalizePerSource(priority, left, c.source);
      NormalizePerSource(priority, right, c.source);
    }
  }

  lemma {:induction false} DiscoveryBelow(priority: Priority, hits: seq<Hit>, c: Candidate)
    requires c in NormalizeAll(priority, hits)
    ensures c.discovery < |OfSource(hits, c.source)| && c.rank == SourceRank(priority, c.source)
  {
    var front, last := hits[..|hits| - 1], hits[|hits| - 1];
    if c in NormalizeAll(priority, front) {
      DiscoveryBelow(priority, front, c);
    }
  }

  /** The processing key tells any two candidates of one run apart, whatever the ranks. */
  lemma {:induction false} ProcessingKeysDiffer(priority: Priority, hits: seq<Hit>)
    ensures KeysDiffer(NormalizeAll(priority, hits), ProcessingKey)
  {
    if hits == [] {
    } else {
      var front, last := hits[..|hits| - 1], hits[|hits| - 1];
      ProcessingKeysDiffer(priority, front);
      var before := NormalizeAll(priority, front);
      forall i | 0 <= i < |before| ensures before[i].discovery < |OfSource(front, before[i].source)| {
        DiscoveryBelow(priority, front, before[i]);
      }
    }
  }

  /** Candidates are processed in strictly increasing key order. */
  lemma ProcessingIsStrict(priority: Priority, hits: seq<Hit>)
    ensures forall i, j :: 0 <= i < j < |Processed(priority, hits)| ==>
              KeyLess(ProcessingKey(Processed(priority, hits)[i]), ProcessingKey(Processed(priority, hits)[j]))
  {
    ProcessingKeysDiffer(priority, hits);
    SortOnStrict(NormalizeAll(priority, hits), ProcessingKey);
  }

  /** `aggregate` returns the same records for any two inputs that give each source the same hits in
      the same order. */
  lemma AggregateIgnoresInterleaving(priority: Priority, left: seq<Hit>, right: seq<Hit>)
    requires SamePerSource(left, right)
    ensures Records(priority, left) == Records(priority, right)
  {
    var xs := NormalizeAll(priority, left);
    NormalizeIgnoresInterleaving(priority, left, right);
    ProcessingKeysDiffer(priority, left);
    forall x, y | x in xs && y in xs && ProcessingKey(x) == ProcessingKey(y) ensures x == y {
      var i :| 0 <= i < |xs| && xs[i] == x;
      var j :| 0 <= j < |xs| && xs[j] == y;
    }
    SortOnCanonical(xs, NormalizeAll(priority, right), ProcessingKey);
  }

  // ----- output order -----

  /** The origin rank is the least processing key in the cluster, and `origin` the member that has it. */
  lemma {:induction false} OriginRankIsLeast(cluster: Cluster) returns (origin: Candidate)
    requires cluster != []
    ensures origin in cluster && ProcessingKey(origin) == OriginRank(cluster)
    ensures forall c :: c in cluster ==> KeyLe(OriginRank(cluster), ProcessingKey(c))
  {
    if |cluster| == 1 {
      origin := cluster[0];
    } else {
      var first, rest := cluster[0], cluster[1..];
      assert cluster == [first] + rest;
      origin := OriginRankIsLeast(rest);
      KeyLessTotal(ProcessingKey(first), OriginRank(rest));
      if KeyLe(ProcessingKey(first), OriginRank(rest)) {
        origin := first;
        forall c | c in rest ensures KeyLe(OriginRank(cluster), ProcessingKey(c)) {
          KeyLeTransitive(ProcessingKey(first), OriginRank(rest), ProcessingKey(c));
        }
      }
    }
  }

  lemma OriginRanksDiffer(clusters: seq<Cluster>)
    requires Separated(clusters) && NoneEmpty(clusters)
    ensures KeysDiffer(clusters, OriginRank)
  {
    forall i, j | 0 <= i < j < |clusters| ensures OriginRank(clusters[i]) != OriginRank(clusters[j]) {
      var a := OriginRankIsLeast(clusters[i]);
      var b := OriginRankIsLeast(clusters[j]);
      assert ProcessingKey(a) == ProcessingKey(b) ==> StronglyLinked(a, b);
    }
  }

  lemma ClustersOrderedByOrigin(clusters: seq<Cluster>)
    requires Separated(clusters) && NoneEmpty(clusters)
    ensures var ordered := SortOn(clusters, OriginRank);
      && multiset(ordered) == multiset(clusters)
      && (forall i, j :: 0 <= i < j < |ordered| ==> KeyLess(OriginRank(ordered[i]), OriginRank(ordered[j])))
  {
    OriginRanksDiffer(clusters);
    SortOnStrict(clusters, OriginRank);
    SortOnPermutes(clusters, OriginRank);
  }

  /** Records come out one for each cluster, strictly ordered by the least processing key of the
      cluster. */
  lemma RecordsOrderedByOrigin(priority: Priority, hits: seq<Hit>)
    ensures var ordered := OrderedClusters(priority, hits);
      && |Records(priority, hits)| == |ordered|
      && (forall k :: 0 <= k < |ordered| ==> ordered[k] != [] && Records(priority, hits)[k] == MergedRecord(ordered[k]))
      && multiset(ordered) == multiset(Resolve(Processed(priority, hits)).clusters)
      && (forall i, j :: 0 <= i < j < |ordered| ==> KeyLess(OriginRank(ordered[i]), OriginRank(ordered[j])))
  {
    ResolveWellClustered(Processed(priority, hits));
    ClustersOrderedByOrigin(Resolve(Processed(priority, hits)).clusters);
    OrderedClustersNonempty(priority, hits);
  }

  // ----- identifiers over a whole aggregation -----

  lemma {:induction false} NormalizedHasId(priority: Priority, hits: seq<Hit>, c: Candidate)
    requires c in NormalizeAll(priority, hits)
    ensures c.sourceId != ""
  {
    var front := hits[..|hits| - 1];
    if c in NormalizeAll(priority, front) {
      NormalizedHasId(priority, front, c);
    }
  }

  /** A cluster of a run has no conflicting identifiers and consists of normalized hits. */
  lemma RunCluster(priority: Priority, hits: seq<Hit>, cluster: Cluster)
    requires cluster in OrderedClusters(priority, hits)
    ensures cluster in Resolve(Processed(priority, hits)).clusters
    ensures cluster != [] && OneIdentity(cluster) && forall c :: c in cluster ==> c.sourceId != ""
  {
    var candidates := Processed(priority, hits);
    var clusters := Resolve(candidates).clusters;
    ResolveWellClustered(candidates);
    SortOnPermutes(clusters, OriginRank);
    PermutationMembers(OrderedClusters(priority, hits), clusters, cluster);
    var i :| 0 <= i < |clusters| && clusters[i] == cluster;
    SortOnPermutes(NormalizeAll(priority, hits), ProcessingKey);
    forall c | c in cluster ensures c.sourceId != "" {
      ClusteredWasProcessed(candidates, c, i);
      PermutationMembers(candidates, NormalizeAll(priority, hits), c);
      NormalizedHasId(priority, hits, c);
    }
  }

  /** Every record of an aggregation carries the identifiers of its cluster. */
  lemma RecordsCarryIdentifiers(priority: Priority, hits: seq<Hit>)
    ensures |Records(priority, hits)| == |OrderedClusters(priority, hits)|
    ensures forall k :: 0 <= k < |Records(priority, hits)| ==>
              IdentifiersOf(OrderedClusters(priority, hits)[k], Records(priority, hits)[k].identifiers)
  {
    var records, ordered := Records(priority, hits), OrderedClusters(priority, hits);
    RecordsOrderedByOrigin(priority, hits);
    forall k | 0 <= k < |records| ensures IdentifiersOf(ordered[k], records[k].identifiers) {
      RunCluster(priority, hits, ordered[k]);
      MergedIdentifiers(ordered[k]);
    }
  }

  lemma LinkedInOneCluster(clusters: seq<Cluster>, left: Cluster, right: Cluster, a: Candidate, b: Candidate)
    requires Separated(clusters) && left in clusters && right in clusters
    requires a in left && b in right && StronglyLinked(a, b)
    ensures left == right
  {
    var m :| 0 <= m < |clusters| && clusters[m] == left;
    var n :| 0 <= n < |clusters| && clusters[n] == right;
    assert m == n;
  }

  lemma SeparatedPermutation(clusters: seq<Cluster>, ordered: seq<Cluster>)
    requires Separated(clusters) && multiset(ordered) == multiset(clusters)
    requires forall i, j :: 0 <= i < j < |ordered| ==> ordered[i] != ordered[j]
    ensures Separated(ordered)
  {
    forall i, j, a, b |
      0 <= i < |ordered| && 0 <= j < |ordered| && a in ordered[i] && b in ordered[j] && StronglyLinked(a, b)
      ensures i == j
    {
      PermutationMembers(ordered, clusters, ordered[i]);
      PermutationMembers(ordered, clusters, ordered[j]);
      LinkedInOneCluster(clusters, ordered[i], ordered[j], a, b);
    }
  }

  lemma SortedSeparated(clusters: seq<Cluster>)
    requires Separated(clusters) && NoneEmpty(clusters)
    ensures Separated(SortOn(clusters, OriginRank))
  {
    ClustersOrderedByOrigin(clusters);
    StrictDiffer(SortOn(clusters, OriginRank), OriginRank);
    SeparatedPermutation(clusters, SortOn(clusters, OriginRank));
  }

  lemma OrderedSeparated(priority: Priority, hits: seq<Hit>)
    ensures Separated(OrderedClusters(priority, hits))
  {
    ResolveWellClustered(Processed(priority, hits));
    SortedSeparated(Resolve(Processed(priority, hits)).clusters);
  }

  /** Some identifier of one kind is set in both and the same. */
  predicate ShareIdentifier(one: PaperIdentifiers, other: PaperIdentifiers)
  {
    || (one.doi != "" && one.doi == other.doi)
    || (one.arxivId != "" && one.arxivId == other.arxivId)
    || (one.semanticScholarId != "" && one.semanticScholarId == other.semanticScholarId)
    || (one.openalexId != "" && one.openalexId == other.openalexId)
    || (one.dblpKey != "" && one.dblpKey == other.dblpKey)
    || (one.coreId != "" && one.coreId == other.coreId)
  }

  lemma SharedIdentifierLinks(left: Cluster, right: Cluster, one: PaperIdentifiers, other: PaperIdentifiers)
    returns (a: Candidate, b: Candidate)
    requires IdentifiersOf(left, one) && IdentifiersOf(right, other) && ShareIdentifier(one, other)
    ensures a in left && b in right && StronglyLinked(a, b)
  {
    if one.doi != "" && one.doi == other.doi {
      a :| a in left && one.doi == a.doi;
      b :| b in right && other.doi == b.doi;
    } else if one.arxivId != "" && one.arxivId == other.arxivId {
      a :| a in left && one.arxivId == a.arxivId;
      b :| b in right && other.arxivId == b.arxivId;
    } else {
      var native :=
        if one.semanticScholarId != "" && one.semanticScholarId == other.semanticScholarId then
          ("semantic_scholar", one.semanticScholarId)
        else if one.openalexId != "" && one.openalexId == other.openalexId then ("openalex", one.openalexId)
        else if one.dblpKey != "" && one.dblpKey == other.dblpKey then ("dblp", one.dblpKey)
        else ("core", one.coreId);
      a :| a in left && a.source == native.0 && a.sourceId == native.1;
      b :| b in right && b.source == native.0 && b.sourceId == native.1;
    }
  }

  /** No two records of an aggregation carry the same identifier of any kind. */
  lemma RecordsShareNoIdentifier(priority: Priority, hits: seq<Hit>)
    ensures var records := Records(priority, hits);
      forall i, j :: 0 <= i < j < |records| ==> !ShareIdentifier(records[i].identifiers, records[j].identifiers)
  {
    var records, ordered := Records(priority, hits), OrderedClusters(priority, hits);
    RecordsCarryIdentifiers(priority, hits);
    OrderedSeparated(priority, hits);
    forall i, j | 0 <= i < |records| && 0 <= j < |records|
        && ShareIdentifier(records[i].identifiers, records[j].identifiers)
      ensures i == j
    {
      var a, b := SharedIdentifierLinks(ordered[i], ordered[j], records[i].identifiers, records[j].identifiers);
    }
  }

  /** The DOI and the arXiv id of an accepted candidate are carried by one record, whose sources name the
      candidate's. */
  lemma AcceptedIdentifiersCarried(priority: Priority, hits: seq<Hit>, c: Candidate) returns (k: nat)
    requires c in Resolve(Processed(priority, hits)).accepted
    ensures k < |Records(priority, hits)|
    ensures var record := Records(priority, hits)[k];
      && (c.doi != "" ==> record.identifiers.doi == c.doi)
      && (c.arxivId != "" ==> record.identifiers.arxivId == c.arxivId)
      && c.source in record.sources
  {
    var candidates, ordered := Processed(priority, hits), OrderedClusters(priority, hits);
    var run := Resolve(candidates);
    ResolveConserves(candidates);
    AcceptedIsClustered(run, candidates, c);
    var i :| 0 <= i < |run.clusters| && c in run.clusters[i];
    SortOnPermutes(run.clusters, OriginRank);
    PermutationMembers(ordered, run.clusters, run.clusters[i]);
    k :| 0 <= k < |ordered| && ordered[k] == run.clusters[i];
    RecordsCarryIdentifiers(priority, hits);
    RecordsOrderedByOrigin(priority, hits);
    MergedCollections(ordered[k]);
  }

  // ----- a split weak match -----

  /** Three hits of which the second and third match bibliographically and are accepted, and yet end in
      different clusters. */
  lemma SplitWeakMatchExists() returns (hits: seq<Hit>, x: Candidate, a: Candidate, b: Candidate)
    ensures Processed(map[], hits) == [x, a, b]
    ensures WeaklyLinked(a, b)
    ensures var run := Resolve(Processed(map[], hits));
      a in run.accepted && b in run.accepted && !SameCluster(run.clusters, b, a)
  {
    var author, day := Folded("A", "a"), Some(Some(Date(2024, 1, 1)));
    var url := Some("https://core.ac.uk/1");
    var first :=
      Hit("core", Some("1"), Folded("P", "p"), [author], "", Some(""), Some(""), day, Some(None), url, None,
        "", [], None, None, "", "");
    var second := first.(source := "dblp", title := Folded("Q", "q"));
    var third := first.(title := Folded("Q", "q"));
    x := NormalizeHit(map[], first, 0).value;
    a := NormalizeHit(map[], second, 0).value;
    b := NormalizeHit(map[], third, 1).value;
    hits := [first, second, third];
    assert first.source[0] != second.source[0] && first.title.fold[0] != second.title.fold[0];
    NormalizeThree(first, second, third);
    SortThree(x, a, b);
    assert author in a.authors && author in b.authors;
    FingerprintsMatchMeaning(a, b);
    FingerprintsMatchMeaning(a, x);
    WeakMatchCanStaySplit(x, a, b);
  }

  lemma NormalizeThree(first: Hit, second: Hit, third: Hit)
    requires first.source == third.source != second.source
    requires NormalizeHit(map[], first, 0).Some? && NormalizeHit(map[], second, 0).Some?
        && NormalizeHit(map[], third, 1).Some?
    ensures NormalizeAll(map[], [first, second, third]) ==
            [NormalizeHit(map[], first, 0).value, NormalizeHit(map[], second, 0).value,
              NormalizeHit(map[], third, 1).value]
  {
    NormalizeNext(map[], [], first);
    NormalizeNext(map[], [first], second);
    NormalizeNext(map[], [first, second], third);
    OfSourceNext([], first, second.source);
    OfSourceNext([], first, third.source);
    OfSourceNext([first], second, third.source);
    assert [] + [first] == [first] && [first] + [second] == [first, second]
      && [first, second] + [third] == [first, second, third];
  }

  lemma SortThree(x: Candidate, a: Candidate, b: Candidate)
    requires KeyLess(ProcessingKey(x), ProcessingKey(a)) && KeyLess(ProcessingKey(a), ProcessingKey(b))
    requires KeyLess(ProcessingKey(x), ProcessingKey(b))
    ensures SortOn([x, a, b], ProcessingKey) == [x, a, b]
  {
    SortOnKeepsSorted([x, a, b], ProcessingKey);
  }
}
