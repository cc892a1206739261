/** The mutable cluster list of the aggregator: its rebuilt indexes, conflict test, deletions and
    appends (academic/aggregator.py, lines 275-357), proved against the meaning in Clustering. */
module PaperClusters {
  import opened Clustering
  import opened Folds
  import opened Identity
  import opened Options

  // ----- indexes -----

  /** `index` maps exactly the keys occurring in `clusters`, each to the last cluster holding it. */
  ghost predicate IndexesLast<K(!new)>(index: map<K, nat>, clusters: seq<Cluster>, keys: Cluster -> set<K>)
  {
    && (forall i, k :: 0 <= i < |clusters| && k in keys(clusters[i]) ==> k in index && i <= index[k])
    && (forall k :: k in index ==> index[k] < |clusters| && k in keys(clusters[index[k]]))
  }

  method RecordKeys<K(==)>(index: map<K, nat>, keys: set<K>, position: nat) returns (r: map<K, nat>)
    ensures r == index + map k | k in keys :: position
  {
    r := index;
    var todo := keys;
    while todo != {}
      invariant todo <= keys
      invariant r == index + map k | k in keys - todo :: position
    {
      var key :| key in todo;
      r := r[key := position];
      todo := todo - {key};
    }
  }

  lemma IndexNext<K(!new)>(index: map<K, nat>, clusters: seq<Cluster>, n: nat, keys: Cluster -> set<K>)
    requires n < |clusters| && IndexesLast(index, clusters[..n], keys)
    ensures IndexesLast(index + map k | k in keys(clusters[n]) :: n, clusters[..n + 1], keys)
  {
    assert forall i :: 0 <= i < n ==> clusters[..n][i] == clusters[..n + 1][i];
  }

  method StrongIndexes(clusters: seq<Cluster>)
    returns (doiIndex: map<string, nat>, arxivIndex: map<string, nat>, sourceIndex: map<(string, string), nat>)
    ensures IndexesLast(doiIndex, clusters, Dois)
    ensures IndexesLast(arxivIndex, clusters, ArxivIds)
    ensures IndexesLast(sourceIndex, clusters, SourceKeys)
  {
    doiIndex, arxivIndex, sourceIndex := map[], map[], map[];
    for n := 0 to |clusters|
      invariant IndexesLast(doiIndex, clusters[..n], Dois)
      invariant IndexesLast(arxivIndex, clusters[..n], ArxivIds)
      invariant IndexesLast(sourceIndex, clusters[..n], SourceKeys)
    {
      IndexNext(doiIndex, clusters, n, Dois);
      IndexNext(arxivIndex, clusters, n, ArxivIds);
      IndexNext(sourceIndex, clusters, n, SourceKeys);
      doiIndex := RecordKeys(doiIndex, Dois(clusters[n]), n);
      arxivIndex := RecordKeys(arxivIndex, ArxivIds(clusters[n]), n);
      sourceIndex := RecordKeys(sourceIndex, SourceKeys(clusters[n]), n);
    }
    assert clusters[..|clusters|] == clusters;
  }

  /** The weak index files a fingerprint under its title and year. */
  ghost predicate HasEntry(cluster: Cluster, key: (string, int))
  {
    exists e ::
      e in cluster && FingerprintOf(e).Some? && FingerprintOf(e).value.title == key.0
        && FingerprintOf(e).value.year == key.1
  }

  ghost predicate Listed(index: map<(string, int), seq<nat>>, key: (string, int), position: nat)
  {
    key in index && position in index[key]
  }

  method WeakIndex(clusters: seq<Cluster>) returns (index: map<(string, int), seq<nat>>)
    ensures forall key, i: nat :: Listed(index, key, i) <==>
        i < |clusters| && !HasGlobalStrongId(clusters[i]) && HasEntry(clusters[i], key)
  {
    index := map[];
    for n := 0 to |clusters|
      invariant forall key, i: nat :: Listed(index, key, i) <==>
          i < n && !HasGlobalStrongId(clusters[i]) && HasEntry(clusters[i], key)
    {
      if !HasGlobalStrongId(clusters[n]) {
        index := RecordFingerprints(index, clusters[n], n);
      }
    }
  }

  function FilingKey(f: Fingerprint): (string, int)
  {
    (f.title, f.year)
  }

  lemma HasEntryNext(cluster: Cluster, n: nat, key: (string, int))
    requires n < |cluster|
    ensures HasEntry(cluster[..n + 1], key) <==>
            HasEntry(cluster[..n], key)
              || (FingerprintOf(cluster[n]).Some? && FilingKey(FingerprintOf(cluster[n]).value) == key)
  {
    assert cluster[..n + 1] == cluster[..n] + [cluster[n]];
    assert cluster[n] in cluster[..n + 1];
  }

  function File(index: map<(string, int), seq<nat>>, key: (string, int), position: nat): map<(string, int), seq<nat>>
  {
    index[key := (if key in index then index[key] else []) + [position]]
  }

  lemma FileLists(index: map<(string, int), seq<nat>>, filed: (string, int), position: nat, key: (string, int), i: nat)
    ensures Listed(File(index, filed, position), key, i) <==> Listed(index, key, i) || (key == filed && i == position)
  {
  }

  method RecordFingerprints(index: map<(string, int), seq<nat>>, cluster: Cluster, position: nat)
    returns (r: map<(string, int), seq<nat>>)
    ensures forall key, i: nat :: Listed(r, key, i) <==>
        Listed(index, key, i) || (i == position && HasEntry(cluster, key))
  {
    r := index;
    for n := 0 to |cluster|
      invariant forall key, i: nat :: Listed(r, key, i) <==>
          Listed(index, key, i) || (i == position && HasEntry(cluster[..n], key))
    {
      ghost var before := r;
      var fingerprint := FingerprintOf(cluster[n]);
      if fingerprint.Some? {
        r := File(r, FilingKey(fingerprint.value), position);
      }
      forall key, i: nat
        ensures Listed(r, key, i) <==> Listed(index, key, i) || (i == position && HasEntry(cluster[..n + 1], key))
      {
        HasEntryNext(cluster, n, key);
        if fingerprint.Some? {
          FileLists(before, FilingKey(fingerprint.value), position, key, i);
        }
      }
    }
    assert cluster[..|cluster|] == cluster;
  }

  // ----- references -----

  lemma SharesById(cluster: Cluster, c: Candidate)
    ensures SharesStrongId(cluster, c) <==>
        c.doi in Dois(cluster) || c.arxivId in ArxivIds(cluster) || SourceKey(c) in SourceKeys(cluster)
  {
    if SharesStrongId(cluster, c) {
      var e :| e in cluster && StronglyLinked(e, c);
    } else {
      assert forall e :: e in cluster ==> !StronglyLinked(e, c);
    }
  }

  /** No two clusters hold one key. */
  ghost predicate HeldOnce<K(!new)>(clusters: seq<Cluster>, keys: Cluster -> set<K>)
  {
    forall i, j, k ::
      0 <= i < |clusters| && 0 <= j < |clusters| && k in keys(clusters[i]) && k in keys(clusters[j]) ==> i == j
  }

  lemma SeparatedHeldOnce(clusters: seq<Cluster>)
    requires Separated(clusters)
    ensures HeldOnce(clusters, Dois) && HeldOnce(clusters, ArxivIds) && HeldOnce(clusters, SourceKeys)
  {
    forall i, j, k | 0 <= i < |clusters| && 0 <= j < |clusters| && k in Dois(clusters[i]) && k in Dois(clusters[j])
      ensures i == j
    {
      var a :| a in clusters[i] && a.doi == k;
      var b :| b in clusters[j] && b.doi == k;
      assert StronglyLinked(a, b);
    }
    forall i, j, k | 0 <= i < |clusters| && 0 <= j < |clusters| && k in ArxivIds(clusters[i])
      && k in ArxivIds(clusters[j])
      ensures i == j
    {
      var a :| a in clusters[i] && a.arxivId == k;
      var b :| b in clusters[j] && b.arxivId == k;
      assert StronglyLinked(a, b);
    }
    forall i, j, k | 0 <= i < |clusters| && 0 <= j < |clusters| && k in SourceKeys(clusters[i])
      && k in SourceKeys(clusters[j])
      ensures i == j
    {
      var a :| a in clusters[i] && SourceKey(a) == k;
      var b :| b in clusters[j] && SourceKey(b) == k;
      assert StronglyLinked(a, b);
    }
  }

  function Lookup<K(==)>(index: map<K, nat>, k: K): set<nat>
  {
    if k in index then {index[k]} else {}
  }

  lemma LookupFinds<K(!new)>(index: map<K, nat>, clusters: seq<Cluster>, keys: Cluster -> set<K>, k: K)
    requires IndexesLast(index, clusters, keys) && HeldOnce(clusters, keys)
    ensures Lookup(index, k) == set i: nat | i < |clusters| && k in keys(clusters[i])
  {
  }

  /** When no strong identity is shared between clusters, the three indexes find exactly the
      clusters a linear search finds. */
  lemma IndexesAgreeWithSearch(clusters: seq<Cluster>, c: Candidate,
                               doiIndex: map<string, nat>, arxivIndex: map<string, nat>,
                               sourceIndex: map<(string, string), nat>)
    requires Separated(clusters)
    requires IndexesLast(doiIndex, clusters, Dois) && IndexesLast(arxivIndex, clusters, ArxivIds)
        && IndexesLast(sourceIndex, clusters, SourceKeys)
    ensures Lookup(doiIndex, c.doi) + Lookup(arxivIndex, c.arxivId) + Lookup(sourceIndex, SourceKey(c)) ==
        StrongReferences(clusters, c)
  {
    assert Lookup(doiIndex, c.doi) == set i: nat | i < |clusters| && c.doi in Dois(clusters[i]) by {
      SeparatedHeldOnce(clusters);
      LookupFinds(doiIndex, clusters, Dois, c.doi);
    }
    assert Lookup(arxivIndex, c.arxivId) == set i: nat | i < |clusters| && c.arxivId in ArxivIds(clusters[i]) by {
      SeparatedHeldOnce(clusters);
      LookupFinds(arxivIndex, clusters, ArxivIds, c.arxivId);
    }
    assert Lookup(sourceIndex, SourceKey(c)) == set i: nat | i < |clusters|
      && SourceKey(c) in SourceKeys(clusters[i]) by {
      SeparatedHeldOnce(clusters);
      LookupFinds(sourceIndex, clusters, SourceKeys, SourceKey(c));
    }
    SearchById(clusters, c);
  }

  lemma SearchById(clusters: seq<Cluster>, c: Candidate)
    ensures StrongReferences(clusters, c)
         == (set i: nat | i < |clusters| && c.doi in Dois(clusters[i]))
          + (set i: nat | i < |clusters| && c.arxivId in ArxivIds(clusters[i]))
          + (set i: nat | i < |clusters| && SourceKey(c) in SourceKeys(clusters[i]))
  {
    forall i: nat | i < |clusters|
      ensures SharesStrongId(clusters[i], c) <==>
              c.doi in Dois(clusters[i]) || c.arxivId in ArxivIds(clusters[i])
                || SourceKey(c) in SourceKeys(clusters[i])
    {
      SharesById(clusters[i], c);
    }
  }

  method FindReferences(clusters: seq<Cluster>, c: Candidate) returns (references: set<nat>)
    requires Separated(clusters)
    ensures references == References(clusters, c)
  {
    var doiIndex, arxivIndex, sourceIndex := StrongIndexes(clusters);
    IndexesAgreeWithSearch(clusters, c, doiIndex, arxivIndex, sourceIndex);
    references := Lookup(doiIndex, c.doi);
    references := references + Lookup(arxivIndex, c.arxivId);
    references := references + Lookup(sourceIndex, SourceKey(c));
    if references == {} && !HasGlobalId(c) {
      references := FindWeakReferences(clusters, c);
    }
  }

  method FindWeakReferences(clusters: seq<Cluster>, c: Candidate) returns (references: set<nat>)
    ensures references == set i: nat | i < |clusters| && MatchesWeakly(clusters[i], c)
  {
    references := {};
    var weakIndex := WeakIndex(clusters);
    var fingerprint := FingerprintOf(c);
    if fingerprint.Some? {
      var key := FilingKey(fingerprint.value);
      var listed := if key in weakIndex then weakIndex[key] else [];
      for n := 0 to |listed|
        invariant forall i :: i in references <==> i in listed[..n] && i < |clusters| && MatchesWeakly(clusters[i], c)
      {
        var index := listed[n];
        assert Listed(weakIndex, key, index);
        assert listed[..n + 1] == listed[..n] + [index];
        var cluster := clusters[index];
        if !HasGlobalStrongId(cluster) {
          if exists e :: e in cluster && FingerprintsMatch(fingerprint, FingerprintOf(e)) {
            references := references + {index};
          }
        }
      }
      forall i: nat | i < |clusters| && MatchesWeakly(clusters[i], c) ensures i in listed {
        assert HasEntry(clusters[i], key);
        assert Listed(weakIndex, key, i);
      }
      assert listed[..|listed|] == listed;
    }
  }

  // ----- conflicts -----

  lemma AtMostOne<T>(s: set<T>)
    ensures |s| > 1 <==> exists x, y :: x in s && y in s && x != y
  {
    if |s| > 1 {
      var x :| x in s;
      assert |s - {x}| > 0;
      var y :| y in s - {x};
    }
    if x, y :| x in s && y in s && x != y {
      assert {x, y} <= s;
      assert |s - {x, y}| + |{x, y}| == |s|;
      assert |{x, y}| == 2;
    }
  }

  lemma IdsOfConcat(left: seq<Candidate>, right: seq<Candidate>)
    ensures Dois(left + right) == Dois(left) + Dois(right)
    ensures ArxivIds(left + right) == ArxivIds(left) + ArxivIds(right)
  {
  }

  lemma IdsOfOne(c: Candidate)
    ensures Dois([c]) == if c.doi != "" then {c.doi} else {}
    ensures ArxivIds([c]) == if c.arxivId != "" then {c.arxivId} else {}
  {
    assert c in [c];
  }

  method StrongConflict(referenced: seq<Cluster>, c: Candidate) returns (conflict: bool)
    ensures conflict <==> !OneIdentity([c] + Flatten(referenced))
  {
    var dois := if c.doi != "" then {c.doi} else {};
    var arxivIds := if c.arxivId != "" then {c.arxivId} else {};
    ghost var gathered := [];
    IdsOfOne(c);
    assert [c] + gathered == [c];
    for n := 0 to |referenced|
      invariant gathered == Flatten(referenced[..n])
      invariant dois == Dois([c] + gathered) && arxivIds == ArxivIds([c] + gathered)
    {
      FlattenNext(referenced, n);
      IdsOfConcat([c] + gathered, referenced[n]);
      assert [c] + gathered + referenced[n] == [c] + (gathered + referenced[n]);
      dois := dois + Dois(referenced[n]);
      arxivIds := arxivIds + ArxivIds(referenced[n]);
      gathered := gathered + referenced[n];
    }
    assert referenced[..|referenced|] == referenced;
    conflict := |dois| > 1 || |arxivIds| > 1;
    ConflictMeaning([c] + gathered);
  }

  lemma ConflictMeaning(members: seq<Candidate>)
    ensures |Dois(members)| > 1 || |ArxivIds(members)| > 1 <==> !OneIdentity(members)
  {
    AtMostOne(Dois(members));
    AtMostOne(ArxivIds(members));
    if x, y :| x in Dois(members) && y in Dois(members) && x != y {
      var a :| a in members && a.doi == x;
      var b :| b in members && b.doi == y;
    }
    if x, y :| x in ArxivIds(members) && y in ArxivIds(members) && x != y {
      var a :| a in members && a.arxivId == x;
      var b :| b in members && b.arxivId == y;
    }
    if !OneIdentity(members) {
      var a, b :| a in members && b in members
        && !((a.doi == "" || b.doi == "" || a.doi == b.doi)
            && (a.arxivId == "" || b.arxivId == "" || a.arxivId == b.arxivId));
      assert a.doi != "" ==> a.doi in Dois(members);
      assert b.doi != "" ==> b.doi in Dois(members);
      assert a.arxivId != "" ==> a.arxivId in ArxivIds(members);
      assert b.arxivId != "" ==> b.arxivId in ArxivIds(members);
    }
  }

  method Gather(c: Candidate, referenced: seq<Cluster>) returns (mergedCandidates: seq<Candidate>)
    ensures mergedCandidates == [c] + Flatten(referenced)
  {
    mergedCandidates := [c];
    for n := 0 to |referenced|
      invariant mergedCandidates == [c] + Flatten(referenced[..n])
    {
      FlattenNext(referenced, n);
      mergedCandidates := mergedCandidates + referenced[n];
    }
    assert referenced[..|referenced|] == referenced;
  }

  // ----- deletion by descending index -----

  lemma DropBeforeTail<T>(xs: seq<T>, tail: seq<T>, i: nat)
    requires i < |xs|
    ensures (xs + tail)[..i] + (xs + tail)[i + 1..] == xs[..i] + xs[i + 1..] + tail
  {
  }

  /** Deleting position `i` of a list from which only larger positions are gone. */
  lemma {:induction false} AscendingDelete(n: nat, s: set<nat>, i: nat)
    requires i < n && forall j: nat | j <= i :: j in s
    ensures |Ascending(n, s)| > i
    ensures Ascending(n, s - {i}) == Ascending(n, s)[..i] + Ascending(n, s)[i + 1..]
    decreases n
  {
    var tail: seq<nat> := if n - 1 in s then [n - 1] else [];
    if i == n - 1 {
      AscendingAll(n - 1, s);
      AscendingAll(n - 1, s - {i});
    } else {
      AscendingDelete(n - 1, s, i);
      DropBeforeTail(Ascending(n - 1, s), tail, i);
    }
  }

  lemma PickDelete(clusters: seq<Cluster>, indices: seq<nat>, i: nat)
    requires forall k :: 0 <= k < |indices| ==> indices[k] < |clusters|
    requires i < |indices|
    ensures Pick(clusters, indices[..i] + indices[i + 1..]) ==
        Pick(clusters, indices)[..i] + Pick(clusters, indices)[i + 1..]
  {
  }

  class PaperClusters {
    var clusters: seq<Cluster>
    ghost var processed: seq<Candidate>

    ghost predicate Valid()
      reads this
    {
      clusters == Resolve(processed).clusters
    }

    constructor ()
      ensures Valid() && processed == [] && clusters == []
    {
      clusters := [];
      processed := [];
    }

    /** Deletes the clusters at `references`, largest position first. */
    method DeleteAll(references: set<nat>)
      requires forall i :: i in references ==> i < |clusters|
      modifies this`clusters
      ensures clusters == Pick(old(clusters), Ascending(|old(clusters)|, Below(|old(clusters)|) - references))
    {
      ghost var before := clusters;
      ghost var kept := Below(|before|);
      var ordered := Ascending(|clusters|, references);
      var k := |ordered|;
      AscendingOrdered(|clusters|, references);
      AscendingAll(|before|, kept);
      while k > 0
        invariant 0 <= k <= |ordered|
        invariant forall i :: i in kept <==> i in Below(|before|) && i !in ordered[k..]
        invariant clusters == Pick(before, Ascending(|before|, kept))
      {
        k := k - 1;
        var index := ordered[k];
        assert ordered[k..] == [index] + ordered[k + 1..];
        AscendingDelete(|before|, kept, index);
        PickDelete(before, Ascending(|before|, kept), index);
        clusters := clusters[..index] + clusters[index + 1..];
        kept := kept - {index};
      }
      assert ordered[0..] == ordered;
      forall i | i in references ensures i in ordered { AscendingMember(|before|, references, i); }
      assert kept == Below(|before|) - references;
    }

    method Combine(c: Candidate) returns (accepted: bool)
      requires Separated(clusters)
      modifies this`clusters
      ensures clusters == Attach(old(clusters), c)
      ensures accepted <==> Accepts(old(clusters), c)
    {
      var references := FindReferences(clusters, c);
      var referenced := Pick(clusters, Ascending(|clusters|, references));
      var conflict := StrongConflict(referenced, c);
      if conflict {
        return false;
      }
      if referenced == [] {
        forall i | i in references ensures false { AscendingMember(|clusters|, references, i); }
        AttachUnrelated(clusters, c);
        clusters := clusters + [[c]];
        return true;
      }
      var mergedCandidates := Gather(c, referenced);
      DeleteAll(references);
      clusters := clusters + [mergedCandidates];
      return true;
    }

    method AttachCandidate(c: Candidate) returns (accepted: bool)
      requires Valid()
      modifies this
      ensures Valid() && processed == old(processed) + [c]
      ensures clusters == Attach(old(clusters), c)
      ensures accepted <==> Accepts(old(clusters), c)
    {
      ResolveWellClustered(processed);
      FoldNext(Next, EMPTY_RUN, processed, c);
      accepted := Combine(c);
      processed := processed + [c];
    }
  }
}
