/** What attaching one candidate to the clusters means, and what every attach step keeps
    (academic/aggregator.py, `_attach_candidate`). */
module Clustering {
  import opened Folds
  import opened Identity
  import opened Options

  type Cluster = seq<Candidate>

  function Dois(cluster: Cluster): set<string>
  {
    set c | c in cluster && c.doi != "" :: c.doi
  }

  function ArxivIds(cluster: Cluster): set<string>
  {
    set c | c in cluster && c.arxivId != "" :: c.arxivId
  }

  function SourceKeys(cluster: Cluster): set<(string, string)>
  {
    set c | c in cluster :: SourceKey(c)
  }

  predicate HasGlobalStrongId(cluster: Cluster)
  {
    exists c :: c in cluster && HasGlobalId(c)
  }

  function Flatten(clusters: seq<Cluster>): seq<Candidate>
  {
    if clusters == [] then [] else Flatten(clusters[..|clusters| - 1]) + clusters[|clusters| - 1]
  }

  /** The members of `s` below `n`, smallest first. */
  function Ascending(n: nat, s: set<nat>): (r: seq<nat>)
    ensures forall k :: 0 <= k < |r| ==> r[k] < n && r[k] in s
  {
    if n == 0 then [] else Ascending(n - 1, s) + (if n - 1 in s then [n - 1] else [])
  }

  lemma {:induction false} AscendingOrdered(n: nat, s: set<nat>)
    ensures forall j, k :: 0 <= j < k < |Ascending(n, s)| ==> Ascending(n, s)[j] < Ascending(n, s)[k]
  {
    if n == 0 {
    } else {
      AscendingOrdered(n - 1, s);
    }
  }

  lemma {:induction false} AscendingMember(n: nat, s: set<nat>, i: nat)
    requires i < n && i in s
    ensures i in Ascending(n, s)
  {
    if i < n - 1 { AscendingMember(n - 1, s, i); }
  }

  lemma {:induction false} AscendingAll(n: nat, s: set<nat>)
    requires forall i: nat | i < n :: i in s
    ensures |Ascending(n, s)| == n
    ensures forall k :: 0 <= k < n ==> Ascending(n, s)[k] == k
  {
    if n == 0 {
    } else {
      AscendingAll(n - 1, s);
    }
  }

  lemma {:induction false} AscendingNone(n: nat, s: set<nat>)
    requires s == {}
    ensures Ascending(n, s) == []
  {
    if n == 0 {
    } else {
      AscendingNone(n - 1, s);
    }
  }

  function Below(n: nat): (r: set<nat>)
    ensures forall i: nat :: i in r <==> i < n
  {
    if n == 0 then {} else Below(n - 1) + {n - 1}
  }

  function Pick(clusters: seq<Cluster>, indices: seq<nat>): seq<Cluster>
    requires forall k :: 0 <= k < |indices| ==> indices[k] < |clusters|
  {
    seq(|indices|, k requires 0 <= k < |indices| => clusters[indices[k]])
  }

  // ----- attaching one candidate -----

  ghost predicate SharesStrongId(cluster: Cluster, c: Candidate)
  {
    exists e :: e in cluster && StronglyLinked(e, c)
  }

  ghost predicate MatchesWeakly(cluster: Cluster, c: Candidate)
  {
    !HasGlobalStrongId(cluster) && exists e :: e in cluster && FingerprintsMatch(FingerprintOf(c), FingerprintOf(e))
  }

  ghost function StrongReferences(clusters: seq<Cluster>, c: Candidate): set<nat>
  {
    set i: nat | i < |clusters| && SharesStrongId(clusters[i], c)
  }

  /** The clusters `c` refers to, by linear search: weak evidence is consulted only for a candidate
      that has no global identifier and shares no identifier with any cluster. */
  ghost function References(clusters: seq<Cluster>, c: Candidate): set<nat>
  {
    var strong := StrongReferences(clusters, c);
    if strong != {} || HasGlobalId(c) then strong
    else set i: nat | i < |clusters| && MatchesWeakly(clusters[i], c)
  }

  /** At most one DOI and at most one arXiv id among the members. */
  ghost predicate OneIdentity(members: seq<Candidate>)
  {
    forall a, b :: a in members && b in members ==>
      (a.doi == "" || b.doi == "" || a.doi == b.doi) && (a.arxivId == "" || b.arxivId == "" || a.arxivId == b.arxivId)
  }

  ghost function Merged(clusters: seq<Cluster>, c: Candidate): Cluster
  {
    [c] + Flatten(Pick(clusters, Ascending(|clusters|, References(clusters, c))))
  }

  ghost function Untouched(clusters: seq<Cluster>, c: Candidate): seq<Cluster>
  {
    Pick(clusters, Ascending(|clusters|, Below(|clusters|) - References(clusters, c)))
  }

  ghost predicate Accepts(clusters: seq<Cluster>, c: Candidate)
  {
    OneIdentity(Merged(clusters, c))
  }

  ghost function Attach(clusters: seq<Cluster>, c: Candidate): seq<Cluster>
  {
    if Accepts(clusters, c) then Untouched(clusters, c) + [Merged(clusters, c)] else clusters
  }

  /** `c` joins a cluster for the bibliographic match with its member `e`. */
  ghost predicate TiedTo(clusters: seq<Cluster>, c: Candidate, e: Candidate)
  {
    && StrongReferences(clusters, c) == {} && !HasGlobalId(c)
    && FingerprintsMatch(FingerprintOf(c), FingerprintOf(e))
    && exists i :: 0 <= i < |clusters| && e in clusters[i] && !HasGlobalStrongId(clusters[i])
  }

  ghost function NewTies(clusters: seq<Cluster>, c: Candidate): set<(Candidate, Candidate)>
  {
    set e | e in Flatten(clusters) && TiedTo(clusters, c, e) :: (c, e)
  }

  /** A candidate that refers to no cluster starts one. */
  lemma AttachUnrelated(clusters: seq<Cluster>, c: Candidate)
    requires References(clusters, c) == {}
    ensures Accepts(clusters, c) && Attach(clusters, c) == clusters + [[c]]
  {
    AscendingAll(|clusters|, Below(|clusters|));
    assert Below(|clusters|) - References(clusters, c) == Below(|clusters|);
    AscendingNone(|clusters|, References(clusters, c));
    assert Untouched(clusters, c) == clusters;
    assert Merged(clusters, c) == [c];
  }

  // ----- the invariant -----

  /** No DOI, arXiv id or source key occurs in two clusters. */
  ghost predicate Separated(clusters: seq<Cluster>)
  {
    forall i, j, a, b | 0 <= i < |clusters| && 0 <= j < |clusters| && a in clusters[i] && b in clusters[j] ::
      StronglyLinked(a, b) ==> i == j
  }

  ghost predicate WellClustered(clusters: seq<Cluster>, ties: set<(Candidate, Candidate)>)
  {
    && (forall i :: 0 <= i < |clusters| ==>
        clusters[i] != [] && OneIdentity(clusters[i]) && Connected(clusters[i], ties))
    && Separated(clusters)
  }

  lemma {:induction false} FlattenMembers(clusters: seq<Cluster>, x: Candidate)
    ensures x in Flatten(clusters) <==> exists i :: 0 <= i < |clusters| && x in clusters[i]
  {
    if clusters == [] {
    } else {
      var n := |clusters| - 1;
      FlattenMembers(clusters[..n], x);
      if x in Flatten(clusters[..n]) {
        var i :| 0 <= i < n && x in clusters[..n][i];
        assert x in clusters[i];
      }
      if i :| 0 <= i < |clusters| && x in clusters[i] {
        if i < n { assert x in clusters[..n][i]; }
      }
    }
  }

  lemma MergedMembers(clusters: seq<Cluster>, c: Candidate, x: Candidate)
    ensures x in Merged(clusters, c) <==>
            x == c || exists i :: i in References(clusters, c) && x in clusters[i]
  {
    var chosen := Ascending(|clusters|, References(clusters, c));
    FlattenMembers(Pick(clusters, chosen), x);
    if k :| 0 <= k < |chosen| && x in Pick(clusters, chosen)[k] {
      assert chosen[k] in References(clusters, c) && x in clusters[chosen[k]];
    }
    if i :| i in References(clusters, c) && x in clusters[i] {
      AscendingMember(|clusters|, References(clusters, c), i);
      var k :| 0 <= k < |chosen| && chosen[k] == i;
      assert x in Pick(clusters, chosen)[k];
    }
  }

  lemma FlattenAppend(clusters: seq<Cluster>, last: Cluster)
    ensures Flatten(clusters + [last]) == Flatten(clusters) + last
  {
    assert (clusters + [last])[..|clusters|] == clusters;
  }

  lemma FlattenNext(clusters: seq<Cluster>, n: nat)
    requires n < |clusters|
    ensures Flatten(clusters[..n + 1]) == Flatten(clusters[..n]) + clusters[n]
  {
    assert clusters[..n + 1] == clusters[..n] + [clusters[n]];
    FlattenAppend(clusters[..n], clusters[n]);
  }

  ghost function PickedMembers(clusters: seq<Cluster>, n: nat, s: set<nat>): seq<Candidate>
    requires n <= |clusters|
  {
    Flatten(Pick(clusters, Ascending(n, s)))
  }

  lemma FlattenPickNext(clusters: seq<Cluster>, n: nat, s: set<nat>)
    requires n < |clusters|
    ensures PickedMembers(clusters, n + 1, s) == PickedMembers(clusters, n, s) + (if n in s then clusters[n] else [])
  {
    var before := Ascending(n, s);
    if n in s {
      assert Pick(clusters, before + [n]) == Pick(clusters, before) + [clusters[n]];
      FlattenAppend(Pick(clusters, before), clusters[n]);
    } else {
      assert before + [] == before;
    }
  }

  lemma {:induction false} PickConserves(clusters: seq<Cluster>, n: nat, s: set<nat>, rest: set<nat>)
    requires n <= |clusters|
    requires forall i: nat | i < n :: i in s <==> i !in rest
    ensures multiset(PickedMembers(clusters, n, s)) + multiset(PickedMembers(clusters, n, rest)) ==
        multiset(Flatten(clusters[..n]))
  {
    if n == 0 {
    } else {
      var i := n - 1;
      PickConserves(clusters, i, s, rest);
      FlattenPickNext(clusters, i, s);
      FlattenPickNext(clusters, i, rest);
      SplitConserves(PickedMembers(clusters, i, s), PickedMembers(clusters, i, rest), Flatten(clusters[..i]),
        clusters[i], i in s);
      FlattenNext(clusters, i);
    }
  }

  lemma SplitConserves(left: seq<Candidate>, right: seq<Candidate>, all: seq<Candidate>, more: seq<Candidate>,
                       toLeft: bool)
    requires multiset(left) + multiset(right) == multiset(all)
    ensures multiset(left + (if toLeft then more else [])) + multiset(right + (if toLeft then [] else more)) ==
        multiset(all + more)
  {
    assert left + [] == left && right + [] == right;
  }

  /** Attaching loses and invents nothing: the clusters hold what they held, and the candidate
      exactly when it was accepted. */
  lemma AttachConserves(clusters: seq<Cluster>, c: Candidate)
    ensures multiset(Flatten(Attach(clusters, c)))
         == multiset(Flatten(clusters)) + (if Accepts(clusters, c) then multiset{c} else multiset{})
  {
    if Accepts(clusters, c) {
      FlattenAppend(Untouched(clusters, c), Merged(clusters, c));
      var refs := References(clusters, c);
      PickConserves(clusters, |clusters|, refs, Below(|clusters|) - refs);
      assert clusters[..|clusters|] == clusters;
    }
  }

  /** Every cluster referred to holds a member linked to the candidate. */
  lemma ReferencesAreLinked(clusters: seq<Cluster>, c: Candidate, i: nat)
    requires i in References(clusters, c)
    ensures i < |clusters| && exists e :: e in clusters[i] && Linked(e, c, NewTies(clusters, c))
  {
    if i in StrongReferences(clusters, c) {
    } else {
      var e :| e in clusters[i] && FingerprintsMatch(FingerprintOf(c), FingerprintOf(e));
      FlattenMembers(clusters, e);
      assert TiedTo(clusters, c, e);
      assert (c, e) in NewTies(clusters, c);
    }
  }

  lemma MergedJoinsCandidate(clusters: seq<Cluster>, ties: set<(Candidate, Candidate)>, c: Candidate, a: Candidate)
    requires WellClustered(clusters, ties) && a in Merged(clusters, c)
    ensures Joined(a, c, Merged(clusters, c), ties + NewTies(clusters, c))
  {
    var members, more := Merged(clusters, c), ties + NewTies(clusters, c);
    MergedMembers(clusters, c, a);
    if a == c {
      JoinedByLink(a, c, members, more);
    } else {
      var i :| i in References(clusters, c) && a in clusters[i];
      ReferencesAreLinked(clusters, c, i);
      var e :| e in clusters[i] && Linked(e, c, NewTies(clusters, c));
      forall x | x in clusters[i] ensures x in members { MergedMembers(clusters, c, x); }
      assert Connected(clusters[i], ties) && Joined(a, e, clusters[i], ties);
      JoinedWithin(a, e, clusters[i], ties, members, more);
      JoinedByLink(e, c, members, more);
      JoinedTransitive(a, e, c, members, more);
    }
  }

  lemma MergedConnected(clusters: seq<Cluster>, ties: set<(Candidate, Candidate)>, c: Candidate)
    requires WellClustered(clusters, ties)
    ensures Connected(Merged(clusters, c), ties + NewTies(clusters, c))
  {
    var members, more := Merged(clusters, c), ties + NewTies(clusters, c);
    forall a, b | a in members && b in members ensures Joined(a, b, members, more) {
      MergedJoinsCandidate(clusters, ties, c, a);
      MergedJoinsCandidate(clusters, ties, c, b);
      JoinedSymmetric(b, c, members, more);
      JoinedTransitive(a, c, b, members, more);
    }
  }

  /** A cluster that is not referred to shares no strong identity with the merged cluster. */
  lemma UntouchedApart(clusters: seq<Cluster>, c: Candidate, i: nat, a: Candidate, b: Candidate)
    requires Separated(clusters)
    requires i < |clusters| && i !in References(clusters, c)
    requires a in clusters[i] && b in Merged(clusters, c)
    ensures !StronglyLinked(a, b) && !StronglyLinked(b, a)
  {
    MergedMembers(clusters, c, b);
    if b == c {
      assert i !in StrongReferences(clusters, c);
    } else {
      var j :| j in References(clusters, c) && b in clusters[j];
      assert i != j;
    }
  }

  lemma AppendKeepsSeparated(clusters: seq<Cluster>, last: Cluster)
    requires Separated(clusters)
    requires forall i, a, b | 0 <= i < |clusters| && a in clusters[i] && b in last ::
        !StronglyLinked(a, b) && !StronglyLinked(b, a)
    ensures Separated(clusters + [last])
  {
  }

  lemma PickKeepsSeparated(clusters: seq<Cluster>, n: nat, s: set<nat>)
    requires Separated(clusters) && n <= |clusters|
    ensures Separated(Pick(clusters, Ascending(n, s)))
  {
    var kept := Ascending(n, s);
    var r := Pick(clusters, kept);
    AscendingOrdered(n, s);
    forall i, j, a, b | 0 <= i < |r| && 0 <= j < |r| && a in r[i] && b in r[j] && StronglyLinked(a, b) ensures i == j {
      assert a in clusters[kept[i]] && b in clusters[kept[j]];
    }
  }

  lemma AttachKeepsSeparated(clusters: seq<Cluster>, c: Candidate)
    requires Separated(clusters)
    ensures Separated(Untouched(clusters, c) + [Merged(clusters, c)])
  {
    var kept := Ascending(|clusters|, Below(|clusters|) - References(clusters, c));
    PickKeepsSeparated(clusters, |clusters|, Below(|clusters|) - References(clusters, c));
    forall i, a, b | 0 <= i < |kept| && a in Untouched(clusters, c)[i] && b in Merged(clusters, c)
      ensures !StronglyLinked(a, b) && !StronglyLinked(b, a)
    {
      UntouchedApart(clusters, c, kept[i], a, b);
    }
    AppendKeepsSeparated(Untouched(clusters, c), Merged(clusters, c));
  }

  lemma ConnectedWithMoreTies(members: seq<Candidate>, ties: set<(Candidate, Candidate)>,
                              more: set<(Candidate, Candidate)>)
    requires Connected(members, ties) && ties <= more
    ensures Connected(members, more)
  {
    forall a, b | a in members && b in members ensures Joined(a, b, members, more) {
      assert Joined(a, b, members, ties);
      JoinedWithin(a, b, members, ties, members, more);
    }
  }

  /** Every attach step keeps the clusters nonempty, free of conflicting identifiers, each held
      together by links, and disjoint in every strong identity. */
  lemma AttachKeepsWellClustered(clusters: seq<Cluster>, ties: set<(Candidate, Candidate)>, c: Candidate)
    requires WellClustered(clusters, ties)
    ensures WellClustered(Attach(clusters, c), ties + NewTies(clusters, c))
  {
    var more := ties + NewTies(clusters, c);
    AttachKeepsSeparated(clusters, c);
    MergedConnected(clusters, ties, c);
    forall i | 0 <= i < |clusters| ensures Connected(clusters[i], more) {
      ConnectedWithMoreTies(clusters[i], ties, more);
    }
  }

  /** A candidate that shares identities with a cluster shares them with no other. */
  lemma IdlessReferencesAgree(clusters: seq<Cluster>, c: Candidate, i: nat, j: nat)
    requires Separated(clusters) && !HasGlobalId(c)
    requires i in StrongReferences(clusters, c) && j in StrongReferences(clusters, c)
    ensures i == j
  {
    var e :| e in clusters[i] && StronglyLinked(e, c);
    var f :| f in clusters[j] && StronglyLinked(f, c);
    assert StronglyLinked(e, f);
  }

  lemma IdlessPairAgrees(clusters: seq<Cluster>, c: Candidate, a: Candidate, b: Candidate)
    requires Separated(clusters) && !HasGlobalId(c)
    requires forall i :: 0 <= i < |clusters| ==> OneIdentity(clusters[i])
    requires a in Merged(clusters, c) && b in Merged(clusters, c)
    ensures (a.doi == "" || b.doi == "" || a.doi == b.doi)
        && (a.arxivId == "" || b.arxivId == "" || a.arxivId == b.arxivId)
  {
    MergedMembers(clusters, c, a);
    MergedMembers(clusters, c, b);
    if a != c && b != c {
      var i :| i in References(clusters, c) && a in clusters[i];
      var j :| j in References(clusters, c) && b in clusters[j];
      if StrongReferences(clusters, c) == {} {
        assert MatchesWeakly(clusters[i], c);
        assert !HasGlobalId(a);
      } else {
        IdlessReferencesAgree(clusters, c, i, j);
      }
    }
  }

  /** A candidate with neither a DOI nor an arXiv id is never rejected. */
  lemma IdlessAlwaysAccepted(clusters: seq<Cluster>, ties: set<(Candidate, Candidate)>, c: Candidate)
    requires WellClustered(clusters, ties) && !HasGlobalId(c)
    ensures Accepts(clusters, c)
  {
    forall a, b | a in Merged(clusters, c) && b in Merged(clusters, c)
      ensures (a.doi == "" || b.doi == "" || a.doi == b.doi)
          && (a.arxivId == "" || b.arxivId == "" || a.arxivId == b.arxivId)
    {
      IdlessPairAgrees(clusters, c, a, b);
    }
  }

  /** A candidate is rejected exactly when two of the members it would bring together, itself
      included, carry different DOIs or different arXiv ids. */
  lemma RejectedIff(clusters: seq<Cluster>, c: Candidate)
    ensures !Accepts(clusters, c) <==>
            exists a, b ::
              && (a == c || exists i :: i in References(clusters, c) && a in clusters[i])
              && (b == c || exists j :: j in References(clusters, c) && b in clusters[j])
              && ((a.doi != "" && b.doi != "" && a.doi != b.doi)
                  || (a.arxivId != "" && b.arxivId != "" && a.arxivId != b.arxivId))
  {
    forall x
      ensures x in Merged(clusters, c) <==> (x == c || exists i :: i in References(clusters, c) && x in clusters[i])
    {
      MergedMembers(clusters, c, x);
    }
  }

  ghost predicate SameCluster(clusters: seq<Cluster>, a: Candidate, b: Candidate)
  {
    exists i :: 0 <= i < |clusters| && a in clusters[i] && b in clusters[i]
  }

  /** Candidates once in one cluster stay in one cluster. */
  lemma AttachKeepsTogether(clusters: seq<Cluster>, c: Candidate, a: Candidate, b: Candidate)
    requires SameCluster(clusters, a, b)
    ensures SameCluster(Attach(clusters, c), a, b)
  {
    if Accepts(clusters, c) {
      var i :| 0 <= i < |clusters| && a in clusters[i] && b in clusters[i];
      var kept := Ascending(|clusters|, Below(|clusters|) - References(clusters, c));
      var r := Attach(clusters, c);
      if i in References(clusters, c) {
        MergedMembers(clusters, c, a);
        MergedMembers(clusters, c, b);
        assert r[|kept|] == Merged(clusters, c);
      } else {
        AscendingMember(|clusters|, Below(|clusters|) - References(clusters, c), i);
        var k :| 0 <= k < |kept| && kept[k] == i;
        assert r[k] == clusters[i];
      }
    }
  }

  /** A candidate that joins a cluster for a bibliographic match ends up beside the match. */
  lemma TiesAreTogether(clusters: seq<Cluster>, ties: set<(Candidate, Candidate)>, c: Candidate, e: Candidate)
    requires WellClustered(clusters, ties) && TiedTo(clusters, c, e)
    ensures SameCluster(Attach(clusters, c), c, e)
  {
    IdlessAlwaysAccepted(clusters, ties, c);
    var i :| 0 <= i < |clusters| && e in clusters[i] && !HasGlobalStrongId(clusters[i]);
    assert MatchesWeakly(clusters[i], c);
    assert i in References(clusters, c);
    MergedMembers(clusters, c, c);
    MergedMembers(clusters, c, e);
    assert Attach(clusters, c)[|Untouched(clusters, c)|] == Merged(clusters, c);
  }

  lemma HeldInOneCluster(clusters: seq<Cluster>, e: Candidate, i: nat, j: nat)
    requires Separated(clusters) && i < |clusters| && j < |clusters| && e in clusters[i] && e in clusters[j]
    ensures i == j
  {
    assert StronglyLinked(e, e);
  }

  lemma MatchedClusterReferred(clusters: seq<Cluster>, c: Candidate, i: nat, e: Candidate)
    requires i < |clusters| && e in clusters[i] && FingerprintsMatch(FingerprintOf(c), FingerprintOf(e))
    ensures i in References(clusters, c) <==>
            || SharesStrongId(clusters[i], c)
            || (StrongReferences(clusters, c) == {} && !HasGlobalId(c) && !HasGlobalStrongId(clusters[i]))
  {
    assert MatchesWeakly(clusters[i], c) <==> !HasGlobalStrongId(clusters[i]);
    assert SharesStrongId(clusters[i], c) <==> i in StrongReferences(clusters, c);
  }

  /** After an accepting step the candidate shares a cluster with a member of cluster `i` exactly when
      the step referred to `i`. */
  lemma JoinsReferredOnly(clusters: seq<Cluster>, c: Candidate, i: nat, e: Candidate)
    requires Separated(clusters) && Accepts(clusters, c) && i < |clusters| && e in clusters[i]
    ensures SameCluster(Attach(clusters, c), c, e) <==> i in References(clusters, c)
  {
    var kept := Ascending(|clusters|, Below(|clusters|) - References(clusters, c));
    var r := Attach(clusters, c);
    AttachKeepsSeparated(clusters, c);
    MergedMembers(clusters, c, c);
    assert r[|kept|] == Merged(clusters, c);
    if i in References(clusters, c) {
      MergedMembers(clusters, c, e);
    } else {
      forall n | 0 <= n < |r| && c in r[n] ensures e !in r[n] {
        HeldInOneCluster(r, c, n, |kept|);
        if e in Merged(clusters, c) { UntouchedApart(clusters, c, i, e, e); }
      }
    }
  }

  /** A bibliographic match brings an accepted candidate beside the match exactly when the match's
      cluster shares an identifier with it, or when the candidate has no global identifier, shares
      no identifier with any cluster, and the cluster has no global identifier either. */
  lemma WeakMatchJoinsIff(clusters: seq<Cluster>, ties: set<(Candidate, Candidate)>, c: Candidate, i: nat, e: Candidate)
    requires WellClustered(clusters, ties) && Accepts(clusters, c)
    requires i < |clusters| && e in clusters[i] && FingerprintsMatch(FingerprintOf(c), FingerprintOf(e))
    ensures SameCluster(Attach(clusters, c), c, e) <==>
            || SharesStrongId(clusters[i], c)
            || (StrongReferences(clusters, c) == {} && !HasGlobalId(c) && !HasGlobalStrongId(clusters[i]))
  {
    MatchedClusterReferred(clusters, c, i, e);
    JoinsReferredOnly(clusters, c, i, e);
  }

  /** `d` is accepted and refers to the cluster of `a` and to that of `b`. */
  ghost predicate Bridges(clusters: seq<Cluster>, d: Candidate, a: Candidate, b: Candidate)
  {
    && Accepts(clusters, d)
    && (exists i :: i in References(clusters, d) && a in clusters[i])
    && (exists j :: j in References(clusters, d) && b in clusters[j])
  }

  lemma MergedHolds(clusters: seq<Cluster>, d: Candidate, a: Candidate)
    requires SameCluster(clusters, a, a)
    ensures a in Merged(clusters, d) <==> exists i :: i in References(clusters, d) && a in clusters[i]
  {
    MergedMembers(clusters, d, a);
    if a == d {
      var i :| 0 <= i < |clusters| && a in clusters[i];
      assert StronglyLinked(a, d) && i in StrongReferences(clusters, d);
    }
  }

  /** One step brings two clustered candidates together exactly when it bridges their clusters. */
  lemma TogetherNextIff(clusters: seq<Cluster>, d: Candidate, a: Candidate, b: Candidate)
    requires SameCluster(clusters, a, a) && SameCluster(clusters, b, b)
    ensures SameCluster(Attach(clusters, d), a, b) <==> SameCluster(clusters, a, b) || Bridges(clusters, d, a, b)
  {
    var kept, r := Ascending(|clusters|, Below(|clusters|) - References(clusters, d)), Attach(clusters, d);
    MergedHolds(clusters, d, a);
    MergedHolds(clusters, d, b);
    if SameCluster(clusters, a, b) { AttachKeepsTogether(clusters, d, a, b); }
    if Accepts(clusters, d) {
      assert r[|kept|] == Merged(clusters, d);
      assert forall n :: 0 <= n < |kept| ==> r[n] == clusters[kept[n]];
    }
  }

  // ----- whole runs -----

  /** What a run has done so far: the clusters, the candidates accepted and rejected in order, and
      the bibliographic matches it relied on. */
  datatype Run = Run(clusters: seq<Cluster>, accepted: seq<Candidate>, rejected: seq<Candidate>,
      ties: set<(Candidate, Candidate)>)

  ghost function Next(run: Run, c: Candidate): Run
  {
    if Accepts(run.clusters, c) then
      Run(Attach(run.clusters, c), run.accepted + [c], run.rejected, run.ties + NewTies(run.clusters, c))
    else
      Run(Attach(run.clusters, c), run.accepted, run.rejected + [c], run.ties + NewTies(run.clusters, c))
  }

  const EMPTY_RUN := Run([], [], [], {})

  /** Attaching `candidates` in order, from no clusters. */
  ghost function Resolve(candidates: seq<Candidate>): Run
  {
    Fold(Next, EMPTY_RUN, candidates)
  }

  ghost predicate Accounted(run: Run, candidates: seq<Candidate>)
  {
    && multiset(Flatten(run.clusters)) == multiset(run.accepted)
    && multiset(run.accepted) + multiset(run.rejected) == multiset(candidates)
  }

  lemma NextAccounted(run: Run, candidates: seq<Candidate>, c: Candidate)
    requires Accounted(run, candidates)
    ensures Accounted(Next(run, c), candidates + [c])
  {
    AttachConserves(run.clusters, c);
  }

  /** Over a whole run the clusters hold exactly the accepted candidates, and accepted and rejected
      candidates together are exactly the candidates processed. */
  lemma ResolveConserves(candidates: seq<Candidate>)
    ensures Accounted(Resolve(candidates), candidates)
  {
    forall run, front, c | Accounted(run, front) ensures Accounted(Next(run, c), front + [c]) {
      NextAccounted(run, front, c);
    }
    FoldKeeps(Next, EMPTY_RUN, candidates, Accounted);
  }

  ghost predicate Sound(run: Run, candidates: seq<Candidate>)
  {
    WellClustered(run.clusters, run.ties)
  }

  /** After any run the clusters are well clustered. */
  lemma ResolveWellClustered(candidates: seq<Candidate>)
    ensures WellClustered(Resolve(candidates).clusters, Resolve(candidates).ties)
  {
    forall run, front, c | Sound(run, front) ensures Sound(Next(run, c), front + [c]) {
      AttachKeepsWellClustered(run.clusters, run.ties, c);
    }
    FoldKeeps(Next, EMPTY_RUN, candidates, Sound);
  }

  lemma AcceptedIsClustered(run: Run, candidates: seq<Candidate>, a: Candidate)
    requires Accounted(run, candidates)
    ensures a in run.accepted <==> SameCluster(run.clusters, a, a)
  {
    FlattenMembers(run.clusters, a);
    assert a in Flatten(run.clusters) <==> a in multiset(Flatten(run.clusters));
    assert a in run.accepted <==> a in multiset(run.accepted);
  }

  lemma ClusteredWasProcessed(candidates: seq<Candidate>, e: Candidate, i: nat)
    requires i < |Resolve(candidates).clusters| && e in Resolve(candidates).clusters[i]
    ensures e in candidates
  {
    var run := Resolve(candidates);
    ResolveConserves(candidates);
    AcceptedIsClustered(run, candidates, e);
    assert e in multiset(run.accepted);
    assert e in multiset(candidates);
  }

  ghost predicate TiesHold(run: Run)
  {
    forall a, b | (a, b) in run.ties :: WeaklyLinked(a, b) && SameCluster(run.clusters, a, b)
  }

  ghost predicate SoundTies(run: Run, candidates: seq<Candidate>)
  {
    WellClustered(run.clusters, run.ties) && TiesHold(run)
  }

  lemma NextTiesHold(run: Run, c: Candidate)
    requires TiesHold(run) && WellClustered(run.clusters, run.ties)
    ensures TiesHold(Next(run, c))
  {
    forall a, b | (a, b) in Next(run, c).ties ensures WeaklyLinked(a, b) && SameCluster(Attach(run.clusters, c), a, b) {
      if (a, b) in run.ties {
        AttachKeepsTogether(run.clusters, c, a, b);
      } else {
        TiesAreTogether(run.clusters, run.ties, a, b);
      }
    }
  }

  /** Every tie is a weak match of two candidates of one final cluster. */
  lemma ResolveTiesHold(candidates: seq<Candidate>)
    ensures TiesHold(Resolve(candidates))
  {
    forall run, front, c | SoundTies(run, front) ensures SoundTies(Next(run, c), front + [c]) {
      AttachKeepsWellClustered(run.clusters, run.ties, c);
      NextTiesHold(run, c);
    }
    FoldKeeps(Next, EMPTY_RUN, candidates, SoundTies);
  }

  lemma LinkedShareCluster(run: Run, candidates: seq<Candidate>, a: Candidate, b: Candidate)
    requires Accounted(run, candidates) && TiesHold(run) && Separated(run.clusters)
    requires a in run.accepted && b in run.accepted && Linked(a, b, run.ties)
    ensures SameCluster(run.clusters, a, b)
  {
    AcceptedIsClustered(run, candidates, a);
    AcceptedIsClustered(run, candidates, b);
  }

  /** In separated clusters, sharing a cluster is transitive. */
  lemma SameClusterTransitive(clusters: seq<Cluster>, a: Candidate, b: Candidate, c: Candidate)
    requires Separated(clusters) && SameCluster(clusters, a, b) && SameCluster(clusters, b, c)
    ensures SameCluster(clusters, a, c)
  {
    var i :| 0 <= i < |clusters| && a in clusters[i] && b in clusters[i];
    var j :| 0 <= j < |clusters| && b in clusters[j] && c in clusters[j];
    assert StronglyLinked(b, b);
  }

  lemma {:induction false} ChainsStayTogether(run: Run, candidates: seq<Candidate>, chain: seq<Candidate>)
    requires Accounted(run, candidates) && TiesHold(run) && Separated(run.clusters)
    requires Path(chain, run.accepted, run.ties)
    ensures SameCluster(run.clusters, chain[0], chain[|chain| - 1])
    decreases |chain|
  {
    var n := |chain| - 1;
    if n == 0 {
      AcceptedIsClustered(run, candidates, chain[0]);
    } else {
      ChainsStayTogether(run, candidates, chain[..n]);
      assert Linked(chain[n - 1], chain[n], run.ties);
      LinkedShareCluster(run, candidates, chain[n - 1], chain[n]);
      SameClusterTransitive(run.clusters, chain[0], chain[n - 1], chain[n]);
    }
  }

  lemma ClusterIsChained(run: Run, candidates: seq<Candidate>, i: nat, a: Candidate, b: Candidate)
    requires Accounted(run, candidates) && WellClustered(run.clusters, run.ties)
    requires i < |run.clusters| && a in run.clusters[i] && b in run.clusters[i]
    ensures Joined(a, b, run.accepted, run.ties)
  {
    assert Connected(run.clusters[i], run.ties) && Joined(a, b, run.clusters[i], run.ties);
    forall x | x in run.clusters[i] ensures x in run.accepted {
      AcceptedIsClustered(run, candidates, x);
    }
    JoinedWithin(a, b, run.clusters[i], run.ties, run.accepted, run.ties);
  }

  /** The final clusters are the connected components of the accepted candidates under shared DOI,
      arXiv id or source key and the bibliographic ties of the run. */
  lemma ClustersAreComponents(candidates: seq<Candidate>, a: Candidate, b: Candidate)
    requires a in Resolve(candidates).accepted && b in Resolve(candidates).accepted
    ensures SameCluster(Resolve(candidates).clusters, a, b) <==>
        Joined(a, b, Resolve(candidates).accepted, Resolve(candidates).ties)
  {
    var run := Resolve(candidates);
    ResolveConserves(candidates);
    ResolveWellClustered(candidates);
    ResolveTiesHold(candidates);
    if i :| 0 <= i < |run.clusters| && a in run.clusters[i] && b in run.clusters[i] {
      ClusterIsChained(run, candidates, i, a, b);
    }
    if p :| PathBetween(p, a, b, run.accepted, run.ties) {
      ChainsStayTogether(run, candidates, p);
    }
  }

  /** Attaching `d` bridges the clusters of `a` and `b`. */
  ghost function Bridging(a: Candidate, b: Candidate): (Run, Candidate) -> bool
  {
    (run: Run, d: Candidate) => Bridges(run.clusters, d, a, b)
  }

  lemma {:induction false} TogetherFromIff(run: Run, back: seq<Candidate>, a: Candidate, b: Candidate)
    requires SameCluster(run.clusters, a, a) && SameCluster(run.clusters, b, b)
    ensures var clusters := Fold(Next, run, back).clusters;
      && SameCluster(clusters, a, a) && SameCluster(clusters, b, b)
      && (SameCluster(clusters, a, b) <==> SameCluster(run.clusters, a, b) || Happened(Next, run, back, Bridging(a, b)))
  {
    if back == [] {
    } else {
      var front, d := back[..|back| - 1], back[|back| - 1];
      var clusters := Fold(Next, run, front).clusters;
      TogetherFromIff(run, front, a, b);
      HappenedNext(Next, run, back, Bridging(a, b));
      TogetherNextIff(clusters, d, a, b);
      AttachKeepsTogether(clusters, d, a, a);
      AttachKeepsTogether(clusters, d, b, b);
    }
  }

  /** In a whole run, an accepted candidate ends in the cluster of an earlier bibliographic match exactly
      when the guard of the weak branch held at its step, its cluster then shared an identifier with it,
      or a later candidate bridged the two clusters. */
  lemma WeakMatchTogetherIff(front: seq<Candidate>, c: Candidate, back: seq<Candidate>, i: nat, e: Candidate)
    requires Accepts(Resolve(front).clusters, c) && i < |Resolve(front).clusters| && e in Resolve(front).clusters[i]
    requires FingerprintsMatch(FingerprintOf(c), FingerprintOf(e))
    ensures var clusters := Resolve(front).clusters;
      SameCluster(Resolve(front + [c] + back).clusters, c, e) <==>
        || SharesStrongId(clusters[i], c)
        || (StrongReferences(clusters, c) == {} && !HasGlobalId(c) && !HasGlobalStrongId(clusters[i]))
        || Happened(Next, Resolve(front + [c]), back, Bridging(c, e))
  {
    var run := Resolve(front);
    ResolveWellClustered(front);
    WeakMatchJoinsIff(run.clusters, run.ties, c, i, e);
    FoldNext(Next, EMPTY_RUN, front, c);
    AttachKeepsTogether(run.clusters, c, e, e);
    MergedMembers(run.clusters, c, c);
    assert Attach(run.clusters, c)[|Untouched(run.clusters, c)|] == Merged(run.clusters, c);
    TogetherFromIff(Resolve(front + [c]), back, c, e);
    FoldConcat(Next, EMPTY_RUN, front + [c], back);
  }

  lemma TiedRefers(clusters: seq<Cluster>, c: Candidate, e: Candidate)
    ensures TiedTo(clusters, c, e) ==> References(clusters, c) != {}
  {
    if TiedTo(clusters, c, e) {
      var i :| 0 <= i < |clusters| && e in clusters[i] && !HasGlobalStrongId(clusters[i]);
      assert i in References(clusters, c);
    }
  }

  lemma NextUnrelated(run: Run, c: Candidate)
    requires References(run.clusters, c) == {}
    ensures Next(run, c) == Run(run.clusters + [[c]], run.accepted + [c], run.rejected, run.ties)
  {
    AttachUnrelated(run.clusters, c);
    forall e ensures TiedTo(run.clusters, c, e) ==> References(run.clusters, c) != {} {
      TiedRefers(run.clusters, c, e);
    }
    assert NewTies(run.clusters, c) == {};
  }

  lemma ResolveOne(x: Candidate)
    ensures Resolve([x]) == Run([[x]], [x], [], {})
  {
    NextUnrelated(EMPTY_RUN, x);
    FoldNext(Next, EMPTY_RUN, [], x);
    assert [] + [[x]] == [[x]] && [] + [x] == [x];
  }

  lemma ResolvePair(x: Candidate, a: Candidate)
    requires !StronglyLinked(x, a) && !FingerprintsMatch(FingerprintOf(a), FingerprintOf(x))
    ensures Resolve([x, a]) == Run([[x], [a]], [x, a], [], {})
  {
    ResolveOne(x);
    assert References([[x]], a) == {} by {
      assert !SharesStrongId([x], a) && !MatchesWeakly([x], a);
    }
    NextUnrelated(Resolve([x]), a);
    FoldNext(Next, EMPTY_RUN, [x], a);
    assert [[x]] + [[a]] == [[x], [a]] && [x] + [a] == [x, a];
  }

  /** Two accepted candidates without global identifiers may match bibliographically and still end in
      different clusters: a repeated source id keeps the match from being consulted. */
  lemma WeakMatchCanStaySplit(x: Candidate, a: Candidate, b: Candidate)
    requires !HasGlobalId(x) && WeaklyLinked(a, b)
    requires !StronglyLinked(x, a) && !FingerprintsMatch(FingerprintOf(a), FingerprintOf(x))
    requires SourceKey(b) == SourceKey(x)
    ensures a in Resolve([x, a, b]).accepted && b in Resolve([x, a, b]).accepted
    ensures !SameCluster(Resolve([x, a, b]).clusters, b, a)
  {
    var run := Run([[x], [a]], [x, a], [], {});
    ResolvePair(x, a);
    ResolveWellClustered([x, a]);
    RepeatedIdHidesMatch(run, x, a, b);
    FoldNext(Next, EMPTY_RUN, [x, a], b);
    assert [x, a] + [b] == [x, a, b];
  }

  lemma RepeatedIdHidesMatch(run: Run, x: Candidate, a: Candidate, b: Candidate)
    requires run.clusters == [[x], [a]] && WellClustered(run.clusters, run.ties)
    requires WeaklyLinked(a, b) && SourceKey(b) == SourceKey(x) != SourceKey(a)
    ensures Accepts(run.clusters, b) && !SameCluster(Attach(run.clusters, b), b, a)
  {
    IdlessAlwaysAccepted(run.clusters, run.ties, b);
    WeaklyLinkedSymmetric(a, b);
    assert x in run.clusters[0] && StronglyLinked(x, b);
    assert 0 in StrongReferences(run.clusters, b);
    assert !SharesStrongId(run.clusters[1], b);
    WeakMatchJoinsIff(run.clusters, run.ties, b, 1, a);
  }
}
