/** Merging the candidates of one cluster into one record (academic/aggregator.py, lines 359-468). */
module Merging {
  import opened Clustering
  import opened Identity
  import opened Options
  import opened Ordering

  datatype PaperIdentifiers = PaperIdentifiers(
    doi: string, arxivId: string, semanticScholarId: string, openalexId: string, dblpKey: string, coreId: string)

  datatype PaperRecord = PaperRecord(
    title: string,
    authors: seq<Folded>,
    summary: string,
    identifiers: PaperIdentifiers,
    published: Option<Date>,
    updated: Option<Date>,
    url: string,
    pdfUrl: Option<string>,
    venue: string,
    topics: seq<Folded>,
    citationCounts: map<string, nat>,
    openAccess: Option<bool>,
    oaStatus: string,
    license: string,
    sources: seq<string>)

  /** Python's `next((value(c) for c in candidates if value(c) is set), default)`; an unset field
      holds its default. */
  function FirstValue<V(==)>(candidates: seq<Candidate>, value: Candidate -> V, default: V): V
  {
    if candidates == [] then default
    else if value(candidates[0]) != default then value(candidates[0])
    else FirstValue(candidates[1..], value, default)
  }

  function NativeId(candidates: seq<Candidate>, source: string): string
  {
    FirstValue(candidates, (c: Candidate) => if c.source == source then c.sourceId else "", "")
  }

  function Identifiers(candidates: seq<Candidate>): PaperIdentifiers
  {
    PaperIdentifiers(
      FirstValue(candidates, (c: Candidate) => c.doi, ""),
      FirstValue(candidates, (c: Candidate) => c.arxivId, ""),
      NativeId(candidates, "semantic_scholar"),
      NativeId(candidates, "openalex"),
      NativeId(candidates, "dblp"),
      NativeId(candidates, "core"))
  }

  /** Python's `dict.fromkeys`: each source once, at its first appearance. */
  function Sources(candidates: seq<Candidate>): seq<string>
  {
    if candidates == [] then []
    else
      var front, last := Sources(candidates[..|candidates| - 1]), candidates[|candidates| - 1].source;
      if last in front then front else front + [last]
  }

  function AddTopics(topics: seq<Folded>, more: seq<Folded>): seq<Folded>
  {
    if more == [] then topics
    else
      var front, last := AddTopics(topics, more[..|more| - 1]), more[|more| - 1];
      if exists t :: t in front && t.fold == last.fold then front else front + [last]
  }

  function StableTopics(candidates: seq<Candidate>): seq<Folded>
  {
    if candidates == [] then []
    else AddTopics(StableTopics(candidates[..|candidates| - 1]), candidates[|candidates| - 1].topics)
  }

  function Max(x: nat, y: nat): nat
  {
    if x < y then y else x
  }

  function CitationCounts(candidates: seq<Candidate>): map<string, nat>
  {
    if candidates == [] then map[]
    else
      var front, c := CitationCounts(candidates[..|candidates| - 1]), candidates[|candidates| - 1];
      if c.citationCount.None? then front
      else front[c.source := Max(if c.source in front then front[c.source] else 0, c.citationCount.value)]
  }

  function MergedFrom(candidates: seq<Candidate>): PaperRecord
    requires candidates != []
  {
    PaperRecord(
      candidates[0].title.text,
      FirstValue(candidates, (c: Candidate) => c.authors, []),
      FirstValue(candidates, (c: Candidate) => c.summary, ""),
      Identifiers(candidates),
      FirstValue(candidates, (c: Candidate) => c.published, None),
      FirstValue(candidates, (c: Candidate) => c.updated, None),
      candidates[0].url,
      FirstValue(candidates, (c: Candidate) => c.pdfUrl, None),
      FirstValue(candidates, (c: Candidate) => c.venue, ""),
      StableTopics(candidates),
      CitationCounts(candidates),
      FirstValue(candidates, (c: Candidate) => c.openAccess, None),
      FirstValue(candidates, (c: Candidate) => c.oaStatus, ""),
      FirstValue(candidates, (c: Candidate) => c.license, ""),
      Sources(candidates))
  }

  function MergedRecord(cluster: Cluster): PaperRecord
    requires cluster != []
  {
    SortOnPermutes(cluster, Precedence);
    MergedFrom(SortOn(cluster, Precedence))
  }

  // ----- the loops -----

  method CollectTopics(candidates: seq<Candidate>) returns (topics: seq<Folded>)
    ensures topics == StableTopics(candidates)
  {
    topics := [];
    var seen: set<string> := {};
    for n := 0 to |candidates|
      invariant topics == StableTopics(candidates[..n])
      invariant seen == set t | t in topics :: t.fold
    {
      assert candidates[..n + 1][..n] == candidates[..n];
      var more := candidates[n].topics;
      for m := 0 to |more|
        invariant topics == AddTopics(StableTopics(candidates[..n]), more[..m])
        invariant seen == set t | t in topics :: t.fold
      {
        assert more[..m + 1][..m] == more[..m];
        if more[m].fold !in seen {
          seen := seen + {more[m].fold};
          topics := topics + [more[m]];
        }
      }
      assert more[..|more|] == more;
    }
    assert candidates[..|candidates|] == candidates;
  }

  method CollectCitationCounts(candidates: seq<Candidate>) returns (counts: map<string, nat>)
    ensures counts == CitationCounts(candidates)
  {
    counts := map[];
    for n := 0 to |candidates|
      invariant counts == CitationCounts(candidates[..n])
    {
      assert candidates[..n + 1][..n] == candidates[..n];
      var c := candidates[n];
      if c.citationCount.Some? {
        counts := counts[c.source := Max(if c.source in counts then counts[c.source] else 0, c.citationCount.value)];
      }
    }
    assert candidates[..|candidates|] == candidates;
  }

  // ----- what the merged record holds -----

  /** `m` has the field set and comes first in precedence among the members that do. */
  ghost predicate Supplies<V>(m: Candidate, cluster: Cluster, value: Candidate -> V, default: V)
  {
    && m in cluster && value(m) != default
    && forall x :: x in cluster && value(x) != default ==> KeyLe(Precedence(m), Precedence(x))
  }

  /** `result` is the field of a supplier, or the default when no member has the field. */
  ghost predicate FieldFrom<V>(cluster: Cluster, value: Candidate -> V, default: V, result: V)
  {
    if exists x :: x in cluster && value(x) != default then
      exists m :: Supplies(m, cluster, value, default) && result == value(m)
    else result == default
  }

  lemma {:induction false} FirstValueOfSorted<V>(candidates: seq<Candidate>, value: Candidate -> V, default: V)
    requires SortedOn(candidates, Precedence)
    ensures FieldFrom(candidates, value, default, FirstValue(candidates, value, default))
  {
    if candidates == [] {
    } else {
      if value(candidates[0]) != default {
        assert Supplies(candidates[0], candidates, value, default);
      } else {
        FirstValueOfSorted(candidates[1..], value, default);
        assert candidates == [candidates[0]] + candidates[1..];
        if m :| Supplies(m, candidates[1..], value, default) && FirstValue(candidates, value, default) == value(m) {
          assert Supplies(m, candidates, value, default);
        }
      }
    }
  }

  lemma FieldOfCluster<V>(cluster: Cluster, value: Candidate -> V, default: V)
    ensures FieldFrom(cluster, value, default, FirstValue(SortOn(cluster, Precedence), value, default))
  {
    var sorted := SortOn(cluster, Precedence);
    var result := FirstValue(sorted, value, default);
    SortOnPermutes(cluster, Precedence);
    SortOnSorted(cluster, Precedence);
    FirstValueOfSorted(sorted, value, default);
    forall x ensures x in sorted <==> x in cluster { PermutationMembers(sorted, cluster, x); }
    if m :| Supplies(m, sorted, value, default) && result == value(m) {
      assert Supplies(m, cluster, value, default);
    }
  }

  lemma LeastMember(cluster: Cluster)
    requires cluster != []
    ensures |SortOn(cluster, Precedence)| == |cluster| && SortOn(cluster, Precedence)[0] in cluster
    ensures forall x :: x in cluster ==> KeyLe(Precedence(SortOn(cluster, Precedence)[0]), Precedence(x))
  {
    var sorted := SortOn(cluster, Precedence);
    SortOnPermutes(cluster, Precedence);
    SortOnSorted(cluster, Precedence);
    PermutationMembers(sorted, cluster, sorted[0]);
    forall x | x in cluster ensures KeyLe(Precedence(sorted[0]), Precedence(x)) {
      PermutationMembers(sorted, cluster, x);
    }
  }

  /** Every scalar field of a merged record is the value held by the first candidate in precedence
      that has the field. */
  lemma MergedFields(cluster: Cluster)
    requires cluster != []
    ensures var r := MergedRecord(cluster);
      && (exists m ::
          m in cluster && (forall x :: x in cluster ==> KeyLe(Precedence(m), Precedence(x))) && r.title == m.title.text
            && r.url == m.url)
      && FieldFrom(cluster, (c: Candidate) => c.authors, [], r.authors)
      && FieldFrom(cluster, (c: Candidate) => c.summary, "", r.summary)
      && FieldFrom(cluster, (c: Candidate) => c.published, None, r.published)
      && FieldFrom(cluster, (c: Candidate) => c.updated, None, r.updated)
      && FieldFrom(cluster, (c: Candidate) => c.pdfUrl, None, r.pdfUrl)
      && FieldFrom(cluster, (c: Candidate) => c.venue, "", r.venue)
      && FieldFrom(cluster, (c: Candidate) => c.openAccess, None, r.openAccess)
      && FieldFrom(cluster, (c: Candidate) => c.oaStatus, "", r.oaStatus)
      && FieldFrom(cluster, (c: Candidate) => c.license, "", r.license)
  {
    LeastMember(cluster);
    FieldOfCluster(cluster, (c: Candidate) => c.authors, []);
    FieldOfCluster(cluster, (c: Candidate) => c.summary, "");
    FieldOfCluster(cluster, (c: Candidate) => c.published, None);
    FieldOfCluster(cluster, (c: Candidate) => c.updated, None);
    FieldOfCluster(cluster, (c: Candidate) => c.pdfUrl, None);
    FieldOfCluster(cluster, (c: Candidate) => c.venue, "");
    FieldOfCluster(cluster, (c: Candidate) => c.openAccess, None);
    FieldOfCluster(cluster, (c: Candidate) => c.oaStatus, "");
    FieldOfCluster(cluster, (c: Candidate) => c.license, "");
  }

  predicate Academic(c: Candidate)
  {
    !Generated(c.source)
  }

  /** When an academic member has the field, `result` is the field of an academic member. */
  ghost predicate FromAcademic<V>(cluster: Cluster, value: Candidate -> V, default: V, result: V)
  {
    (exists x :: x in cluster && Academic(x) && value(x) != default) ==>
      exists m :: m in cluster && Academic(m) && value(m) == result && result != default
  }

  lemma AcademicSupplies<V>(cluster: Cluster, value: Candidate -> V, default: V, result: V)
    requires FieldFrom(cluster, value, default, result)
    ensures FromAcademic(cluster, value, default, result)
  {
    if x :| x in cluster && Academic(x) && value(x) != default {
      var m :| Supplies(m, cluster, value, default) && result == value(m);
      assert KeyLe(Precedence(m), Precedence(x));
    }
  }

  /** A generated candidate never supplies a field of the record that an academic member has. */
  lemma GeneratedNeverOverrides(cluster: Cluster)
    requires cluster != []
    ensures var r := MergedRecord(cluster);
      && ((exists x :: x in cluster && Academic(x)) ==>
          exists m :: m in cluster && Academic(m) && r.title == m.title.text && r.url == m.url)
      && FromAcademic(cluster, (c: Candidate) => c.authors, [], r.authors)
      && FromAcademic(cluster, (c: Candidate) => c.summary, "", r.summary)
      && FromAcademic(cluster, (c: Candidate) => c.published, None, r.published)
      && FromAcademic(cluster, (c: Candidate) => c.updated, None, r.updated)
      && FromAcademic(cluster, (c: Candidate) => c.pdfUrl, None, r.pdfUrl)
      && FromAcademic(cluster, (c: Candidate) => c.venue, "", r.venue)
      && FromAcademic(cluster, (c: Candidate) => c.openAccess, None, r.openAccess)
      && FromAcademic(cluster, (c: Candidate) => c.oaStatus, "", r.oaStatus)
      && FromAcademic(cluster, (c: Candidate) => c.license, "", r.license)
  {
    var r := MergedRecord(cluster);
    MergedFields(cluster);
    AcademicTitle(cluster);
    AcademicSupplies(cluster, (c: Candidate) => c.authors, [], r.authors);
    AcademicSupplies(cluster, (c: Candidate) => c.summary, "", r.summary);
    AcademicSupplies(cluster, (c: Candidate) => c.published, None, r.published);
    AcademicSupplies(cluster, (c: Candidate) => c.updated, None, r.updated);
    AcademicSupplies(cluster, (c: Candidate) => c.pdfUrl, None, r.pdfUrl);
    AcademicSupplies(cluster, (c: Candidate) => c.venue, "", r.venue);
    AcademicSupplies(cluster, (c: Candidate) => c.openAccess, None, r.openAccess);
    AcademicSupplies(cluster, (c: Candidate) => c.oaStatus, "", r.oaStatus);
    AcademicSupplies(cluster, (c: Candidate) => c.license, "", r.license);
  }

  lemma AcademicTitle(cluster: Cluster)
    requires cluster != []
    ensures var r := MergedRecord(cluster);
      (exists x :: x in cluster && Academic(x)) ==>
        exists m :: m in cluster && Academic(m) && r.title == m.title.text && r.url == m.url
  {
    LeastMember(cluster);
    if x :| x in cluster && Academic(x) {
      var least := SortOn(cluster, Precedence)[0];
      assert KeyLe(Precedence(least), Precedence(x));
    }
  }

  /** `ids` are the DOI and the arXiv id of every member that has one, and for each native source the id
      of a member from it when there is one. */
  ghost predicate IdentifiersOf(cluster: Cluster, ids: PaperIdentifiers)
  {
    && (forall c :: c in cluster && c.doi != "" ==> ids.doi == c.doi)
    && (forall c :: c in cluster && c.arxivId != "" ==> ids.arxivId == c.arxivId)
    && (ids.doi != "" ==> exists c :: c in cluster && ids.doi == c.doi)
    && (ids.arxivId != "" ==> exists c :: c in cluster && ids.arxivId == c.arxivId)
    && NativeFrom(cluster, "semantic_scholar", ids.semanticScholarId)
    && NativeFrom(cluster, "openalex", ids.openalexId)
    && NativeFrom(cluster, "dblp", ids.dblpKey)
    && NativeFrom(cluster, "core", ids.coreId)
  }

  /** In a conflict-free cluster the record carries the identifiers of the members. */
  lemma MergedIdentifiers(cluster: Cluster)
    requires cluster != [] && OneIdentity(cluster)
    requires forall c :: c in cluster ==> c.sourceId != ""
    ensures IdentifiersOf(cluster, MergedRecord(cluster).identifiers)
  {
    DoiOfCluster(cluster, MergedRecord(cluster).identifiers.doi);
    ArxivIdOfCluster(cluster, MergedRecord(cluster).identifiers.arxivId);
    NativeOfCluster(cluster, "semantic_scholar");
    NativeOfCluster(cluster, "openalex");
    NativeOfCluster(cluster, "dblp");
    NativeOfCluster(cluster, "core");
  }

  lemma DoiOfCluster(cluster: Cluster, doi: string)
    requires OneIdentity(cluster)
    requires doi == FirstValue(SortOn(cluster, Precedence), (c: Candidate) => c.doi, "")
    ensures forall c :: c in cluster && c.doi != "" ==> doi == c.doi
    ensures doi != "" ==> exists c :: c in cluster && doi == c.doi
  {
    FieldOfCluster(cluster, (c: Candidate) => c.doi, "");
  }

  lemma ArxivIdOfCluster(cluster: Cluster, arxivId: string)
    requires OneIdentity(cluster)
    requires arxivId == FirstValue(SortOn(cluster, Precedence), (c: Candidate) => c.arxivId, "")
    ensures forall c :: c in cluster && c.arxivId != "" ==> arxivId == c.arxivId
    ensures arxivId != "" ==> exists c :: c in cluster && arxivId == c.arxivId
  {
    FieldOfCluster(cluster, (c: Candidate) => c.arxivId, "");
  }

  /** `id` is the id of the first candidate of `source` in precedence, or blank when there is none. */
  ghost predicate NativeFrom(cluster: Cluster, source: string, id: string)
  {
    if exists c :: c in cluster && c.source == source then
      exists m :: m in cluster && m.source == source && id == m.sourceId
        && forall x :: x in cluster && x.source == source ==> KeyLe(Precedence(m), Precedence(x))
    else id == ""
  }

  lemma NativeOfCluster(cluster: Cluster, source: string)
    requires forall c :: c in cluster ==> c.sourceId != ""
    ensures NativeFrom(cluster, source, NativeId(SortOn(cluster, Precedence), source))
  {
    var value := (c: Candidate) => if c.source == source then c.sourceId else "";
    FieldOfCluster(cluster, value, "");
    if c :| c in cluster && c.source == source {
      assert value(c) != "";
      var m :| Supplies(m, cluster, value, "") && NativeId(SortOn(cluster, Precedence), source) == value(m);
      forall x | x in cluster && x.source == source ensures KeyLe(Precedence(m), Precedence(x)) {
        assert value(x) != "";
      }
    }
  }

  /** Citation counts are the per-source maximum over the candidates that report one. */
  ghost predicate CountsAreMaxima(candidates: seq<Candidate>, counts: map<string, nat>)
  {
    && (forall c :: c in candidates && c.citationCount.Some? ==>
        c.source in counts && c.citationCount.value <= counts[c.source])
    && (forall s :: s in counts ==> exists c :: c in candidates && c.source == s && c.citationCount == Some(counts[s]))
  }

  lemma {:induction false} CitationCountsAreMaxima(candidates: seq<Candidate>)
    ensures CountsAreMaxima(candidates, CitationCounts(candidates))
  {
    if candidates == [] {
    } else {
      var n := |candidates| - 1;
      CitationCountsAreMaxima(candidates[..n]);
      CountsNext(candidates[..n], candidates[n], CitationCounts(candidates[..n]), CitationCounts(candidates));
      assert candidates[..n] + [candidates[n]] == candidates;
    }
  }

  lemma CountsNext(front: seq<Candidate>, c: Candidate, before: map<string, nat>, after: map<string, nat>)
    requires CountsAreMaxima(front, before)
    requires after ==
             if c.citationCount.None? then before
             else before[c.source := Max(if c.source in before then before[c.source] else 0, c.citationCount.value)]
    ensures CountsAreMaxima(front + [c], after)
  {
    forall s | s in after ensures exists x :: x in front + [c] && x.source == s && x.citationCount == Some(after[s]) {
      if s in before && after[s] == before[s] {
        var x :| x in front && x.source == s && x.citationCount == Some(before[s]);
        assert x in front + [c];
      } else {
        assert c in front + [c];
      }
    }
  }

  // ----- lists that keep the first of each -----

  /** At `p`, a key of `all` occurs for the first time. */
  ghost predicate FirstAt<T, K>(all: seq<T>, key: T -> K, p: nat)
  {
    p < |all| && forall q :: 0 <= q < p ==> key(all[q]) != key(all[p])
  }

  /** `at` are the positions, in order, at which a key of `all` occurs for the first time. */
  ghost predicate Firsts<T, K>(all: seq<T>, key: T -> K, at: seq<nat>)
  {
    && (forall i, j :: 0 <= i < j < |at| ==> at[i] < at[j])
    && (forall p: nat :: p in at <==> FirstAt(all, key, p))
  }

  ghost predicate KeptAt<T, K>(all: seq<T>, key: T -> K, kept: seq<T>, at: seq<nat>)
  {
    && Firsts(all, key, at) && |kept| == |at|
    && forall i :: 0 <= i < |at| ==> at[i] < |all| && kept[i] == all[at[i]]
  }

  /** `kept` is the first of `all` for each key, in order. */
  ghost predicate KeepsFirsts<T, K>(all: seq<T>, key: T -> K, kept: seq<T>)
  {
    exists at :: KeptAt(all, key, kept, at)
  }

  ghost predicate HasKey<T, K>(all: seq<T>, key: T -> K, k: K)
  {
    exists q :: 0 <= q < |all| && key(all[q]) == k
  }

  lemma {:induction false} FirstPosition<T, K>(all: seq<T>, key: T -> K, at: seq<nat>, q: nat) returns (p: nat)
    requires Firsts(all, key, at) && q < |all|
    ensures p in at && p <= q && key(all[p]) == key(all[q])
  {
    if r: nat :| r < q && key(all[r]) == key(all[q]) {
      p := FirstPosition(all, key, at, r);
    } else {
      p := q;
      assert FirstAt(all, key, p);
    }
  }

  /** No key is lost, none is invented, and each is kept once. */
  lemma KeptMeaning<T, K>(all: seq<T>, key: T -> K, kept: seq<T>)
    requires KeepsFirsts(all, key, kept)
    ensures forall k :: HasKey(kept, key, k) <==> HasKey(all, key, k)
    ensures forall i, j :: 0 <= i < j < |kept| ==> key(kept[i]) != key(kept[j])
  {
    var at :| KeptAt(all, key, kept, at);
    forall k ensures HasKey(kept, key, k) <==> HasKey(all, key, k) {
      if q: nat :| q < |all| && key(all[q]) == k {
        var p := FirstPosition(all, key, at, q);
        var i :| 0 <= i < |at| && at[i] == p;
        assert kept[i] == all[p];
      }
      if i :| 0 <= i < |kept| && key(kept[i]) == k { assert key(all[at[i]]) == k; }
    }
    forall i, j | 0 <= i < j < |kept| ensures key(kept[i]) != key(kept[j]) {
      assert at[j] in at && FirstAt(all, key, at[j]) && at[i] < at[j];
    }
  }

  lemma FirstAtNext<T, K>(all: seq<T>, last: T, key: T -> K, p: nat)
    ensures FirstAt(all + [last], key, p) <==>
            FirstAt(all, key, p) || (p == |all| && !HasKey(all, key, key(last)))
  {
    var longer := all + [last];
    if p == |all| {
      if FirstAt(longer, key, p) {
        forall q | 0 <= q < |all| ensures key(all[q]) != key(last) { assert longer[q] == all[q]; }
      }
    } else if p < |all| {
      assert forall q :: 0 <= q <= p ==> longer[q] == all[q];
    }
  }

  lemma FirstsNext<T, K>(all: seq<T>, last: T, key: T -> K, at: seq<nat>)
    requires Firsts(all, key, at)
    ensures Firsts(all + [last], key, if HasKey(all, key, key(last)) then at else at + [|all|])
  {
    var longer, more := all + [last], if HasKey(all, key, key(last)) then at else at + [|all|];
    forall i | 0 <= i < |at| ensures at[i] < |all| { assert at[i] in at; }
    forall p: nat ensures p in more <==> FirstAt(longer, key, p) {
      FirstAtNext(all, last, key, p);
      assert p in more <==> p in at || (p == |all| && !HasKey(all, key, key(last)));
    }
  }

  lemma KeptNext<T, K>(all: seq<T>, kept: seq<T>, last: T, key: T -> K)
    requires KeepsFirsts(all, key, kept)
    ensures KeepsFirsts(all + [last], key, if HasKey(kept, key, key(last)) then kept else kept + [last])
  {
    KeptMeaning(all, key, kept);
    var at: seq<nat> :| KeptAt(all, key, kept, at);
    FirstsNext(all, last, key, at);
    if HasKey(kept, key, key(last)) {
      assert KeptAt(all + [last], key, kept, at);
    } else {
      assert KeptAt(all + [last], key, kept + [last], at + [|all|]);
    }
  }

  // ----- sources and topics -----

  function SourceNames(candidates: seq<Candidate>): seq<string>
  {
    seq(|candidates|, i requires 0 <= i < |candidates| => candidates[i].source)
  }

  function Itself(s: string): string
  {
    s
  }

  lemma {:induction false} SourcesKeep(candidates: seq<Candidate>)
    ensures KeepsFirsts(SourceNames(candidates), Itself, Sources(candidates))
  {
    if candidates == [] {
      assert KeptAt(SourceNames(candidates), Itself, Sources(candidates), []);
    } else {
      var n := |candidates| - 1;
      var front, last := Sources(candidates[..n]), candidates[n].source;
      SourcesKeep(candidates[..n]);
      SourcesNext(SourceNames(candidates[..n]), front, last);
      NamesNext(candidates, n);
    }
  }

  lemma NamesNext(candidates: seq<Candidate>, n: nat)
    requires |candidates| == n + 1
    ensures SourceNames(candidates) == SourceNames(candidates[..n]) + [candidates[n].source]
  {
  }

  lemma SourcesNext(names: seq<string>, front: seq<string>, last: string)
    requires KeepsFirsts(names, Itself, front)
    ensures KeepsFirsts(names + [last], Itself, if last in front then front else front + [last])
  {
    KeptNext(names, front, last, Itself);
    KeyOfItself(front, last);
  }

  lemma KeyOfItself(names: seq<string>, s: string)
    ensures HasKey(names, Itself, s) <==> s in names
  {
    if s in names {
      var q :| 0 <= q < |names| && names[q] == s;
      assert Itself(names[q]) == s;
    }
  }

  /** Every source is listed once, in the order in which the candidates bring them. */
  lemma SourcesOnce(candidates: seq<Candidate>)
    ensures KeepsFirsts(SourceNames(candidates), Itself, Sources(candidates))
    ensures forall s :: s in Sources(candidates) <==> exists c :: c in candidates && c.source == s
    ensures forall i, j :: 0 <= i < j < |Sources(candidates)| ==> Sources(candidates)[i] != Sources(candidates)[j]
  {
    SourcesKeep(candidates);
    KeptMeaning(SourceNames(candidates), Itself, Sources(candidates));
    forall s ensures s in Sources(candidates) <==> exists c :: c in candidates && c.source == s {
      SourceIsNamed(candidates, s);
      KeyOfItself(Sources(candidates), s);
    }
  }

  lemma SourceIsNamed(candidates: seq<Candidate>, s: string)
    ensures HasKey(SourceNames(candidates), Itself, s) <==> exists c :: c in candidates && c.source == s
  {
    var names := SourceNames(candidates);
    if q :| 0 <= q < |names| && Itself(names[q]) == s { assert candidates[q] in candidates; }
    if c :| c in candidates && c.source == s {
      var q :| 0 <= q < |candidates| && candidates[q] == c;
      assert Itself(names[q]) == s;
    }
  }

  function Fold(t: Folded): string
  {
    t.fold
  }

  /** The topics of all candidates, one list after another. */
  function AllTopics(candidates: seq<Candidate>): seq<Folded>
  {
    if candidates == [] then [] else AllTopics(candidates[..|candidates| - 1]) + candidates[|candidates| - 1].topics
  }

  ghost predicate HasTopic(candidates: seq<Candidate>, fold: string)
  {
    exists c, t :: c in candidates && t in c.topics && t.fold == fold
  }

  lemma FoldListed(topics: seq<Folded>, last: Folded)
    ensures HasKey(topics, Fold, Fold(last)) <==> exists t :: t in topics && t.fold == last.fold
  {
    if t :| t in topics && t.fold == last.fold {
      var q :| 0 <= q < |topics| && topics[q] == t;
      assert Fold(topics[q]) == Fold(last);
    }
  }

  lemma AddTopicsNext(all: seq<Folded>, front: seq<Folded>, last: Folded)
    requires KeepsFirsts(all, Fold, front)
    ensures KeepsFirsts(all + [last], Fold,
                        if exists t :: t in front && t.fold == last.fold then front else front + [last])
  {
    KeptNext(all, front, last, Fold);
    FoldListed(front, last);
  }

  lemma AppendLast<T>(all: seq<T>, more: seq<T>)
    requires more != []
    ensures all + more[..|more| - 1] + [more[|more| - 1]] == all + more
  {
  }

  lemma {:induction false} AddTopicsKeeps(all: seq<Folded>, topics: seq<Folded>, more: seq<Folded>)
    requires KeepsFirsts(all, Fold, topics)
    ensures KeepsFirsts(all + more, Fold, AddTopics(topics, more))
  {
    if more == [] {
      assert all + more == all;
    } else {
      var n := |more| - 1;
      var front, last := AddTopics(topics, more[..n]), more[n];
      AddTopicsKeeps(all, topics, more[..n]);
      AppendLast(all, more);
      AddTopicsNext(all + more[..n], front, last);
    }
  }

  /** Of the topics of all candidates, in their order, the first with each folded form is kept. */
  lemma {:induction false} StableTopicsKeep(candidates: seq<Candidate>)
    ensures KeepsFirsts(AllTopics(candidates), Fold, StableTopics(candidates))
  {
    if candidates == [] {
      assert KeptAt(AllTopics(candidates), Fold, StableTopics(candidates), []);
    } else {
      var n := |candidates| - 1;
      StableTopicsKeep(candidates[..n]);
      AddTopicsKeeps(AllTopics(candidates[..n]), StableTopics(candidates[..n]), candidates[n].topics);
    }
  }

  lemma {:induction false} AllTopicsMeaning(candidates: seq<Candidate>, f: string)
    ensures HasKey(AllTopics(candidates), Fold, f) <==> HasTopic(candidates, f)
  {
    if candidates == [] {
    } else {
      var n := |candidates| - 1;
      AllTopicsMeaning(candidates[..n], f);
      assert candidates == candidates[..n] + [candidates[n]];
      HasKeyConcat(AllTopics(candidates[..n]), candidates[n].topics, f);
      if c, t :| c in candidates && t in c.topics && t.fold == f {
        assert c in candidates[..n] || c == candidates[n];
        if c == candidates[n] {
          var q :| 0 <= q < |c.topics| && c.topics[q] == t;
          assert Fold(c.topics[q]) == f;
        }
      }
      if q :| 0 <= q < |candidates[n].topics| && Fold(candidates[n].topics[q]) == f {
        assert candidates[n] in candidates && candidates[n].topics[q] in candidates[n].topics;
      }
    }
  }

  lemma HasKeyConcat(left: seq<Folded>, right: seq<Folded>, f: string)
    ensures HasKey(left + right, Fold, f) <==> HasKey(left, Fold, f) || HasKey(right, Fold, f)
  {
    var all := left + right;
    if q :| 0 <= q < |left| && Fold(left[q]) == f { assert Fold(all[q]) == f; }
    if q :| 0 <= q < |right| && Fold(right[q]) == f { assert Fold(all[|left| + q]) == f; }
    if q :| 0 <= q < |all| && Fold(all[q]) == f {
      assert if q < |left| then Fold(left[q]) == f else Fold(right[q - |left|]) == f;
    }
  }

  /** `sorted` is the cluster in the order of precedence. */
  ghost predicate InPrecedence(cluster: Cluster, sorted: seq<Candidate>)
  {
    multiset(sorted) == multiset(cluster) && SortedOn(sorted, Precedence)
  }

  /** The collected fields of a merged record, over the members of the cluster: the sources and the topics
      stand in the order in which the members, by precedence, bring them. */
  lemma MergedCollections(cluster: Cluster)
    requires cluster != []
    ensures var r := MergedRecord(cluster);
      && CountsAreMaxima(cluster, r.citationCounts)
      && (forall s :: s in r.sources <==> exists c :: c in cluster && c.source == s)
      && (forall i, j :: 0 <= i < j < |r.sources| ==> r.sources[i] != r.sources[j])
      && (forall i, j :: 0 <= i < j < |r.topics| ==> r.topics[i].fold != r.topics[j].fold)
      && (forall f :: HasKey(r.topics, Fold, f) <==> HasTopic(cluster, f))
      && exists sorted :: InPrecedence(cluster, sorted)
           && KeepsFirsts(SourceNames(sorted), Itself, r.sources) && KeepsFirsts(AllTopics(sorted), Fold, r.topics)
  {
    var sorted := SortOn(cluster, Precedence);
    var r := MergedRecord(cluster);
    SortOnPermutes(cluster, Precedence);
    SortOnSorted(cluster, Precedence);
    forall x ensures x in sorted <==> x in cluster { PermutationMembers(sorted, cluster, x); }
    CitationCountsAreMaxima(sorted);
    SourcesOnce(sorted);
    StableTopicsKeep(sorted);
    KeptMeaning(AllTopics(sorted), Fold, r.topics);
    forall f ensures HasKey(r.topics, Fold, f) <==> HasTopic(cluster, f) {
      AllTopicsMeaning(sorted, f);
    }
    assert InPrecedence(cluster, sorted);
  }
}
