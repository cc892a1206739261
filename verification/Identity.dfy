/** Academic paper candidates, their identities and the links between them
    (academic/normalization.py and the candidate class of academic/aggregator.py). */
module Identity {
  import opened Options
  import opened Ordering

  datatype Date = Date(year: int, month: int, day: int)

  /** A display string beside its case-folded form; the folding itself is not modelled. */
  datatype Folded = Folded(text: string, fold: string)

  /** A hit that passed normalization; `summary` is its abstract. `rank` and `discovery` are the two parts
      of its origin rank. */
  datatype Candidate = Candidate(
    source: string,
    sourceId: string,
    title: Folded,
    authors: seq<Folded>,
    summary: string,
    doi: string,
    arxivId: string,
    published: Option<Date>,
    updated: Option<Date>,
    url: string,
    pdfUrl: Option<string>,
    venue: string,
    topics: seq<Folded>,
    citationCount: Option<nat>,
    openAccess: Option<bool>,
    oaStatus: string,
    license: string,
    rank: int,
    discovery: nat)

  function SourceKey(c: Candidate): (string, string)
  {
    (c.source, c.sourceId)
  }

  /** The sources whose candidates a language model or an agent wrote. */
  predicate Generated(source: string)
  {
    "llm:" <= source || "agent:" <= source
  }

  /** A generated source is named by its kind and a provider. */
  lemma GeneratedMeaning(source: string)
    ensures Generated(source) <==> exists provider :: source == "llm:" + provider || source == "agent:" + provider
  {
    if "llm:" <= source { assert source == "llm:" + source[4..]; }
    if "agent:" <= source { assert source == "agent:" + source[6..]; }
  }

  function ProcessingKey(c: Candidate): Key
  {
    Key(c.rank, c.discovery, c.source, c.sourceId)
  }

  function Precedence(c: Candidate): Key
  {
    Key(if Generated(c.source) then 1 else 0, c.rank, c.source, c.sourceId)
  }

  datatype Fingerprint = Fingerprint(title: string, authors: set<string>, year: int)

  function NormalizedAuthors(authors: seq<Folded>): set<string>
  {
    set k | 0 <= k < |authors| && authors[k].fold != "" :: authors[k].fold
  }

  function BibliographicFingerprint(title: Folded, authors: seq<Folded>, published: Option<Date>): Option<Fingerprint>
  {
    var evidence := NormalizedAuthors(authors);
    if title.fold == "" || evidence == {} || published.None? then None
    else Some(Fingerprint(title.fold, evidence, published.value.year))
  }

  function FingerprintOf(c: Candidate): Option<Fingerprint>
  {
    BibliographicFingerprint(c.title, c.authors, c.published)
  }

  predicate FingerprintsMatch(left: Option<Fingerprint>, right: Option<Fingerprint>)
  {
    left.Some? && right.Some?
    && left.value.title == right.value.title
    && left.value.year == right.value.year
    && left.value.authors * right.value.authors != {}
  }

  /** Two candidates match bibliographically exactly when both carry a title and a year, these
      agree after folding, and some non-blank author name occurs in both. */
  lemma FingerprintsMatchMeaning(a: Candidate, b: Candidate)
    ensures FingerprintsMatch(FingerprintOf(a), FingerprintOf(b)) <==>
            && a.title.fold != "" && a.title.fold == b.title.fold
            && a.published.Some? && b.published.Some? && a.published.value.year == b.published.value.year
            && exists x, y :: x in a.authors && y in b.authors && x.fold == y.fold && x.fold != ""
  {
    var left, right := NormalizedAuthors(a.authors), NormalizedAuthors(b.authors);
    if x, y :| x in a.authors && y in b.authors && x.fold == y.fold && x.fold != "" {
      assert x.fold in left * right;
    }
    if left * right != {} {
      var f :| f in left * right;
      var i :| 0 <= i < |a.authors| && a.authors[i].fold == f;
      var j :| 0 <= j < |b.authors| && b.authors[j].fold == f;
      assert a.authors[i] in a.authors && b.authors[j] in b.authors;
    }
  }

  predicate HasGlobalId(c: Candidate)
  {
    c.doi != "" || c.arxivId != ""
  }

  /** The identities that force two candidates to be one paper. */
  predicate StronglyLinked(a: Candidate, b: Candidate)
  {
    || (a.doi != "" && a.doi == b.doi)
    || (a.arxivId != "" && a.arxivId == b.arxivId)
    || SourceKey(a) == SourceKey(b)
  }

  /** Bibliographic evidence counts only between candidates without a DOI or an arXiv id. */
  predicate WeaklyLinked(a: Candidate, b: Candidate)
  {
    !HasGlobalId(a) && !HasGlobalId(b) && FingerprintsMatch(FingerprintOf(a), FingerprintOf(b))
  }

  /** The link relation of a run: a strong link, or a weak match the run relied on, given as `ties`. */
  ghost predicate Linked(a: Candidate, b: Candidate, ties: set<(Candidate, Candidate)>)
  {
    StronglyLinked(a, b) || (a, b) in ties || (b, a) in ties
  }

  lemma WeaklyLinkedSymmetric(a: Candidate, b: Candidate)
    ensures WeaklyLinked(a, b) <==> WeaklyLinked(b, a)
  {
    if FingerprintOf(a).Some? && FingerprintOf(b).Some? {
      var left, right := FingerprintOf(a).value.authors, FingerprintOf(b).value.authors;
      assert left * right == right * left;
    }
  }

  /** `p` walks from link to link inside `members`. */
  ghost predicate Path(p: seq<Candidate>, members: seq<Candidate>, ties: set<(Candidate, Candidate)>)
  {
    && p != []
    && (forall k :: 0 <= k < |p| ==> p[k] in members)
    && (forall j, k :: 0 <= j < k < |p| && k == j + 1 ==> Linked(p[j], p[k], ties))
  }

  ghost predicate PathBetween(p: seq<Candidate>, a: Candidate, b: Candidate, members: seq<Candidate>,
                              ties: set<(Candidate, Candidate)>)
  {
    Path(p, members, ties) && p[0] == a && p[|p| - 1] == b
  }

  ghost predicate Joined(a: Candidate, b: Candidate, members: seq<Candidate>, ties: set<(Candidate, Candidate)>)
  {
    exists p :: PathBetween(p, a, b, members, ties)
  }

  ghost predicate Connected(members: seq<Candidate>, ties: set<(Candidate, Candidate)>)
  {
    forall a, b {:trigger Joined(a, b, members, ties)} :: a in members && b in members ==> Joined(a, b, members, ties)
  }

  lemma JoinedByLink(a: Candidate, b: Candidate, members: seq<Candidate>, ties: set<(Candidate, Candidate)>)
    requires a in members && b in members && (a == b || Linked(a, b, ties))
    ensures Joined(a, b, members, ties)
  {
    assert PathBetween(if a == b then [a] else [a, b], a, b, members, ties);
  }

  lemma JoinedWithin(a: Candidate, b: Candidate, members: seq<Candidate>, ties: set<(Candidate, Candidate)>,
                     larger: seq<Candidate>, more: set<(Candidate, Candidate)>)
    requires Joined(a, b, members, ties) && ties <= more && forall x :: x in members ==> x in larger
    ensures Joined(a, b, larger, more)
  {
    var p :| PathBetween(p, a, b, members, ties);
    assert PathBetween(p, a, b, larger, more);
  }

  lemma JoinedTransitive(a: Candidate, b: Candidate, c: Candidate, members: seq<Candidate>,
                         ties: set<(Candidate, Candidate)>)
    requires Joined(a, b, members, ties) && Joined(b, c, members, ties)
    ensures Joined(a, c, members, ties)
  {
    var p :| PathBetween(p, a, b, members, ties);
    var q :| PathBetween(q, b, c, members, ties);
    var r := p + q[1..];
    forall j, k | 0 <= j < k < |r| && k == j + 1 ensures Linked(r[j], r[k], ties) {
      if j >= |p| - 1 {
        assert r[j] == q[j - |p| + 1] && r[k] == q[k - |p| + 1];
      }
    }
    assert PathBetween(r, a, c, members, ties);
  }

  lemma JoinedSymmetric(a: Candidate, b: Candidate, members: seq<Candidate>, ties: set<(Candidate, Candidate)>)
    requires Joined(a, b, members, ties)
    ensures Joined(b, a, members, ties)
  {
    var p :| PathBetween(p, a, b, members, ties);
    var r := seq(|p|, k requires 0 <= k < |p| => p[|p| - 1 - k]);
    forall j, k | 0 <= j < k < |r| && k == j + 1 ensures Linked(r[j], r[k], ties) {
      assert Linked(p[|p| - 1 - k], p[|p| - 1 - j], ties);
    }
    assert PathBetween(r, b, a, members, ties);
  }
}
