/** Keyword and text searches: staging one provider's hits, and committing every provider's rows to
    the URL store (orchestrators/search.py, lines 124-168, 380-410, 594-804). */
module Search {
  import opened Folds
  import opened Options
  import opened Strings
  import opened UrlStore

  // ----- staging -----

  /** A keyword hit; `url` is `None` when it does not normalize. */
  datatype Hit = Hit(url: Option<Url>, title: string, snippet: string, rawContent: string, content: string)

  /** What the judge stage does with a candidate body. */
  datatype Judgement = Accepts | Rejects | StageFails | Breaks

  datatype Row = Row(url: Url, summary: string, rawContent: string, content: string)

  datatype Staging = Staged(row: Row) | Dropped | HitFailed | PipelineFailed

  function NonBlank(s: string): string
  {
    if Strip(s) != "" then s else ""
  }

  /** `known` is the record the store holds for the hit's URL when the hit is staged. */
  function StageHit(hit: Hit, known: Option<URLRecord>, judgement: Judgement): Staging
  {
    var summary := if Strip(hit.snippet) != "" then Strip(hit.snippet) else Strip(hit.title);
    if summary == "" then Dropped
    else if hit.url.None? then PipelineFailed
    else
      var bare := Row(hit.url.value, summary, "", "");
      var rawContent, content := NonBlank(hit.rawContent), NonBlank(hit.content);
      if known.Some? && !known.value.available then Staged(bare)
      else if content == "" && rawContent == "" then Staged(bare)
      else
        match judgement
        case Accepts => Staged(Row(hit.url.value, summary, rawContent, content))
        case Rejects => Staged(bare)
        case StageFails => HitFailed
        case Breaks => PipelineFailed
  }

  /** A row ready to be admitted: its abstract is not blank, and each body field is empty or not blank. */
  predicate Admissible(row: Row)
  {
    && Strip(row.summary) != ""
    && (row.rawContent == "" || Strip(row.rawContent) != "")
    && (row.content == "" || Strip(row.content) != "")
  }

  /** Staged rows can be admitted. The abstract is the snippet, or the title when that is blank; the hit's
      non-blank bodies come along exactly when the judge accepted one and the URL was not known to be
      unavailable. */
  lemma StagedIsAdmissible(hit: Hit, known: Option<URLRecord>, judgement: Judgement)
    requires StageHit(hit, known, judgement).Staged?
    ensures var row := StageHit(hit, known, judgement).row;
      && Admissible(row) && hit.url == Some(row.url)
      && (row.summary == Strip(hit.snippet) || (Blank(hit.snippet) && row.summary == Strip(hit.title)))
      && var bodies := judgement == Accepts && !(known.Some? && !known.value.available);
         && (row.rawContent == hit.rawContent != "" <==> bodies && !Blank(hit.rawContent))
         && (row.content == hit.content != "" <==> bodies && !Blank(hit.content))
         && (row.rawContent == "" || row.rawContent == hit.rawContent)
         && (row.content == "" || row.content == hit.content)
  {
    StripIdempotent(hit.snippet);
    StripIdempotent(hit.title);
    StripEmptyIff(hit.snippet);
    StripEmptyIff(hit.rawContent);
    StripEmptyIff(hit.content);
  }

  predicate Unavailable(known: Option<URLRecord>)
  {
    known.Some? && !known.value.available
  }

  /** Of the record known when a hit is staged only its availability matters, and that only for a hit with
      an abstract, a URL and a body whose judge does not reject it. */
  lemma KnownMattersIff(hit: Hit, one: Option<URLRecord>, other: Option<URLRecord>, judgement: Judgement)
    ensures StageHit(hit, one, judgement) != StageHit(hit, other, judgement) <==>
      && Unavailable(one) != Unavailable(other)
      && !(Blank(hit.snippet) && Blank(hit.title)) && hit.url.Some?
      && !(Blank(hit.rawContent) && Blank(hit.content)) && !judgement.Rejects?
  {
    StripEmptyIff(hit.snippet);
    StripEmptyIff(hit.title);
    StripEmptyIff(hit.rawContent);
    StripEmptyIff(hit.content);
  }

  // ----- what becomes of each hit -----

  predicate HasAbstract(hit: Hit)
  {
    !(Blank(hit.snippet) && Blank(hit.title))
  }

  /** The judge is asked about a hit that has a body, unless its URL is known to be unavailable. */
  predicate IsJudged(hit: Hit, known: Option<URLRecord>)
  {
    HasAbstract(hit) && hit.url.Some? && !(Blank(hit.rawContent) && Blank(hit.content)) && !Unavailable(known)
  }

  predicate BreaksPipeline(hit: Hit, known: Option<URLRecord>, judgement: Judgement)
  {
    (HasAbstract(hit) && hit.url.None?) || (IsJudged(hit, known) && judgement.Breaks?)
  }

  predicate FailsAlone(hit: Hit, known: Option<URLRecord>, judgement: Judgement)
  {
    IsJudged(hit, known) && judgement.StageFails?
  }

  predicate IsStaged(hit: Hit, known: Option<URLRecord>, judgement: Judgement)
  {
    HasAbstract(hit) && !BreaksPipeline(hit, known, judgement) && !FailsAlone(hit, known, judgement)
  }

  /** A hit without an abstract is dropped; a hit breaks the pipeline when its URL does not normalize or
      judging it breaks; a failed judge fails the hit alone; every other hit is staged. */
  lemma StageMeaning(hit: Hit, known: Option<URLRecord>, judgement: Judgement)
    ensures var staging := StageHit(hit, known, judgement);
      && (staging.Dropped? <==> !HasAbstract(hit))
      && (staging.PipelineFailed? <==> BreaksPipeline(hit, known, judgement))
      && (staging.HitFailed? <==> FailsAlone(hit, known, judgement))
      && (staging.Staged? <==> IsStaged(hit, known, judgement))
  {
    StripEmptyIff(hit.snippet);
    StripEmptyIff(hit.title);
    StripEmptyIff(hit.rawContent);
    StripEmptyIff(hit.content);
  }

  datatype Outcome = Rows(rows: seq<Row>) | Failed

  function StagedRows(stagings: seq<Staging>): seq<Row>
  {
    if stagings == [] then []
    else
      var front, last := StagedRows(stagings[..|stagings| - 1]), stagings[|stagings| - 1];
      if last.Staged? then front + [last.row] else front
  }

  function Stagings(hits: seq<Hit>, known: seq<Option<URLRecord>>, judgements: seq<Judgement>): seq<Staging>
    requires |known| == |judgements| == |hits|
  {
    seq(|hits|, i requires 0 <= i < |hits| => StageHit(hits[i], known[i], judgements[i]))
  }

  /** A row without its bodies. */
  function Outline(row: Row): Row
  {
    row.(rawContent := "", content := "")
  }

  function Outlines(rows: seq<Row>): seq<Row>
  {
    seq(|rows|, i requires 0 <= i < |rows| => Outline(rows[i]))
  }

  predicate SameOutline(one: Staging, other: Staging)
  {
    (one.Staged? && other.Staged? && Outline(one.row) == Outline(other.row)) || (!one.Staged? && one == other)
  }

  lemma OutlinesNext(front: seq<Row>, last: Row)
    ensures Outlines(front + [last]) == Outlines(front) + [Outline(last)]
  {
  }

  lemma {:induction false} OutlinesAgree(one: seq<Staging>, other: seq<Staging>)
    requires |one| == |other| && forall i :: 0 <= i < |one| ==> SameOutline(one[i], other[i])
    ensures Outlines(StagedRows(one)) == Outlines(StagedRows(other))
    ensures PipelineFailed in one <==> PipelineFailed in other
    ensures HitFailed in one <==> HitFailed in other
  {
    if one == [] {
    } else {
      var n := |one| - 1;
      OutlinesAgree(one[..n], other[..n]);
      assert one == one[..n] + [one[n]] && other == other[..n] + [other[n]];
      assert SameOutline(one[n], other[n]);
      if one[n].Staged? {
        OutlinesNext(StagedRows(one[..n]), one[n].row);
        OutlinesNext(StagedRows(other[..n]), other[n].row);
      }
    }
  }

  /** When no judge fails, the URLs and abstracts of a provider's rows, and whether it fails, do not depend
      on the known records at all: what a fetch marked meanwhile reaches the bodies only. */
  lemma RowsIgnoreKnown(hits: seq<Hit>, one: seq<Option<URLRecord>>, other: seq<Option<URLRecord>>,
                        judgements: seq<Judgement>)
    requires |one| == |other| == |judgements| == |hits|
    requires forall i :: 0 <= i < |hits| ==> judgements[i].Accepts? || judgements[i].Rejects?
    ensures var left, right := Stagings(hits, one, judgements), Stagings(hits, other, judgements);
      && Outlines(StagedRows(left)) == Outlines(StagedRows(right))
      && (PipelineFailed in left <==> PipelineFailed in right) && (HitFailed in left <==> HitFailed in right)
  {
    OutlinesAgree(Stagings(hits, one, judgements), Stagings(hits, other, judgements));
  }

  /** A failed judge drops its hit alone; the provider fails when it broke, or when a judge failed and
      no hit was staged. */
  function PipelineOutcome(stagings: seq<Staging>): Outcome
  {
    if PipelineFailed in stagings || (HitFailed in stagings && StagedRows(stagings) == []) then Failed
    else Rows(StagedRows(stagings))
  }

  /** `kept` lists, in order, the positions of the stagings that gave the rows. */
  ghost predicate RowsAt(stagings: seq<Staging>, kept: seq<nat>, rows: seq<Row>)
  {
    && |kept| == |rows|
    && (forall j, k :: 0 <= j < k < |kept| ==> kept[j] < kept[k])
    && (forall k :: 0 <= k < |kept| ==> kept[k] < |stagings| && stagings[kept[k]] == Staged(rows[k]))
    && (forall i :: 0 <= i < |stagings| && stagings[i].Staged? ==> i in kept)
  }

  lemma {:induction false} StagedRowsAt(stagings: seq<Staging>) returns (kept: seq<nat>)
    ensures RowsAt(stagings, kept, StagedRows(stagings))
  {
    if stagings == [] {
      kept := [];
    } else {
      var n := |stagings| - 1;
      kept := StagedRowsAt(stagings[..n]);
      assert stagings == stagings[..n] + [stagings[n]];
      RowsAtNext(stagings[..n], stagings[n], kept, StagedRows(stagings[..n]));
      if stagings[n].Staged? { kept := kept + [n]; }
    }
  }

  lemma RowsAtNext(front: seq<Staging>, last: Staging, kept: seq<nat>, rows: seq<Row>)
    requires RowsAt(front, kept, rows)
    ensures !last.Staged? ==> RowsAt(front + [last], kept, rows)
    ensures last.Staged? ==> RowsAt(front + [last], kept + [|front|], rows + [last.row])
  {
    var all := front + [last];
    forall i | 0 <= i < |all| && all[i].Staged? ensures i in kept || i == |front| {
      if i < |front| { assert front[i].Staged?; }
    }
    forall i | i in kept ensures i in kept + [|front|] {}
  }

  /** Some hit breaks the pipeline. */
  ghost predicate SomeBreaks(hits: seq<Hit>, known: seq<Option<URLRecord>>, judgements: seq<Judgement>)
    requires |known| == |judgements| == |hits|
  {
    exists i :: 0 <= i < |hits| && BreaksPipeline(hits[i], known[i], judgements[i])
  }

  ghost predicate SomeFailsAlone(hits: seq<Hit>, known: seq<Option<URLRecord>>, judgements: seq<Judgement>)
    requires |known| == |judgements| == |hits|
  {
    exists i :: 0 <= i < |hits| && FailsAlone(hits[i], known[i], judgements[i])
  }

  ghost predicate SomeStaged(hits: seq<Hit>, known: seq<Option<URLRecord>>, judgements: seq<Judgement>)
    requires |known| == |judgements| == |hits|
  {
    exists i :: 0 <= i < |hits| && IsStaged(hits[i], known[i], judgements[i])
  }

  /** A pipeline fails exactly when a hit breaks it, or a judge failed and nothing was staged; otherwise its
      rows are those of the staged hits, in the order of the hits. */
  ghost predicate OutcomeFits(hits: seq<Hit>, known: seq<Option<URLRecord>>, judgements: seq<Judgement>,
                              outcome: Outcome)
    requires |known| == |judgements| == |hits|
  {
    && (outcome.Failed? <==>
        || SomeBreaks(hits, known, judgements)
        || (SomeFailsAlone(hits, known, judgements) && !SomeStaged(hits, known, judgements)))
    && (outcome.Rows? ==> exists kept :: RowsAt(Stagings(hits, known, judgements), kept, outcome.rows))
  }

  lemma OutcomeMeaning(hits: seq<Hit>, known: seq<Option<URLRecord>>, judgements: seq<Judgement>)
    requires |known| == |judgements| == |hits|
    ensures OutcomeFits(hits, known, judgements, PipelineOutcome(Stagings(hits, known, judgements)))
  {
    var stagings := Stagings(hits, known, judgements);
    forall i | 0 <= i < |hits|
      ensures stagings[i].PipelineFailed? <==> BreaksPipeline(hits[i], known[i], judgements[i])
      ensures stagings[i].HitFailed? <==> FailsAlone(hits[i], known[i], judgements[i])
      ensures stagings[i].Staged? <==> IsStaged(hits[i], known[i], judgements[i])
    {
      StageMeaning(hits[i], known[i], judgements[i]);
    }
    var kept := StagedRowsAt(stagings);
    if i :| 0 <= i < |hits| && IsStaged(hits[i], known[i], judgements[i]) {
      assert i in kept;
    }
    if StagedRows(stagings) != [] {
      assert IsStaged(hits[kept[0]], known[kept[0]], judgements[kept[0]]);
    }
  }

  method RunKeywordPipeline(hits: seq<Hit>, known: seq<Option<URLRecord>>, judgements: seq<Judgement>)
      returns (outcome: Outcome)
    requires |known| == |judgements| == |hits|
    ensures outcome == PipelineOutcome(Stagings(hits, known, judgements))
    ensures OutcomeFits(hits, known, judgements, outcome)
  {
    ghost var stagings := Stagings(hits, known, judgements);
    var staged: seq<Row> := [];
    var hitFailure := false;
    for i := 0 to |hits|
      invariant staged == StagedRows(stagings[..i])
      invariant hitFailure <==> HitFailed in stagings[..i]
      invariant PipelineFailed !in stagings[..i]
    {
      assert stagings[..i + 1] == stagings[..i] + [stagings[i]];
      var staging := StageHit(hits[i], known[i], judgements[i]);
      if staging.PipelineFailed? {
        assert stagings[i] == PipelineFailed;
        OutcomeMeaning(hits, known, judgements);
        return Failed;
      }
      if staging.HitFailed? {
        hitFailure := true;
      }
      if staging.Staged? {
        staged := staged + [staging.row];
      }
    }
    assert stagings[..|hits|] == stagings;
    OutcomeMeaning(hits, known, judgements);
    if hitFailure && staged == [] {
      return Failed;
    }
    return Rows(staged);
  }

  // ----- gathering -----

  /** `asyncio.gather`: outcomes stand in the order of the providers, not of their completion. */
  function OutcomeOf(arrivals: seq<(nat, Outcome)>, provider: nat): Outcome
  {
    if arrivals == [] then Failed
    else if arrivals[0].0 == provider then arrivals[0].1
    else OutcomeOf(arrivals[1..], provider)
  }

  function Gathered(providers: nat, arrivals: seq<(nat, Outcome)>): seq<Outcome>
  {
    seq(providers, i requires 0 <= i < providers => OutcomeOf(arrivals, i))
  }

  ghost predicate ArriveOnce(arrivals: seq<(nat, Outcome)>)
  {
    forall i, j :: 0 <= i < j < |arrivals| ==> arrivals[i].0 != arrivals[j].0
  }

  lemma {:induction false} OutcomeOfMember(arrivals: seq<(nat, Outcome)>, provider: nat)
    requires ArriveOnce(arrivals)
    ensures forall a :: a in arrivals && a.0 == provider ==> OutcomeOf(arrivals, provider) == a.1
    ensures (forall a :: a in arrivals ==> a.0 != provider) ==> OutcomeOf(arrivals, provider) == Failed
  {
    if arrivals == [] {
    } else {
      assert forall a :: a in arrivals ==> a == arrivals[0] || a in arrivals[1..];
      OutcomeOfMember(arrivals[1..], provider);
      if arrivals[0].0 == provider {
        assert forall a :: a in arrivals[1..] ==> a.0 != provider;
      }
    }
  }

  /** The gathered outcomes do not depend on the order in which providers complete. */
  lemma GatherIgnoresCompletionOrder(providers: nat, one: seq<(nat, Outcome)>, other: seq<(nat, Outcome)>)
    requires multiset(one) == multiset(other) && ArriveOnce(one) && ArriveOnce(other)
    ensures Gathered(providers, one) == Gathered(providers, other)
  {
    forall i | 0 <= i < providers ensures OutcomeOf(one, i) == OutcomeOf(other, i) {
      OutcomeOfMember(one, i);
      OutcomeOfMember(other, i);
      forall a ensures a in one <==> a in other {
        assert a in one <==> a in multiset(one);
        assert a in other <==> a in multiset(other);
      }
      if a :| a in one && a.0 == i {
        assert a in other;
      }
    }
  }

  // ----- what else the store sees while pipelines run -----

  /** The record the store holds for the hit's URL after `history`. */
  ghost function KnownAfter(history: seq<Op>, hit: Hit): Option<URLRecord>
  {
    if hit.url.Some? && hit.url.value in Replay(history) then Some(Replay(history)[hit.url.value]) else None
  }

  /** A fetch has marked the hit's URL. */
  ghost predicate MarkedFor(history: seq<Op>, hit: Hit)
  {
    hit.url.Some? && Marked(history, hit.url.value)
  }

  /** Whether marks decide how the hit is staged: it has an abstract, a URL and a body that the judge does
      not reject. */
  predicate MarkSensitive(hit: Hit, judgement: Judgement)
  {
    IsJudged(hit, None) && !judgement.Rejects?
  }

  /** Whatever happened to the store, a hit is staged differently after two histories exactly when a fetch
      marked its URL in one and not in the other, and marks matter to it. */
  lemma StagingDiffersIff(hit: Hit, one: seq<Op>, other: seq<Op>, judgement: Judgement)
    ensures StageHit(hit, KnownAfter(one, hit), judgement) != StageHit(hit, KnownAfter(other, hit), judgement) <==>
            MarkedFor(one, hit) != MarkedFor(other, hit) && MarkSensitive(hit, judgement)
  {
    if hit.url.Some? {
      UnavailableIffMarked(one, hit.url.value);
      UnavailableIffMarked(other, hit.url.value);
    }
    KnownMattersIff(hit, KnownAfter(one, hit), KnownAfter(other, hit), judgement);
  }

  /** `histories` is the store's history when each hit is staged. */
  ghost function StagingsDuring(hits: seq<Hit>, histories: seq<seq<Op>>, judgements: seq<Judgement>): seq<Staging>
    requires |histories| == |judgements| == |hits|
  {
    Stagings(hits, seq(|hits|, i requires 0 <= i < |hits| => KnownAfter(histories[i], hits[i])), judgements)
  }

  /** A pipeline's stagings under two courses of events differ exactly when some hit to which marks matter
      had its URL marked at its staging in one and not in the other. */
  lemma StagingsDifferIff(hits: seq<Hit>, one: seq<seq<Op>>, other: seq<seq<Op>>, judgements: seq<Judgement>)
    requires |one| == |other| == |judgements| == |hits|
    ensures StagingsDuring(hits, one, judgements) != StagingsDuring(hits, other, judgements) <==>
            exists i :: 0 <= i < |hits| && MarkSensitive(hits[i], judgements[i])
              && MarkedFor(one[i], hits[i]) != MarkedFor(other[i], hits[i])
  {
    var left, right := StagingsDuring(hits, one, judgements), StagingsDuring(hits, other, judgements);
    forall i | 0 <= i < |hits|
      ensures left[i] != right[i] <==>
              MarkedFor(one[i], hits[i]) != MarkedFor(other[i], hits[i]) && MarkSensitive(hits[i], judgements[i])
    {
      StagingDiffersIff(hits[i], one[i], other[i], judgements[i]);
    }
    assert left == right <==> forall i :: 0 <= i < |hits| ==> left[i] == right[i];
  }

  /** From `start` on, the store has only been searched. */
  ghost predicate SearchedSince(start: seq<Op>, history: seq<Op>)
  {
    start <= history && MarksNothing(history[|start|..])
  }

  /** However many searches commit meanwhile, and in whatever order, a pipeline's stagings and outcome are
      the same: searches never mark a URL. */
  lemma StagingsIgnoreSearches(start: seq<Op>, hits: seq<Hit>, one: seq<seq<Op>>, other: seq<seq<Op>>,
                               judgements: seq<Judgement>)
    requires |one| == |other| == |judgements| == |hits|
    requires forall i :: 0 <= i < |hits| ==> SearchedSince(start, one[i]) && SearchedSince(start, other[i])
    ensures StagingsDuring(hits, one, judgements) == StagingsDuring(hits, other, judgements)
  {
    forall i | 0 <= i < |hits| && hits[i].url.Some?
      ensures MarkedFor(one[i], hits[i]) == MarkedFor(other[i], hits[i])
    {
      MarkedIgnoresSearches(start, one[i][|start|..], hits[i].url.value);
      MarkedIgnoresSearches(start, other[i][|start|..], hits[i].url.value);
      assert start + one[i][|start|..] == one[i] && start + other[i][|start|..] == other[i];
    }
    StagingsDifferIff(hits, one, other, judgements);
  }

  /** What a provider answers and the judge makes of each hit; `Broken` is a provider that failed. */
  datatype Pipeline = Searched(hits: seq<Hit>, judgements: seq<Judgement>) | Broken

  /** `outcome` is one the pipeline can have while the store is only searched. */
  ghost predicate Arises(start: seq<Op>, pipeline: Pipeline, outcome: Outcome)
  {
    match pipeline
    case Broken => outcome == Failed
    case Searched(hits, judgements) =>
      && |judgements| == |hits|
      && exists histories :: StagedAs(start, hits, histories, judgements, outcome)
  }

  ghost predicate StagedAs(start: seq<Op>, hits: seq<Hit>, histories: seq<seq<Op>>, judgements: seq<Judgement>,
                           outcome: Outcome)
    requires |judgements| == |hits|
  {
    && |histories| == |hits|
    && (forall i :: 0 <= i < |hits| ==> SearchedSince(start, histories[i]))
    && outcome == PipelineOutcome(StagingsDuring(hits, histories, judgements))
  }

  lemma OneOutcomeArises(start: seq<Op>, pipeline: Pipeline, one: Outcome, other: Outcome)
    requires Arises(start, pipeline, one) && Arises(start, pipeline, other)
    ensures one == other
  {
    if pipeline.Searched? {
      var left :| StagedAs(start, pipeline.hits, left, pipeline.judgements, one);
      var right :| StagedAs(start, pipeline.hits, right, pipeline.judgements, other);
      StagingsIgnoreSearches(start, pipeline.hits, left, right, pipeline.judgements);
    }
  }

  ghost predicate Arrives(arrivals: seq<(nat, Outcome)>, provider: nat)
  {
    exists i :: 0 <= i < |arrivals| && arrivals[i].0 == provider
  }

  /** Every pipeline completes once, in the order of `arrivals`. */
  ghost predicate Completes(start: seq<Op>, pipelines: seq<Pipeline>, arrivals: seq<(nat, Outcome)>)
  {
    && ArriveOnce(arrivals)
    && (forall i :: 0 <= i < |arrivals| ==>
          arrivals[i].0 < |pipelines| && Arises(start, pipelines[arrivals[i].0], arrivals[i].1))
    && (forall p: nat :: p < |pipelines| ==> Arrives(arrivals, p))
  }

  lemma CompletedOutcomeArises(start: seq<Op>, pipelines: seq<Pipeline>, arrivals: seq<(nat, Outcome)>, p: nat)
    requires Completes(start, pipelines, arrivals) && p < |pipelines|
    ensures Arises(start, pipelines[p], OutcomeOf(arrivals, p))
  {
    assert Arrives(arrivals, p);
    var i :| 0 <= i < |arrivals| && arrivals[i].0 == p;
    OutcomeOfMember(arrivals, p);
    assert arrivals[i] in arrivals;
  }

  /** A search gathers the same outcomes, so it commits the same rows, in whatever order its pipelines
      complete and whatever other searches commit while they run. */
  lemma SearchIgnoresCompletionOrder(start: seq<Op>, pipelines: seq<Pipeline>, one: seq<(nat, Outcome)>,
                                     other: seq<(nat, Outcome)>)
    requires Completes(start, pipelines, one) && Completes(start, pipelines, other)
    ensures Gathered(|pipelines|, one) == Gathered(|pipelines|, other)
    ensures AllRows(Gathered(|pipelines|, one)) == AllRows(Gathered(|pipelines|, other))
  {
    forall p: nat | p < |pipelines| ensures OutcomeOf(one, p) == OutcomeOf(other, p) {
      CompletedOutcomeArises(start, pipelines, one, p);
      CompletedOutcomeArises(start, pipelines, other, p);
      OneOutcomeArises(start, pipelines[p], OutcomeOf(one, p), OutcomeOf(other, p));
    }
    assert Gathered(|pipelines|, one) == Gathered(|pipelines|, other);
  }

  lemma AdmittedOnce(url: Url)
    ensures Replay([Admit(url, "a", "", "")]) == map[url := URLRecord(url, "", "", "a", true)]
  {
    assert Strip("a") == "a";
    FoldNext(Apply, NO_RECORDS, [], Admit(url, "a", "", ""));
    assert [] + [Admit(url, "a", "", "")] == [Admit(url, "a", "", "")];
  }

  lemma MarkedOnce(url: Url)
    ensures Replay([Admit(url, "a", "", ""), MarkUnavailable(url)]) == map[url := URLRecord(url, "", "", "a", false)]
  {
    AdmittedOnce(url);
    FoldNext(Apply, NO_RECORDS, [Admit(url, "a", "", "")], MarkUnavailable(url));
    assert [Admit(url, "a", "", "")] + [MarkUnavailable(url)] == [Admit(url, "a", "", ""), MarkUnavailable(url)];
  }

  lemma StagedByAvailability(hit: Hit, known: URLRecord)
    requires hit.url.Some? && Strip(hit.snippet) == "a" && hit.rawContent == "" && !Blank(hit.content)
    ensures StageHit(hit, Some(known), Accepts) ==
            Staged(Row(hit.url.value, "a", "", if known.available then hit.content else ""))
  {
    StripEmptyIff(hit.content);
  }

  /** A fetch's mark changes a row: before it the hit brings its body, after it does not. */
  lemma MarkChangesRow(url: Url, content: string)
    requires !Blank(content)
    ensures var hit := Hit(Some(url), "a", "a", "", content);
      && StageHit(hit, KnownAfter([Admit(url, "a", "", "")], hit), Accepts) == Staged(Row(url, "a", "", content))
      && StageHit(hit, KnownAfter([Admit(url, "a", "", ""), MarkUnavailable(url)], hit), Accepts)
         == Staged(Row(url, "a", "", ""))
  {
    var hit := Hit(Some(url), "a", "a", "", content);
    AdmittedOnce(url);
    MarkedOnce(url);
    assert Strip("a") == "a";
    StagedByAvailability(hit, URLRecord(url, "", "", "a", true));
    StagedByAvailability(hit, URLRecord(url, "", "", "a", false));
  }

  // ----- committing -----

  datatype SearchRecord = SearchRecord(url: Url, summary: string)

  function AllRows(outcomes: seq<Outcome>): seq<Row>
  {
    if outcomes == [] then []
    else
      var front, last := AllRows(outcomes[..|outcomes| - 1]), outcomes[|outcomes| - 1];
      if last.Rows? then front + last.rows else front
  }

  function RowsOf(outcome: Outcome): seq<Row>
  {
    match outcome
    case Rows(rows) => rows
    case Failed => []
  }

  lemma AllRowsNext(front: seq<Outcome>, last: Outcome)
    ensures AllRows(front + [last]) == AllRows(front) + RowsOf(last)
  {
    assert (front + [last])[..|front|] == front;
  }

  /** A provider's rows stand behind those of the providers before it. */
  lemma {:induction false} AllRowsConcat(one: seq<Outcome>, other: seq<Outcome>)
    ensures AllRows(one + other) == AllRows(one) + AllRows(other)
    decreases |other|
  {
    if other == [] {
      assert one + other == one;
    } else {
      var front, last := other[..|other| - 1], other[|other| - 1];
      AllRowsConcat(one, front);
      AllRowsNext(one + front, last);
      AllRowsNext(front, last);
      AppendLast(one, other);
    }
  }

  lemma AppendLast(one: seq<Outcome>, other: seq<Outcome>)
    requires other != []
    ensures one + other[..|other| - 1] + [other[|other| - 1]] == one + other
    ensures other[..|other| - 1] + [other[|other| - 1]] == other
  {
  }

  function Urls(rows: seq<Row>): seq<Url>
  {
    seq(|rows|, i requires 0 <= i < |rows| => rows[i].url)
  }

  function Admissions(rows: seq<Row>): seq<Op>
  {
    seq(|rows|, i requires 0 <= i < |rows| => Admit(rows[i].url, rows[i].summary, rows[i].rawContent, rows[i].content))
  }

  /** The distinct URLs of a list, each at its first appearance. */
  function FirstAppearances(urls: seq<Url>): seq<Url>
  {
    if urls == [] then []
    else
      var front, last := FirstAppearances(urls[..|urls| - 1]), urls[|urls| - 1];
      if last in front then front else front + [last]
  }

  function FirstIndex(urls: seq<Url>, url: Url): (i: nat)
    requires url in urls
    ensures i < |urls| && urls[i] == url && url !in urls[..i]
  {
    if urls[0] == url then 0
    else
      assert urls == [urls[0]] + urls[1..];
      var j := FirstIndex(urls[1..], url);
      assert urls[..j + 1] == [urls[0]] + urls[1..][..j];
      j + 1
  }

  lemma {:induction false} FirstIndexOfPrefix(front: seq<Url>, last: Url, url: Url)
    requires url in front
    ensures FirstIndex(front + [last], url) == FirstIndex(front, url)
  {
    if front[0] != url {
      assert (front + [last])[1..] == front[1..] + [last];
      FirstIndexOfPrefix(front[1..], last, url);
    }
  }

  /** The rows' URLs are distinct, exactly the committed URLs, in the order they first appear. */
  lemma {:induction false} FirstAppearancesMeaning(urls: seq<Url>)
    ensures forall u :: u in FirstAppearances(urls) <==> u in urls
    ensures forall i, j :: 0 <= i < j < |FirstAppearances(urls)| ==>
              FirstIndex(urls, FirstAppearances(urls)[i]) < FirstIndex(urls, FirstAppearances(urls)[j])
  {
    if urls == [] {
    } else {
      var front, last := urls[..|urls| - 1], urls[|urls| - 1];
      var kept, all := FirstAppearances(front), FirstAppearances(urls);
      FirstAppearancesMeaning(front);
      assert urls == front + [last];
      forall i | 0 <= i < |kept| ensures FirstIndex(urls, kept[i]) == FirstIndex(front, kept[i]) {
        assert kept[i] in front;
        FirstIndexOfPrefix(front, last, kept[i]);
      }
    }
  }

  /** The records a search returns for the rows it committed: one for each URL, with the store's abstract. */
  ghost function SearchRecords(records: Records, rows: seq<Row>): seq<SearchRecord>
    requires forall u :: u in FirstAppearances(Urls(rows)) ==> u in records
  {
    var urls := FirstAppearances(Urls(rows));
    seq(|urls|, i requires 0 <= i < |urls| => SearchRecord(urls[i], records[urls[i]].summary))
  }

  /** Admits one provider's rows and appends their new URLs to the ordered list. */
  method CommitProvider(store: URLStore, rows: seq<Row>, orderedUrls: seq<Url>, seen: set<Url>,
                        ghost start: seq<Op>, ghost committed: seq<Row>)
      returns (longer: seq<Url>, more: set<Url>)
    requires store.Valid() && store.history == start + Admissions(committed)
    requires orderedUrls == FirstAppearances(Urls(committed)) && forall u :: u in seen <==> u in orderedUrls
    requires forall m :: 0 <= m < |rows| ==> Admissible(rows[m])
    modifies store
    ensures store.Valid() && store.history == start + Admissions(committed + rows)
    ensures longer == FirstAppearances(Urls(committed + rows)) && forall u :: u in more <==> u in longer
  {
    longer, more := orderedUrls, seen;
    ghost var soFar := committed;
    for m := 0 to |rows|
      invariant soFar == committed + rows[..m]
      invariant store.Valid() && store.history == start + Admissions(soFar)
      invariant longer == FirstAppearances(Urls(soFar)) && forall u :: u in more <==> u in longer
    {
      var staged := rows[m];
      CommitNext(start, soFar, staged);
      TakeNext(committed, rows, m);
      var admitted := store.Admit(staged.url, staged.summary, staged.rawContent, staged.content);
      assert admitted.Some? by { assert Admissible(rows[m]); }
      soFar := soFar + [staged];
      if staged.url !in more {
        more := more + {staged.url};
        longer := longer + [staged.url];
      }
    }
    assert soFar == committed + rows;
  }

  /** The loop that reads the ordered URLs back from the store. */
  method RecordsFromStore(store: URLStore, orderedUrls: seq<Url>) returns (records: seq<SearchRecord>)
    requires forall i :: 0 <= i < |orderedUrls| ==>
        orderedUrls[i] in store.records && store.records[orderedUrls[i]].url == orderedUrls[i]
    ensures |records| == |orderedUrls|
    ensures forall i :: 0 <= i < |orderedUrls| ==>
        records[i] == SearchRecord(orderedUrls[i], store.records[orderedUrls[i]].summary)
  {
    records := [];
    for i := 0 to |orderedUrls|
      invariant |records| == i
      invariant forall k :: 0 <= k < i ==>
          records[k] == SearchRecord(orderedUrls[k], store.records[orderedUrls[k]].summary)
    {
      var record := store.records[orderedUrls[i]];
      records := records + [SearchRecord(record.url, record.summary)];
    }
  }

  /** Admits the rows of every provider that succeeded, in provider order, and returns one record for
      each URL at its first appearance; `None` when every provider failed. */
  method CommitRows(store: URLStore, outcomes: seq<Outcome>) returns (r: Option<seq<SearchRecord>>)
    requires store.Valid()
    requires forall n :: 0 <= n < |outcomes| && outcomes[n].Rows? ==> forall m :: 0 <= m < |outcomes[n].rows| ==>
        Admissible(outcomes[n].rows[m])
    modifies store
    ensures store.Valid()
    ensures r.None? <==> forall o :: o in outcomes ==> o.Failed?
    ensures r.None? ==> store.history == old(store.history)
    ensures r.Some? ==> store.history == old(store.history) + Admissions(AllRows(outcomes))
    ensures r.Some? ==>
      && (forall u :: u in FirstAppearances(Urls(AllRows(outcomes))) ==> u in store.records)
      && r.value == SearchRecords(store.records, AllRows(outcomes))
  {
    if forall o :: o in outcomes ==> o.Failed? {
      return None;
    }
    ghost var start := store.history;
    var orderedUrls: seq<Url> := [];
    var seen: set<Url> := {};
    ghost var committed: seq<Row> := [];
    for n := 0 to |outcomes|
      invariant committed == AllRows(outcomes[..n])
      invariant forall m :: 0 <= m < |committed| ==> Admissible(committed[m])
      invariant store.Valid() && store.history == start + Admissions(committed)
      invariant orderedUrls == FirstAppearances(Urls(committed)) && forall u :: u in seen <==> u in orderedUrls
    {
      assert outcomes[..n + 1][..n] == outcomes[..n];
      if outcomes[n].Rows? {
        orderedUrls, seen := CommitProvider(store, outcomes[n].rows, orderedUrls, seen, start, committed);
        committed := committed + outcomes[n].rows;
      }
    }
    assert outcomes[..|outcomes|] == outcomes;
    CommittedAreRecorded(start, committed);
    FirstAppearancesMeaning(Urls(committed));
    var records := RecordsFromStore(store, orderedUrls);
    return Some(records);
  }

  lemma TakeNext(committed: seq<Row>, rows: seq<Row>, m: nat)
    requires m < |rows|
    ensures committed + rows[..m + 1] == committed + rows[..m] + [rows[m]]
  {
  }

  lemma CommitNext(start: seq<Op>, committed: seq<Row>, row: Row)
    ensures start + Admissions(committed + [row])
         == start + Admissions(committed) + [Admit(row.url, row.summary, row.rawContent, row.content)]
    ensures var kept := FirstAppearances(Urls(committed));
      FirstAppearances(Urls(committed + [row])) == if row.url in kept then kept else kept + [row.url]
  {
    assert Urls(committed + [row])[..|committed|] == Urls(committed);
  }

  lemma CommittedAreRecorded(before: seq<Op>, committed: seq<Row>)
    requires forall m :: 0 <= m < |committed| ==> Admissible(committed[m])
    ensures var records := Replay(before + Admissions(committed));
      forall u :: u in Urls(committed) ==> u in records && records[u].url == u
  {
    var history := before + Admissions(committed);
    StoreSummarizesHistory(history);
    forall u | u in Urls(committed) ensures u in Replay(history) && Replay(history)[u].url == u {
      var i :| 0 <= i < |committed| && committed[i].url == u;
      assert Admissible(committed[i]);
      assert history[|before| + i].Admit? && history[|before| + i].url == u;
      assert SummarizesUrl(Replay(history), history, u);
    }
  }

  lemma LaterKeepsAbstract(earlier: seq<Op>, between: seq<Op>, url: Url)
    requires url in Replay(earlier)
    ensures url in Replay(earlier + between)
    ensures Replay(earlier)[url].summary == Replay(earlier + between)[url].summary != ""
  {
    StoreSummarizesHistory(earlier);
    assert SummarizesUrl(Replay(earlier), earlier, url);
    FoldConcat(Apply, NO_RECORDS, earlier, between);
    RunExtends(Replay(earlier), between);
  }

  lemma CommittedHasRecords(before: seq<Op>, rows: seq<Row>)
    requires forall m :: 0 <= m < |rows| ==> Admissible(rows[m])
    ensures forall u :: u in FirstAppearances(Urls(rows)) ==> u in Replay(before + Admissions(rows))
  {
    CommittedAreRecorded(before, rows);
    FirstAppearancesMeaning(Urls(rows));
  }

  /** A URL that two searches of a run return carries the same non-empty abstract in both, whatever happens
      to the store before and between them. */
  lemma SearchesAgreeOnAbstracts(before: seq<Op>, first: seq<Row>, between: seq<Op>, second: seq<Row>, i: nat, j: nat)
    requires forall m :: 0 <= m < |first| ==> Admissible(first[m])
    requires forall m :: 0 <= m < |second| ==> Admissible(second[m])
    requires i < |FirstAppearances(Urls(first))| && j < |FirstAppearances(Urls(second))|
    requires FirstAppearances(Urls(first))[i] == FirstAppearances(Urls(second))[j]
    ensures var earlier := before + Admissions(first);
      var later := earlier + between + Admissions(second);
      && (forall u :: u in FirstAppearances(Urls(first)) ==> u in Replay(earlier))
      && (forall u :: u in FirstAppearances(Urls(second)) ==> u in Replay(later))
      && SearchRecords(Replay(earlier), first)[i] == SearchRecords(Replay(later), second)[j]
      && SearchRecords(Replay(earlier), first)[i].summary != ""
  {
    var earlier := before + Admissions(first);
    CommittedHasRecords(before, first);
    CommittedHasRecords(earlier + between, second);
    LaterKeepsAbstract(earlier, between + Admissions(second), FirstAppearances(Urls(first))[i]);
    assert earlier + between + Admissions(second) == earlier + (between + Admissions(second));
  }

  // ----- what a search leaves in the store -----

  /** The first non-empty value of a field among the rows for `url`. */
  ghost function FirstBrought(rows: seq<Row>, url: Url, field: Row -> string): string
  {
    if rows == [] then ""
    else
      var front, last := FirstBrought(rows[..|rows| - 1], url, field), rows[|rows| - 1];
      if front == "" && last.url == url then field(last) else front
  }

  ghost function Held(records: Records, url: Url, field: URLRecord -> string): string
  {
    if url in records then field(records[url]) else ""
  }

  /** `after` holds of a field what `before` held, or else the first non-empty value the rows brought. */
  ghost predicate FieldKept(before: Records, after: Records, rows: seq<Row>, url: Url, held: URLRecord -> string,
                            brought: Row -> string)
  {
    Held(after, url, held) ==
      if Held(before, url, held) != "" then Held(before, url, held) else FirstBrought(rows, url, brought)
  }

  /** A search adds its rows' URLs, available, fills the fields that were empty, and changes nothing else. */
  ghost predicate Committed(before: Records, after: Records, rows: seq<Row>, url: Url)
  {
    && (url in after <==> url in before || url in Urls(rows))
    && (url in after ==> (!after[url].available <==> Unavailable(Known(before, url))))
    && FieldKept(before, after, rows, url, (r: URLRecord) => r.summary, (row: Row) => Strip(row.summary))
    && FieldKept(before, after, rows, url, (r: URLRecord) => r.rawContent, (row: Row) => row.rawContent)
    && FieldKept(before, after, rows, url, (r: URLRecord) => r.content, (row: Row) => row.content)
  }

  function Known(records: Records, url: Url): Option<URLRecord>
  {
    if url in records then Some(records[url]) else None
  }

  lemma BroughtNext(rows: seq<Row>, row: Row, url: Url, field: Row -> string)
    ensures FirstBrought(rows + [row], url, field) ==
            if FirstBrought(rows, url, field) == "" && row.url == url then field(row)
            else FirstBrought(rows, url, field)
  {
    assert (rows + [row])[..|rows|] == rows;
  }

  lemma AdmitCommits(before: Records, middle: Records, rows: seq<Row>, row: Row, url: Url)
    requires Admissible(row) && Committed(before, middle, rows, url)
    ensures Committed(before, Apply(middle, Admit(row.url, row.summary, row.rawContent, row.content)), rows + [row],
                      url)
  {
    BroughtNext(rows, row, url, (r: Row) => Strip(r.summary));
    BroughtNext(rows, row, url, (r: Row) => r.rawContent);
    BroughtNext(rows, row, url, (r: Row) => r.content);
    assert Urls(rows + [row]) == Urls(rows) + [row.url];
  }

  /** What committing rows leaves in the store, for every URL. */
  lemma {:induction false} CommittedRecords(history: seq<Op>, rows: seq<Row>, url: Url)
    requires forall m :: 0 <= m < |rows| ==> Admissible(rows[m])
    ensures Committed(Replay(history), Replay(history + Admissions(rows)), rows, url)
  {
    if rows == [] {
      assert history + Admissions(rows) == history;
    } else {
      var n := |rows| - 1;
      CommittedRecords(history, rows[..n], url);
      AdmitCommits(Replay(history), Replay(history + Admissions(rows[..n])), rows[..n], rows[n], url);
      AdmissionsNext(history, rows, n);
    }
  }

  lemma AdmissionsNext(history: seq<Op>, rows: seq<Row>, n: nat)
    requires |rows| == n + 1
    ensures rows[..n] + [rows[n]] == rows
    ensures var row := rows[n];
      Replay(history + Admissions(rows)) ==
        Apply(Replay(history + Admissions(rows[..n])), Admit(row.url, row.summary, row.rawContent, row.content))
  {
    var row := rows[n];
    var op := Admit(row.url, row.summary, row.rawContent, row.content);
    assert rows[..n] + [rows[n]] == rows;
    assert history + Admissions(rows) == history + Admissions(rows[..n]) + [op];
    FoldNext(Apply, NO_RECORDS, history + Admissions(rows[..n]), op);
  }
}
