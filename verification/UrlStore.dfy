/** The in-memory URL records (url_store.py), refined to the history of what was offered to them. */
module UrlStore {
  import opened Folds
  import opened Options
  import opened Strings

  type Url = string

  /** `summary` is the record's abstract. */
  datatype URLRecord = URLRecord(url: Url, rawContent: string, content: string, summary: string, available: bool)

  type Records = map<Url, URLRecord>

  datatype Op =
    | Admit(url: Url, summary: string, rawContent: string, content: string)
    | MergeBody(url: Url, rawContent: string, content: string)
    | MarkUnavailable(url: Url)

  function FirstNonEmpty(existing: string, candidate: string): string
  {
    if existing != "" then existing else candidate
  }

  /** Whether the operation raises: a blank abstract, or a URL that was never admitted. */
  predicate Raises(records: Records, op: Op)
  {
    if op.Admit? then Strip(op.summary) == "" else op.url !in records
  }

  function Apply(records: Records, op: Op): Records
  {
    if Raises(records, op) then records
    else
      match op
      case Admit(url, summary, rawContent, content) =>
        if url !in records then records[url := URLRecord(url, rawContent, content, Strip(summary), true)]
        else
          var r := records[url];
          records[url := r.(rawContent := FirstNonEmpty(r.rawContent, rawContent),
                            content := FirstNonEmpty(r.content, content),
                            summary := FirstNonEmpty(r.summary, Strip(summary)))]
      case MergeBody(url, rawContent, content) =>
        var r := records[url];
        records[url :=
          r.(rawContent := FirstNonEmpty(r.rawContent, rawContent), content := FirstNonEmpty(r.content, content))]
      case MarkUnavailable(url) =>
        records[url := records[url].(available := false)]
  }

  const NO_RECORDS: Records := map[]

  ghost function Replay(history: seq<Op>): Records
  {
    Fold(Apply, NO_RECORDS, history)
  }

  class URLStore {
    var records: Records
    ghost var history: seq<Op>

    ghost predicate Valid()
      reads this
    {
      records == Replay(history)
    }

    constructor ()
      ensures Valid() && history == []
    {
      records := map[];
      history := [];
    }

    /** `None` is the source's ValueError for a blank abstract. */
    method Admit(url: Url, summary: string, rawContent: string, content: string) returns (r: Option<URLRecord>)
      requires Valid()
      modifies this
      ensures Valid() && history == old(history) + [Op.Admit(url, summary, rawContent, content)]
      ensures records == Apply(old(records), Op.Admit(url, summary, rawContent, content))
      ensures r.None? <==> Strip(summary) == ""
      ensures r.Some? ==> url in records && r.value == records[url]
    {
      FoldNext(Apply, NO_RECORDS, history, Op.Admit(url, summary, rawContent, content));
      history := history + [Op.Admit(url, summary, rawContent, content)];
      var normalized := Strip(summary);
      if normalized == "" {
        return None;
      }
      var record: URLRecord;
      if url !in records {
        record := URLRecord(url, rawContent, content, normalized, true);
      } else {
        var existing := records[url];
        record := existing.(
          rawContent := FirstNonEmpty(existing.rawContent, rawContent),
          content := FirstNonEmpty(existing.content, content),
          summary := FirstNonEmpty(existing.summary, normalized));
      }
      records := records[url := record];
      return Some(record);
    }

    /** `None` is the source's KeyError for a URL that was never admitted. */
    method MergeBody(url: Url, rawContent: string, content: string) returns (r: Option<URLRecord>)
      requires Valid()
      modifies this
      ensures Valid() && history == old(history) + [Op.MergeBody(url, rawContent, content)]
      ensures records == Apply(old(records), Op.MergeBody(url, rawContent, content))
      ensures r.None? <==> url !in old(records)
      ensures r.Some? ==> url in records && r.value == records[url]
    {
      FoldNext(Apply, NO_RECORDS, history, Op.MergeBody(url, rawContent, content));
      history := history + [Op.MergeBody(url, rawContent, content)];
      if url !in records {
        return None;
      }
      var existing := records[url];
      var record := existing.(
        rawContent := FirstNonEmpty(existing.rawContent, rawContent),
        content := FirstNonEmpty(existing.content, content));
      records := records[url := record];
      return Some(record);
    }

    method MarkUnavailable(url: Url) returns (r: Option<URLRecord>)
      requires Valid()
      modifies this
      ensures Valid() && history == old(history) + [Op.MarkUnavailable(url)]
      ensures records == Apply(old(records), Op.MarkUnavailable(url))
      ensures r.None? <==> url !in old(records)
      ensures r.Some? ==> url in records && r.value == records[url] && !r.value.available
    {
      FoldNext(Apply, NO_RECORDS, history, Op.MarkUnavailable(url));
      history := history + [Op.MarkUnavailable(url)];
      if url !in records {
        return None;
      }
      var existing := records[url];
      if !existing.available {
        assert records[url := existing.(available := false)] == records;
        return Some(existing);
      }
      var record := existing.(available := false);
      records := records[url := record];
      return Some(record);
    }
  }

  // ----- the history a record summarizes -----

  ghost predicate Admitted(history: seq<Op>, url: Url)
  {
    exists n :: 0 <= n < |history| && history[n].Admit? && history[n].url == url && Strip(history[n].summary) != ""
  }

  datatype Offer = Offer(rawContent: string, content: string, summary: string)

  /** What the operations that took effect on `url` offered, in order. */
  ghost function Offers(history: seq<Op>, url: Url): seq<Offer>
  {
    if history == [] then []
    else
      var front, last := history[..|history| - 1], history[|history| - 1];
      if last.url != url then Offers(front, url)
      else if last.Admit? && Strip(last.summary) != "" then
        Offers(front, url) + [Offer(last.rawContent, last.content, Strip(last.summary))]
      else if last.MergeBody? && Admitted(front, url) then
        Offers(front, url) + [Offer(last.rawContent, last.content, "")]
      else Offers(front, url)
  }

  /** Some mark came after the URL was admitted. */
  ghost predicate Marked(history: seq<Op>, url: Url)
  {
    exists n :: 0 <= n < |history| && history[n] == MarkUnavailable(url) && Admitted(history[..n], url)
  }

  /** The first non-empty value of a field among the offers, or the empty string. */
  ghost function FirstOffered(offers: seq<Offer>, field: Offer -> string): string
  {
    if offers == [] then "" else FirstNonEmpty(FirstOffered(offers[..|offers| - 1], field), field(offers[|offers| - 1]))
  }

  ghost predicate Summarizes(records: Records, history: seq<Op>)
  {
    forall url :: SummarizesUrl(records, history, url)
  }

  ghost predicate RecordSummarizes(r: URLRecord, history: seq<Op>, url: Url)
  {
    && r.url == url
    && r.rawContent == FirstOffered(Offers(history, url), (o: Offer) => o.rawContent)
    && r.content == FirstOffered(Offers(history, url), (o: Offer) => o.content)
    && r.summary == FirstOffered(Offers(history, url), (o: Offer) => o.summary)
    && r.summary != ""
    && (r.available <==> !Marked(history, url))
  }

  lemma AdmittedNext(history: seq<Op>, op: Op, url: Url)
    ensures Admitted(history + [op], url) <==>
            Admitted(history, url) || (op.Admit? && op.url == url && Strip(op.summary) != "")
  {
    var longer := history + [op];
    if n :| 0 <= n < |history| && history[n].Admit? && history[n].url == url && Strip(history[n].summary) != "" {
      assert longer[n] == history[n];
    }
    if op.Admit? && op.url == url && Strip(op.summary) != "" {
      assert longer[|history|] == op;
    }
  }

  lemma MarkedNext(history: seq<Op>, op: Op, url: Url)
    ensures Marked(history + [op], url) <==>
        Marked(history, url) || (op == MarkUnavailable(url) && Admitted(history, url))
  {
    var longer := history + [op];
    assert longer[..|history|] == history;
    if n :| 0 <= n < |history| && history[n] == MarkUnavailable(url) && Admitted(history[..n], url) {
      assert longer[n] == history[n] && longer[..n] == history[..n];
    }
    if n :| 0 <= n < |longer| && longer[n] == MarkUnavailable(url) && Admitted(longer[..n], url) {
      if n < |history| { assert history[n] == longer[n] && longer[..n] == history[..n]; }
    }
  }

  lemma OffersNext(history: seq<Op>, op: Op, url: Url)
    ensures Offers(history + [op], url) ==
            if op.url == url && op.Admit? && Strip(op.summary) != "" then
              Offers(history, url) + [Offer(op.rawContent, op.content, Strip(op.summary))]
            else if op.url == url && op.MergeBody? && Admitted(history, url) then
              Offers(history, url) + [Offer(op.rawContent, op.content, "")]
            else Offers(history, url)
  {
    assert (history + [op])[..|history|] == history;
  }

  lemma FirstOfferedNext(offers: seq<Offer>, last: Offer, field: Offer -> string)
    ensures FirstOffered(offers + [last], field) == FirstNonEmpty(FirstOffered(offers, field), field(last))
  {
    assert (offers + [last])[..|offers|] == offers;
  }

  lemma {:induction false} UnadmittedUnoffered(history: seq<Op>, url: Url)
    requires !Admitted(history, url)
    ensures Offers(history, url) == [] && !Marked(history, url)
  {
    if history == [] {
    } else {
      var front, last := history[..|history| - 1], history[|history| - 1];
      assert front + [last] == history;
      AdmittedNext(front, last, url);
      MarkedNext(front, last, url);
      UnadmittedUnoffered(front, url);
    }
  }

  /** What the store owes `url` after `history`. */
  ghost predicate SummarizesUrl(records: Records, history: seq<Op>, url: Url)
  {
    (url in records <==> Admitted(history, url)) && (url in records ==> RecordSummarizes(records[url], history, url))
  }

  lemma OfferSummarizes(records: Records, history: seq<Op>, op: Op)
    requires SummarizesUrl(records, history, op.url) && !op.MarkUnavailable?
    ensures SummarizesUrl(Apply(records, op), history + [op], op.url)
  {
    var url := op.url;
    var last := Offer(op.rawContent, op.content, if op.Admit? then Strip(op.summary) else "");
    AdmittedNext(history, op, url);
    MarkedNext(history, op, url);
    OffersNext(history, op, url);
    if url !in records { UnadmittedUnoffered(history, url); }
    FirstOfferedNext(Offers(history, url), last, (o: Offer) => o.rawContent);
    FirstOfferedNext(Offers(history, url), last, (o: Offer) => o.content);
    FirstOfferedNext(Offers(history, url), last, (o: Offer) => o.summary);
  }

  lemma MarkSummarizes(records: Records, history: seq<Op>, op: Op)
    requires SummarizesUrl(records, history, op.url) && op.MarkUnavailable?
    ensures SummarizesUrl(Apply(records, op), history + [op], op.url)
  {
    AdmittedNext(history, op, op.url);
    MarkedNext(history, op, op.url);
    OffersNext(history, op, op.url);
  }

  lemma OtherUrlSummarizes(records: Records, history: seq<Op>, op: Op, url: Url)
    requires SummarizesUrl(records, history, url) && op.url != url
    ensures SummarizesUrl(Apply(records, op), history + [op], url)
  {
    AdmittedNext(history, op, url);
    MarkedNext(history, op, url);
    OffersNext(history, op, url);
  }

  lemma ApplySummarizes(records: Records, history: seq<Op>, op: Op, url: Url)
    requires SummarizesUrl(records, history, url)
    ensures SummarizesUrl(Apply(records, op), history + [op], url)
  {
    if op.url != url {
      OtherUrlSummarizes(records, history, op, url);
    } else if op.MarkUnavailable? {
      MarkSummarizes(records, history, op);
    } else {
      OfferSummarizes(records, history, op);
    }
  }

  /** After any operations, a URL has a record exactly when it was admitted; the record holds the
      first non-empty abstract, raw content and content ever offered to it, and is unavailable exactly
      when it was marked. */
  lemma StoreSummarizesHistory(history: seq<Op>)
    ensures Summarizes(Replay(history), history)
  {
    forall records, front, op | Summarizes(records, front) ensures Summarizes(Apply(records, op), front + [op]) {
      forall url ensures SummarizesUrl(Apply(records, op), front + [op], url) {
        assert SummarizesUrl(records, front, url);
        ApplySummarizes(records, front, op, url);
      }
    }
    FoldKeeps(Apply, NO_RECORDS, history, Summarizes);
  }

  /** A URL is unavailable exactly when some mark came after it was admitted. */
  lemma UnavailableIffMarked(history: seq<Op>, url: Url)
    ensures (url in Replay(history) && !Replay(history)[url].available) <==> Marked(history, url)
  {
    StoreSummarizesHistory(history);
    assert SummarizesUrl(Replay(history), history, url);
    if url !in Replay(history) { UnadmittedUnoffered(history, url); }
  }

  /** What searches do to the store: they admit, and never mark. */
  ghost predicate MarksNothing(ops: seq<Op>)
  {
    forall n :: 0 <= n < |ops| ==> !ops[n].MarkUnavailable?
  }

  lemma {:induction false} MarkedIgnoresSearches(start: seq<Op>, more: seq<Op>, url: Url)
    requires MarksNothing(more)
    ensures Marked(start + more, url) <==> Marked(start, url)
  {
    if more == [] {
      assert start + more == start;
    } else {
      var front, last := more[..|more| - 1], more[|more| - 1];
      MarkedIgnoresSearches(start, front, url);
      MarkedNext(start + front, last, url);
      assert start + front + [last] == start + more;
    }
  }

  // ----- write-once -----

  /** `later` keeps every non-empty field and every unavailability of `earlier`. */
  ghost predicate Extends(earlier: Records, later: Records)
  {
    forall url :: url in earlier ==>
      && url in later && later[url].url == earlier[url].url
      && (earlier[url].rawContent != "" ==> later[url].rawContent == earlier[url].rawContent)
      && (earlier[url].content != "" ==> later[url].content == earlier[url].content)
      && (earlier[url].summary != "" ==> later[url].summary == earlier[url].summary)
      && (!earlier[url].available ==> !later[url].available)
  }

  lemma ApplyExtends(records: Records, op: Op)
    ensures Extends(records, Apply(records, op))
  {
  }

  /** Every operation and every run of operations is write-once. */
  lemma {:induction false} RunExtends(records: Records, later: seq<Op>)
    ensures Extends(records, Fold(Apply, records, later))
  {
    if later == [] {
    } else {
      var front, last := later[..|later| - 1], later[|later| - 1];
      RunExtends(records, front);
      ApplyExtends(Fold(Apply, records, front), last);
    }
  }
}
