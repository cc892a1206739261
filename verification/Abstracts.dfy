/** Rebuilding an abstract from its inverted index (providers/academic/openalex.py, lines 23-41). */
module Abstracts {
  import opened Options
  import opened Ordering

  /** A position as it arrives: an integer, or anything else, a boolean included. */
  datatype Position = Index(value: int) | NotInteger

  /** A dictionary item; a part that is not a string, or not a list, is `None`. */
  datatype Entry = Entry(word: Option<string>, positions: Option<seq<Position>>)

  datatype Posting = Posting(position: int, word: string)

  function PostingKey(p: Posting): Key
  {
    Key(p.position, 0, p.word, "")
  }

  function PostingsAt(word: string, positions: seq<Position>): seq<Posting>
  {
    if positions == [] then []
    else
      var front, last := PostingsAt(word, positions[..|positions| - 1]), positions[|positions| - 1];
      if last.Index? && last.value >= 0 then front + [Posting(last.value, word)] else front
  }

  function PostingsOf(e: Entry): seq<Posting>
  {
    if e.word.None? || e.positions.None? then [] else PostingsAt(e.word.value, e.positions.value)
  }

  function Postings(entries: seq<Entry>): seq<Posting>
  {
    if entries == [] then [] else Postings(entries[..|entries| - 1]) + PostingsOf(entries[|entries| - 1])
  }

  function Words(postings: seq<Posting>): seq<string>
  {
    seq(|postings|, i requires 0 <= i < |postings| => postings[i].word)
  }

  /** `" ".join(words)`. */
  function Joined(words: seq<string>): string
  {
    if words == [] then ""
    else if |words| == 1 then words[0]
    else Joined(words[..|words| - 1]) + " " + words[|words| - 1]
  }

  lemma JoinedNext(words: seq<string>, last: string)
    requires words != []
    ensures Joined(words + [last]) == Joined(words) + " " + last
  {
    assert (words + [last])[..|words|] == words;
  }

  /** A single space stands between any two neighbours, and nowhere else. */
  lemma {:induction false} JoinedMeaning(left: seq<string>, right: seq<string>)
    requires left != [] && right != []
    ensures Joined(left + right) == Joined(left) + " " + Joined(right)
    ensures |left| == 1 ==> Joined(left) == left[0]
  {
    var front, last := right[..|right| - 1], right[|right| - 1];
    if front == [] {
      assert right == [last];
      JoinedNext(left, last);
    } else {
      JoinedMeaning(left, front);
      JoinedNext(left + front, last);
      JoinedNext(front, last);
      assert left + right == left + front + [last] && right == front + [last];
    }
  }

  /** `index` lists a dictionary's items in its iteration order; `None` is a value of another type. */
  method ReconstructAbstract(index: Option<seq<Entry>>) returns (r: string)
    ensures index.None? ==> r == ""
    ensures index.Some? ==> r == Joined(Words(SortOn(Postings(index.value), PostingKey)))
  {
    if index.None? {
      return "";
    }
    var entries := index.value;
    var positioned: seq<Posting> := [];
    for i := 0 to |entries|
      invariant positioned == Postings(entries[..i])
    {
      var e := entries[i];
      PostingsNext(entries, i);
      if e.word.None? || e.positions.None? {
        continue;
      }
      var found := CollectPositions(e.word.value, e.positions.value);
      positioned := positioned + found;
    }
    assert entries[..|entries|] == entries;
    return Joined(Words(SortOn(positioned, PostingKey)));
  }

  /** The inner loop: the usable positions of one word. */
  method CollectPositions(word: string, positions: seq<Position>) returns (found: seq<Posting>)
    ensures found == PostingsAt(word, positions)
  {
    found := [];
    for j := 0 to |positions|
      invariant found == PostingsAt(word, positions[..j])
    {
      assert positions[..j + 1][..j] == positions[..j];
      if !positions[j].Index? || positions[j].value < 0 {
        continue;
      }
      found := found + [Posting(positions[j].value, word)];
    }
    assert positions[..|positions|] == positions;
  }

  lemma PostingsNext(entries: seq<Entry>, i: nat)
    requires i < |entries|
    ensures Postings(entries[..i + 1]) == Postings(entries[..i]) + PostingsOf(entries[i])
  {
    assert entries[..i + 1][..i] == entries[..i];
  }

  // ----- what an index holds -----

  ghost predicate Holds(e: Entry, p: Posting)
  {
    e.word == Some(p.word) && e.positions.Some? && Index(p.position) in e.positions.value && p.position >= 0
  }

  lemma {:induction false} PostingsAtMeaning(word: string, positions: seq<Position>, p: Posting)
    ensures p in PostingsAt(word, positions) <==> p.word == word && p.position >= 0 && Index(p.position) in positions
  {
    if positions == [] {
    } else {
      PostingsAtMeaning(word, positions[..|positions| - 1], p);
      assert positions == positions[..|positions| - 1] + [positions[|positions| - 1]];
    }
  }

  ghost predicate Held(entries: seq<Entry>, p: Posting)
  {
    exists i :: 0 <= i < |entries| && Holds(entries[i], p)
  }

  lemma HeldAt(entries: seq<Entry>, i: nat, p: Posting)
    requires i < |entries|
    ensures Holds(entries[i], p) ==> Held(entries, p)
  {
  }

  lemma HeldNext(front: seq<Entry>, last: Entry, p: Posting)
    ensures Held(front + [last], p) <==> Held(front, p) || Holds(last, p)
  {
    var all := front + [last];
    if Held(front, p) {
      var i :| 0 <= i < |front| && Holds(front[i], p);
      assert Holds(all[i], p);
    }
    if Holds(last, p) { assert Holds(all[|front|], p); }
  }

  /** A posting is read exactly from an entry that holds it; anything malformed is skipped. */
  lemma {:induction false} PostingsMeaning(entries: seq<Entry>, p: Posting)
    ensures p in Postings(entries) <==> Held(entries, p)
  {
    if entries == [] {
    } else {
      var front, last := entries[..|entries| - 1], entries[|entries| - 1];
      PostingsMeaning(front, p);
      if last.word.Some? && last.positions.Some? {
        PostingsAtMeaning(last.word.value, last.positions.value, p);
      }
      HeldNext(front, last, p);
      assert front + [last] == entries;
    }
  }

  ghost predicate NoRepeats<T(!new)>(s: seq<T>)
  {
    forall i, j :: 0 <= i < j < |s| ==> s[i] != s[j]
  }

  ghost predicate WellFormed(entries: seq<Entry>)
  {
    && (forall i :: 0 <= i < |entries| ==>
        entries[i].word.Some? && entries[i].positions.Some? && NoRepeats(entries[i].positions.value))
    && (forall i, j :: 0 <= i < j < |entries| ==> entries[i].word != entries[j].word)
  }

  /** `entries` is an inverted index of `words`: distinct keys, in any order, each with the positions of
      its word, in any order. */
  ghost predicate Indexes(entries: seq<Entry>, words: seq<string>)
  {
    && WellFormed(entries)
    && (forall p :: Held(entries, p) <==> 0 <= p.position < |words| && words[p.position] == p.word)
  }

  function Enumerated(words: seq<string>): seq<Posting>
  {
    seq(|words|, i requires 0 <= i < |words| => Posting(i, words[i]))
  }

  lemma {:induction false} PostingsAtNoRepeats(word: string, positions: seq<Position>)
    requires NoRepeats(positions)
    ensures NoRepeats(PostingsAt(word, positions))
  {
    if positions == [] {
    } else {
      var front, last := positions[..|positions| - 1], positions[|positions| - 1];
      PostingsAtNoRepeats(word, front);
      if last.Index? {
        PostingsAtMeaning(word, front, Posting(last.value, word));
        assert last !in front;
      }
    }
  }

  lemma AppendNoRepeats<T(!new)>(a: seq<T>, b: seq<T>)
    requires NoRepeats(a) && NoRepeats(b) && forall x :: x in a ==> x !in b
    ensures NoRepeats(a + b)
  {
    forall i, j | 0 <= i < j < |a + b| ensures (a + b)[i] != (a + b)[j] {
      if i < |a| <= j { assert a[i] in a && b[j - |a|] in b; }
    }
  }

  lemma {:induction false} PostingsNoRepeats(entries: seq<Entry>)
    requires forall i :: 0 <= i < |entries| ==> entries[i].positions.Some? ==> NoRepeats(entries[i].positions.value)
    requires forall i, j :: 0 <= i < j < |entries| ==> entries[i].word != entries[j].word
    ensures NoRepeats(Postings(entries))
  {
    if entries == [] {
    } else {
      var n := |entries| - 1;
      var front, last := Postings(entries[..n]), PostingsOf(entries[n]);
      PostingsNoRepeats(entries[..n]);
      if entries[n].word.Some? && entries[n].positions.Some? {
        PostingsAtNoRepeats(entries[n].word.value, entries[n].positions.value);
        forall p | p in front ensures p !in last {
          PostingsMeaning(entries[..n], p);
          PostingsAtMeaning(entries[n].word.value, entries[n].positions.value, p);
        }
      }
      AppendNoRepeats(front, last);
    }
  }

  lemma {:induction false} CountedOnce<T(!new)>(s: seq<T>, x: T)
    requires NoRepeats(s)
    ensures multiset(s)[x] == if x in s then 1 else 0
  {
    if s == [] {
    } else {
      var front, last := s[..|s| - 1], s[|s| - 1];
      CountedOnce(front, x);
      assert s == front + [last];
      assert last !in front;
    }
  }

  lemma SameMembers<T(!new)>(a: seq<T>, b: seq<T>)
    requires NoRepeats(a) && NoRepeats(b) && forall x :: x in a <==> x in b
    ensures multiset(a) == multiset(b)
  {
    forall x ensures multiset(a)[x] == multiset(b)[x] {
      CountedOnce(a, x);
      CountedOnce(b, x);
    }
  }

  lemma IndexPostings(entries: seq<Entry>, words: seq<string>)
    requires Indexes(entries, words)
    ensures multiset(Postings(entries)) == multiset(Enumerated(words))
  {
    PostingsNoRepeats(entries);
    forall p ensures p in Postings(entries) <==> p in Enumerated(words) {
      PostingsMeaning(entries, p);
      if 0 <= p.position < |words| && words[p.position] == p.word { assert Enumerated(words)[p.position] == p; }
    }
    SameMembers(Postings(entries), Enumerated(words));
  }

  lemma EnumeratedSorted(words: seq<string>)
    ensures SortedOn(Enumerated(words), PostingKey) && KeysDistinguish(Enumerated(words), PostingKey)
  {
  }

  /** Reading any inverted index of `words`, whatever the order of its keys and of their positions, gives
      back the words in their order, joined by single spaces. */
  lemma ReconstructionInvertsIndexing(entries: seq<Entry>, words: seq<string>)
    requires Indexes(entries, words)
    ensures Joined(Words(SortOn(Postings(entries), PostingKey))) == Joined(words)
  {
    var found, all := Postings(entries), Enumerated(words);
    IndexPostings(entries, words);
    EnumeratedSorted(words);
    SortOnPermutes(found, PostingKey);
    SortOnSorted(found, PostingKey);
    SortedUnique(SortOn(found, PostingKey), all, PostingKey);
    assert Words(all) == words;
  }

  // ----- building an index -----

  /** Files one more position under its word, behind the earlier ones. */
  function AddPosition(entries: seq<Entry>, word: string, position: nat): seq<Entry>
  {
    if entries == [] then [Entry(Some(word), Some([Index(position)]))]
    else if entries[0].word == Some(word) && entries[0].positions.Some? then
      [Entry(Some(word), Some(entries[0].positions.value + [Index(position)]))] + entries[1..]
    else [entries[0]] + AddPosition(entries[1..], word, position)
  }

  function IndexOf(words: seq<string>): seq<Entry>
  {
    if words == [] then []
    else AddPosition(IndexOf(words[..|words| - 1]), words[|words| - 1], |words| - 1)
  }

  ghost predicate Unused(entries: seq<Entry>, position: nat)
  {
    forall i :: 0 <= i < |entries| && entries[i].positions.Some? ==> Index(position) !in entries[i].positions.value
  }

  lemma HeldCons(first: Entry, rest: seq<Entry>, p: Posting)
    ensures Held([first] + rest, p) <==> Holds(first, p) || Held(rest, p)
  {
    var all := [first] + rest;
    if Held(rest, p) {
      var i :| 0 <= i < |rest| && Holds(rest[i], p);
      assert Holds(all[i + 1], p);
    }
    if Holds(first, p) { assert Holds(all[0], p); }
    if i :| 0 <= i < |all| && Holds(all[i], p) { assert i == 0 || rest[i - 1] == all[i]; }
  }

  lemma {:induction false} AddPositionHolds(entries: seq<Entry>, word: string, position: nat, p: Posting)
    ensures Held(AddPosition(entries, word, position), p) <==> Held(entries, p) || p == Posting(position, word)
  {
    if entries == [] {
      HeldCons(Entry(Some(word), Some([Index(position)])), [], p);
      assert [Entry(Some(word), Some([Index(position)]))] + [] == AddPosition(entries, word, position);
    } else {
      assert entries == [entries[0]] + entries[1..];
      HeldCons(entries[0], entries[1..], p);
      if entries[0].word == Some(word) && entries[0].positions.Some? {
        HeldCons(Entry(Some(word), Some(entries[0].positions.value + [Index(position)])), entries[1..], p);
      } else {
        HeldCons(entries[0], AddPosition(entries[1..], word, position), p);
        AddPositionHolds(entries[1..], word, position, p);
      }
    }
  }

  ghost function WordsOf(entries: seq<Entry>): set<Option<string>>
  {
    set i | 0 <= i < |entries| :: entries[i].word
  }

  lemma WordsOfCons(first: Entry, rest: seq<Entry>)
    ensures WordsOf([first] + rest) == {first.word} + WordsOf(rest)
  {
    var all := [first] + rest;
    forall w | w in WordsOf(rest) ensures w in WordsOf(all) {
      var i :| 0 <= i < |rest| && rest[i].word == w;
      assert all[i + 1].word == w;
    }
    assert all[0].word in WordsOf(all);
    forall w | w in WordsOf(all) ensures w in {first.word} + WordsOf(rest) {
      var i :| 0 <= i < |all| && all[i].word == w;
      assert i == 0 || rest[i - 1].word == w;
    }
  }

  lemma {:induction false} AddPositionWellFormed(entries: seq<Entry>, word: string, position: nat)
    requires WellFormed(entries) && Unused(entries, position)
    ensures WellFormed(AddPosition(entries, word, position))
    ensures forall w :: w in WordsOf(AddPosition(entries, word, position)) ==> w in WordsOf(entries) || w == Some(word)
  {
    if entries == [] {
    } else {
      var rest := entries[1..];
      assert entries == [entries[0]] + rest;
      WordsOfCons(entries[0], rest);
      if entries[0].word == Some(word) {
        WordsOfCons(AddPosition(entries, word, position)[0], rest);
      } else {
        AddPositionWellFormed(rest, word, position);
        var added := AddPosition(rest, word, position);
        forall i | 0 <= i < |added| ensures added[i].word != entries[0].word {
          assert added[i].word in WordsOf(added);
        }
        WordsOfCons(entries[0], added);
      }
    }
  }

  /** Filing every word under its position makes an inverted index of the words. */
  lemma {:induction false} IndexOfIndexes(words: seq<string>)
    ensures Indexes(IndexOf(words), words)
  {
    if words == [] {
    } else {
      var n := |words| - 1;
      var entries := IndexOf(words[..n]);
      IndexOfIndexes(words[..n]);
      forall i | 0 <= i < |entries| ensures Index(n) !in entries[i].positions.value {
        HeldAt(entries, i, Posting(n, entries[i].word.value));
      }
      AddPositionWellFormed(entries, words[n], n);
      forall p ensures Held(IndexOf(words), p) <==> 0 <= p.position < |words| && words[p.position] == p.word {
        AddPositionHolds(entries, words[n], n, p);
      }
    }
  }

  lemma ReconstructionOfBuiltIndex(words: seq<string>)
    ensures Joined(Words(SortOn(Postings(IndexOf(words)), PostingKey))) == Joined(words)
  {
    IndexOfIndexes(words);
    ReconstructionInvertsIndexing(IndexOf(words), words);
  }
}
