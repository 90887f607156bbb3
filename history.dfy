/**
 * The viewing history: the lines of `resources/history.txt`, oldest first,
 * newest last. `Recorded` is what one view of a term does to it
 * (mainwindow.cpp:240-285); the lemmas state what follows for one view and
 * for a run of views.
 */
module History {

  /** The line count above which the history is cut (mainwindow.cpp:253). */
  const MaxEntries: nat := 50

  /** Lines with a higher loop index than this are the ones the cut means to
      keep, `max - 30` in mainwindow.cpp:265. */
  const KeepAfter: int := MaxEntries - 30

  /** No line occurs twice. */
  predicate Distinct(lines: seq<string>)
  {
    forall i, j :: 0 <= i < j < |lines| ==> lines[i] != lines[j]
  }

  /** The history after viewing `term`. Every line counts towards the limit,
      blank ones too, and the count is taken before the term is added. A
      history of more than `MaxEntries` lines is emptied, and the term is not
      written because the file has been closed by then. Otherwise the term is
      appended unless some line already equals it. */
  function Recorded(lines: seq<string>, term: string): (r: seq<string>)
    ensures |lines| > MaxEntries ==> r == []
    ensures |lines| <= MaxEntries ==> lines <= r && term in r
    ensures |lines| <= MaxEntries ==> |r| == if term in lines then |lines| else |lines| + 1
  {
    if |lines| > MaxEntries then []
    else if term in lines then lines
    else lines + [term]
  }

  /** The history after viewing each of `terms` in turn. */
  function RecordedAll(lines: seq<string>, terms: seq<string>): seq<string>
    decreases |terms|
  {
    if terms == [] then lines else RecordedAll(Recorded(lines, terms[0]), terms[1..])
  }

  /** Viewing a term that is not in a history of at most 50 lines adds it as
      the last line; the earlier lines stay as they were, in order. */
  lemma RecordAbsent(lines: seq<string>, term: string)
    requires |lines| <= MaxEntries && term !in lines
    ensures |Recorded(lines, term)| == |lines| + 1
    ensures Recorded(lines, term)[|lines|] == term
    ensures forall i :: 0 <= i < |lines| ==> Recorded(lines, term)[i] == lines[i]
  {
  }

  /** Viewing a term already in a history of at most 50 lines changes
      nothing: no reordering and no second copy. */
  lemma RecordPresent(lines: seq<string>, term: string)
    requires |lines| <= MaxEntries && term in lines
    ensures Recorded(lines, term) == lines
  {
  }

  /** The limit is strict: 50 lines and a new term make 51 lines. */
  lemma FiftyLinesGrowToFiftyOne(lines: seq<string>, term: string)
    requires |lines| == MaxEntries && term !in lines
    ensures |Recorded(lines, term)| == MaxEntries + 1
  {
  }

  /** Above the limit the history ends empty and the term is not in it. */
  lemma OversizeEmpties(lines: seq<string>, term: string)
    requires |lines| > MaxEntries
    ensures Recorded(lines, term) == [] && term !in Recorded(lines, term)
  {
  }

  /** Blank lines count towards the limit like any other: 50 lines and one
      blank line more empty the history. */
  lemma BlankLinesCount(lines: seq<string>, term: string)
    requires |lines| == MaxEntries && term !in lines
    ensures Recorded(lines + [""], term) == []
  {
  }

  /** Viewing keeps a history free of duplicate lines. */
  lemma RecordKeepsDistinct(lines: seq<string>, term: string)
    requires Distinct(lines)
    ensures Distinct(Recorded(lines, term))
  {
    if |lines| <= MaxEntries && term !in lines {
      var r := lines + [term];
      forall i, j | 0 <= i < j < |r| ensures r[i] != r[j] {
        if j == |lines| {
          assert r[i] == lines[i] && r[j] == term;
        }
      }
    }
  }

  /** Below 50 lines, viewing a term twice is the same as viewing it once. */
  lemma RecordTwiceIsOnce(lines: seq<string>, term: string)
    requires |lines| < MaxEntries
    ensures Recorded(Recorded(lines, term), term) == Recorded(lines, term)
  {
  }

  /** At exactly 50 lines that no longer holds: the second view of a new term
      finds 51 lines and empties the history. */
  lemma RecordTwiceAtFifty(lines: seq<string>, term: string)
    requires |lines| == MaxEntries && term !in lines
    ensures Recorded(Recorded(lines, term), term) == []
  {
  }

  /** A history of at most 51 lines stays at most 51 lines however many terms
      are viewed: one view may pass the limit by one line, the next empties it. */
  lemma {:induction false} RecordedAllBounded(lines: seq<string>, terms: seq<string>)
    requires |lines| <= MaxEntries + 1
    ensures |RecordedAll(lines, terms)| <= MaxEntries + 1
    decreases |terms|
  {
    if terms != [] {
      RecordedAllBounded(Recorded(lines, terms[0]), terms[1..]);
    }
  }

  /** A run of views keeps a history free of duplicate lines. */
  lemma {:induction false} RecordedAllKeepsDistinct(lines: seq<string>, terms: seq<string>)
    requires Distinct(lines)
    ensures Distinct(RecordedAll(lines, terms))
    decreases |terms|
  {
    if terms != [] {
      RecordKeepsDistinct(lines, terms[0]);
      RecordedAllKeepsDistinct(Recorded(lines, terms[0]), terms[1..]);
    }
  }

  /** Every line the history holds after a run of views was already in it
      or is one of the viewed terms. */
  lemma {:induction false} RecordedAllFrom(lines: seq<string>, terms: seq<string>)
    ensures forall x :: x in RecordedAll(lines, terms) ==> x in lines || x in terms
    decreases |terms|
  {
    if terms != [] {
      RecordedAllFrom(Recorded(lines, terms[0]), terms[1..]);
      assert forall x :: x in terms[1..] ==> x in terms;
    }
  }

  /** While the history stays within the limit, a run of views only ever
      appends: what was there before is still there, in order, at the front. */
  lemma {:induction false} RecordedAllAppends(lines: seq<string>, terms: seq<string>)
    requires |lines| + |terms| <= MaxEntries + 1
    ensures lines <= RecordedAll(lines, terms)
    ensures forall x :: x in terms ==> x in RecordedAll(lines, terms)
    decreases |terms|
  {
    if terms != [] {
      var next := Recorded(lines, terms[0]);
      assert |next| <= |lines| + 1;
      RecordedAllAppends(next, terms[1..]);
      assert forall x :: x in terms ==> x == terms[0] || x in terms[1..];
    }
  }

  /** The history of a fresh start: apple, then banana, then apple again
      leaves two lines, oldest first. */
  lemma FreshStartExample()
    ensures Recorded([], "apple") == ["apple"]
    ensures Recorded(["apple"], "banana") == ["apple", "banana"]
    ensures Recorded(["apple", "banana"], "apple") == ["apple", "banana"]
  {
  }
}
