/**
 * The stored result history: the `testResults` storage key written by
 * `saveResults` and removed by `clearHistory`, and the table rows that
 * `renderHistory` projects from it (app.js).
 */
module History {
  import opened Wrappers
  import opened Quiz

  /** One stored submission: `{date, results, test}`. */
  datatype Entry = Entry(date: string, results: seq<bool>, test: string)

  /** One row of the history table: date, test label, correct answers, total questions. */
  datatype Row = Row(date: string, name: string, correct: nat, total: nat)

  /** `pat` occurs in `s` starting at position `k`. */
  predicate OccursAt(s: string, pat: string, k: nat) {
    k + |pat| <= |s| && s[k..k + |pat|] == pat
  }

  /** The first position at or after `from` where `pat` occurs in `s`, if any. */
  function IndexOf(s: string, pat: string, from: nat): (r: Option<nat>)
    requires from <= |s|
    ensures r.Some? ==> from <= r.value && OccursAt(s, pat, r.value)
    ensures r.Some? ==> forall j :: from <= j < r.value ==> !OccursAt(s, pat, j)
    ensures r.None? ==> forall j :: from <= j ==> !OccursAt(s, pat, j)
    decreases |s| - from
  {
    if OccursAt(s, pat, from) then Some(from)
    else if from == |s| then None
    else IndexOf(s, pat, from + 1)
  }

  const JsonPattern: string := ".json"

  /**
   * The test label of a row: `test.replace('.json', '')`, which removes only the
   * first occurrence of ".json" (wherever it stands) and leaves a name without
   * one untouched.
   */
  function StripJson(test: string): (shown: string)
    ensures IndexOf(test, JsonPattern, 0).None? ==> shown == test
    ensures IndexOf(test, JsonPattern, 0).Some? ==>
              var k := IndexOf(test, JsonPattern, 0).value;
              |shown| == |test| - |JsonPattern| && shown[..k] + JsonPattern + shown[k..] == test
  {
    match IndexOf(test, JsonPattern, 0)
    case None => test
    case Some(k) =>
      assert test == test[..k] + JsonPattern + test[k + |JsonPattern|..];
      test[..k] + test[k + |JsonPattern|..]
  }

  /** ".json" does not occur in "<n>.json" before its last five characters when it does not occur in n. */
  lemma NoEarlierJsonPattern(n: string, j: nat)
    requires !OccursAt(n, JsonPattern, j) && j < |n|
    ensures !OccursAt(n + JsonPattern, JsonPattern, j)
  {
    var s := n + JsonPattern;
    if j + |JsonPattern| <= |n| {
      assert s[j..j + |JsonPattern|] == n[j..j + |JsonPattern|];
    } else {
      assert s[j..j + |JsonPattern|][|n| - j] == '.' != JsonPattern[|n| - j];
    }
  }

  /** A file name "<n>.json" whose stem holds no ".json" is shown as its stem. */
  lemma StripJsonFileName(n: string)
    requires IndexOf(n, JsonPattern, 0).None?
    ensures StripJson(n + JsonPattern) == n
  {
    var s := n + JsonPattern;
    forall j | 0 <= j < |n| ensures !OccursAt(s, JsonPattern, j) {
      NoEarlierJsonPattern(n, j);
    }
    assert OccursAt(s, JsonPattern, |n|);
    var k := IndexOf(s, JsonPattern, 0);
    assert k == Some(|n|);
    assert s[..|n|] + s[|n| + |JsonPattern|..] == n;
  }

  /** The row shown for one stored entry. */
  function RowOf(e: Entry): (row: Row)
    ensures row.date == e.date && row.name == StripJson(e.test)
    ensures row.total == |e.results| && row.correct <= row.total
    ensures row.correct == multiset(e.results)[true]
  {
    var s := Summarize(e.results);
    Row(e.date, StripJson(e.test), s.correct, s.total)
  }

  /** `storedResults.map(entry => ...)`: one row per entry, in stored order. */
  function HistoryRows(entries: seq<Entry>): (rows: seq<Row>)
    ensures |rows| == |entries|
    ensures forall i :: 0 <= i < |rows| ==> rows[i] == RowOf(entries[i])
  {
    if entries == [] then [] else [RowOf(entries[0])] + HistoryRows(entries[1..])
  }

  /** Saving one more entry adds exactly one row, at the bottom, and leaves the others as they were. */
  lemma {:induction false} HistoryRowsAppend(entries: seq<Entry>, e: Entry)
    ensures HistoryRows(entries + [e]) == HistoryRows(entries) + [RowOf(e)]
  {
    if entries == [] {
      assert entries + [e] == [e];
    } else {
      assert (entries + [e])[1..] == entries[1..] + [e];
      HistoryRowsAppend(entries[1..], e);
    }
  }

  /** The `testResults` storage key: absent (None) until the first save and after a clear. */
  class HistoryStore {
    var stored: Option<seq<Entry>>

    /** An empty browser storage. */
    constructor ()
      ensures stored == None
    {
      stored := None;
    }

    /** The stored history as read back: a missing key reads as the empty history. */
    function Entries(): (entries: seq<Entry>)
      reads this
      ensures stored.None? ==> entries == []
      ensures stored.Some? ==> entries == stored.value
    {
      stored.GetOr([])
    }

    /** `saveResults`: read the history, push one entry, write the history back. */
    method Save(date: string, results: seq<bool>, test: string)
      modifies this
      ensures stored == Some(old(Entries()) + [Entry(date, results, test)])
      ensures |Entries()| == |old(Entries())| + 1
      ensures Entries()[..|old(Entries())|] == old(Entries())
      ensures Entries()[|Entries()| - 1] == Entry(date, results, test)
    {
      var storedResults := Entries();
      storedResults := storedResults + [Entry(date, results, test)];
      stored := Some(storedResults);
    }

    /** The storage part of `clearHistory`: the key is removed. */
    method Clear()
      modifies this
      ensures stored == None && Entries() == []
    {
      stored := None;
    }
  }
}
