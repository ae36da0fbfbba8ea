/**
 * The event handlers of the quiz page (app.js): loading a test, submitting the
 * form, showing the history and clearing it. The page's `#test-container` is
 * abstracted to the View it displays; the browser storage is a HistoryStore.
 */
module App {
  import opened Wrappers
  import opened Quiz
  import opened History

  /** What `#test-container` displays. */
  datatype View =
    | Blank
    | TestForm(test: Test)          // the questions of a loaded test and its submit button
    | LoadFailed(error: LoadError)  // the load error message
    | NoResults                     // "no saved results"
    | HistoryTable(rows: seq<Row>)  // the history table
    | HistoryCleared                // "the history has been cleared"

  /** What `renderHistory` displays for a stored history. */
  function HistoryView(entries: seq<Entry>): (v: View)
    ensures v == NoResults <==> entries == []
    ensures entries != [] ==> v.HistoryTable? && |v.rows| == |entries|
    ensures entries != [] ==> forall i :: 0 <= i < |entries| ==> v.rows[i] == RowOf(entries[i])
  {
    if |entries| == 0 then NoResults else HistoryTable(HistoryRows(entries))
  }

  /** The quiz page: what it displays and the browser storage it writes to. */
  class Page {
    var view: View
    const store: HistoryStore

    constructor (store: HistoryStore)
      ensures view == Blank && this.store == store
    {
      view := Blank;
      this.store := store;
    }

    /**
     * `loadTest` once the file has been fetched and parsed: a file whose
     * `questions` is not an array replaces the page with the error message, so
     * no form is left to submit; otherwise the test's form is displayed.
     * The history is not touched either way.
     */
    method LoadTest(file: string, field: QuestionsField)
      modifies this`view
      ensures field.AnArray? ==> view == TestForm(Test(file, field.items))
      ensures !field.AnArray? ==> view == LoadFailed(SchemaError)
      ensures !view.TestForm? <==> Load(file, field).Failure?
    {
      var loaded := Load(file, field);
      match loaded
      case Success(test) => view := TestForm(test);
      case Failure(error) => view := LoadFailed(error);
    }

    /**
     * The submit handler, which exists only while a test's form is displayed:
     * score every question, save one entry for the test's file, and show the
     * count of correct answers out of the number of questions.
     */
    method Submit(selections: seq<Option<string>>, date: string) returns (results: seq<bool>, summary: Summary)
      requires view.TestForm?
      modifies store
      ensures results == Scored(view.test.questions, selections)
      ensures store.Entries() == old(store.Entries()) + [Entry(date, results, view.test.file)]
      ensures summary == Summarize(results) && summary.total == |view.test.questions|
    {
      results := Score(view.test.questions, selections);
      store.Save(date, results, view.test.file);
      summary := Summary(CountCorrect(results), |view.test.questions|);
    }

    /** `renderHistory`: the history table, or the "no results" message when the history is empty. */
    method RenderHistory()
      modifies this`view
      ensures view == HistoryView(store.Entries())
    {
      var storedResults := store.Entries();
      if |storedResults| == 0 {
        view := NoResults;
      } else {
        view := HistoryTable(HistoryRows(storedResults));
      }
    }

    /** `clearHistory` once confirmed: the history key is removed and a notice is displayed. */
    method ClearHistory()
      modifies this`view, store
      ensures store.Entries() == [] && view == HistoryCleared
    {
      store.Clear();
      view := HistoryCleared;
    }
  }

  /** Clearing and then viewing the history shows the "no results" case. */
  method ClearThenView(page: Page)
    modifies page, page.store
    ensures page.store.Entries() == [] && page.view == NoResults
  {
    page.ClearHistory();
    page.RenderHistory();
  }

  /** Two submissions append one entry each, in submission order, after the earlier history. */
  method SubmitTwice(page: Page, first: Test, selections1: seq<Option<string>>, date1: string,
                     second: Test, selections2: seq<Option<string>>, date2: string)
    modifies page, page.store
    ensures page.store.Entries() == old(page.store.Entries())
              + [Entry(date1, Scored(first.questions, selections1), first.file)]
              + [Entry(date2, Scored(second.questions, selections2), second.file)]
  {
    page.LoadTest(first.file, AnArray(first.questions));
    var results1, summary1 := page.Submit(selections1, date1);
    page.LoadTest(second.file, AnArray(second.questions));
    var results2, summary2 := page.Submit(selections2, date2);
  }
}
