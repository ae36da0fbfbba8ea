# Quiz scoring and history kernel

A model of the logic inside the quiz page's event handlers (`app.js`): the page
loads a multiple-choice test from a JSON file, renders one radio group per
question, scores a submission into one boolean per question, appends
`{date, results, test}` to the result history kept under the `testResults`
browser-storage key, shows "correct of total" for a submission, lists the
history as a table and clears it.

- `wrappers.dfy` — `Option` and `Result`.
- `quiz.dfy` (module `Quiz`) — questions, the load check, the choice identifier
  of an option (`option.split(')')[0]`), the scoring loop of the submit handler
  and the correct-answer count (`results.filter(r => r).length`).
- `history.dfy` (module `History`) — stored entries, the history-table rows with
  the `.json` removed from the test name, and `HistoryStore`, the storage key as
  a class whose `Save` and `Clear` update it in place.
- `app.dfy` (module `App`) — the page as a class holding the view that
  `#test-container` displays and the store, with one method per handler.

Two facts about app.js that the model keeps: the total shown after a submission
is `testData.questions.length` (app.js:74), which `Page.Submit` proves equal to
the length of the results; and an unparsable stored history is not reset to
empty, because `JSON.parse` throws at app.js:81 and app.js:109 (the model has no
unparsable state, see below).

## Model

| member | source | states |
|---|---|---|
| `Quiz.Load` | app.js:27-31 | loading succeeds exactly when `questions` is an array (an empty array included) and keeps its questions in order; otherwise it fails with the schema error |
| `Quiz.ChoiceId` | app.js:49 | the identifier is a prefix of the option, contains no `)`, and is either the whole option or is followed by `)` |
| `Quiz.ChoiceIdUnique` | app.js:49 | those three properties determine the identifier: it is the text before the first `)` |
| `Quiz.RadioValues` | app.js:46-49 | one radio value per option, in option order, each a `)`-free prefix of its option that is the whole option or is followed by `)` (so, by `ChoiceIdUnique`, the option's identifier) |
| `Quiz.CheckedOptionScores` | app.js:49-68 | checking the radio button of an option scores its question correct iff that option's identifier equals `correctAnswer` |
| `Quiz.Score` | app.js:65-68 | exactly one result per question, in question order; result `i` is true iff question `i` has a checked value equal to its `correctAnswer`; nothing checked gives false |
| `Quiz.CountCorrect` | app.js:154 | the number of correct answers never exceeds the number of results |
| `Quiz.CountCorrectIsMultiplicity` | app.js:135 | the filtered count equals the number of `true` entries (their multiplicity) |
| `Quiz.CountCorrectZero` | app.js:154 | the count is zero iff no result is true |
| `Quiz.CountCorrectFull` | app.js:154 | the count equals the total iff every result is true |
| `Quiz.NothingCheckedScoresZero` | app.js:66-68 | a submission with no radio button checked scores zero correct answers |
| `Quiz.Summarize` | app.js:135-136 | total is the results length; correct is the number of `true` entries and is at most the total |
| `Quiz.Percentage` | app.js:155 | for a non-empty total the percentage is correct / total * 100 (before rounding): it lies in [0, 100], is 100 iff all are correct and 0 iff none is |
| `History.IndexOf` | app.js:134 | returns the first position of the pattern at or after the start, or none when it occurs nowhere there |
| `History.StripJson` | app.js:134 | without ".json" the name is unchanged; otherwise the label is the name with its first ".json" cut out, and reinserting ".json" there gives the name back |
| `History.StripJsonFileName` | app.js:134 | a file name `<stem>.json` whose stem holds no ".json" is labelled `<stem>` |
| `History.RowOf` | app.js:132-137 | a row keeps the entry's date, labels its test with `StripJson`, and shows the count of `true` results out of the results length |
| `History.HistoryRows` | app.js:131-139 | one row per stored entry, in stored order |
| `History.HistoryRowsAppend` | app.js:82 | after a save the table gains exactly one row, at the bottom, and the earlier rows are unchanged |
| `History.HistoryStore.Entries` | app.js:81 | a missing storage key reads as the empty history |
| `History.HistoryStore.Save` | app.js:79-84 | the history grows by exactly one entry at the end holding the given date, results and test; earlier entries are unchanged; a missing key counts as empty |
| `History.HistoryStore.Clear` | app.js:148 | the storage key is removed, so the history reads as empty |
| `App.HistoryView` | app.js:112-115 | the "no results" message is shown iff the history is empty; otherwise the table has one row per entry |
| `App.Page.LoadTest` | app.js:27-35 | a file whose `questions` is not an array replaces the page with the error, leaving no form to submit; otherwise its form is displayed; the history is untouched |
| `App.Page.Submit` | app.js:64-75 | the results are the scoring of the displayed test, exactly one entry with them and the test's file is appended, and the summary counts them out of the number of questions |
| `App.Page.RenderHistory` | app.js:108-144 | the view becomes the history view of what is stored |
| `App.Page.ClearHistory` | app.js:146-151 | afterwards the history is empty and the cleared notice is displayed |
| `App.ClearThenView` | app.js:108-151 | viewing the history right after clearing it shows the "no results" case |
| `App.SubmitTwice` | app.js:64-84 | two submissions append exactly two entries after the unchanged earlier history, in submission order, each holding its date, the scoring of its selections against its test, and its test file |

## Left out

- Fetching the test file and the HTTP status check (app.js:22-26): network I/O. A load is modelled from what the parsed file holds under `questions`; a failed fetch is not modelled.
- `JSON.parse`/`JSON.stringify` and `localStorage`: the store holds the entry sequence itself, so serialisation round trips and an unparsable stored value are not modelled.
- Per-question fields are not checked by the source; the model's `Question` always has a text, options and a correct answer, so malformed questions are not modelled.
- `renderChart` (app.js:86-106): an external charting library whose result is not used. Its exceptions are not modelled either: the `scales: { y: ... }` options (app.js:98-102) are those of Chart.js 3 and later, which throw when a new chart is created on a canvas that already holds one; if that version is in use, every submission after the first in a page session stops at app.js:73, after the entry is saved but before the results message (app.js:74) is shown, whereas `Page.Submit` always produces the summary. The library's version is not part of this model.
- Quiz.RadioValues: assumes identifiers hold no HTML-special characters; the identifier is written into `value="..."` unescaped (app.js:49), so one containing `"` or an entity such as `&amp;` is not read back unchanged as the checked value.
- The `confirm()` dialog (app.js:147): `ClearHistory` models the confirmed case; a declined dialog changes nothing.
- `new Date().toLocaleDateString()` (app.js:80): the date is an opaque string argument.
- DOM construction and templating: question text, revealing the correct answers after a submission (app.js:69-70) and the results message markup are not modelled; after a submission the view stays the test's form.
- Quiz.Percentage: does not model `toFixed(2)` rounding nor the NaN shown when a test has no questions (app.js:137, app.js:155); it requires a non-empty total.
- App.Page.Submit: requires the test form to be displayed, since the submit button exists only inside it.
