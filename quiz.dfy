/**
 * The question bank and the scoring of one submission: the schema check of
 * `loadTest`, the radio-button values built by `renderTest`, the loop of the
 * submit handler and the counts shown by `showResultsMessage` (app.js).
 */
module Quiz {
  import opened Wrappers

  /** One element of a test file's `questions` array. */
  datatype Question = Question(question: string, options: seq<string>, correctAnswer: string)

  /** A test that passed the load check: the file it came from and its questions, in order. */
  datatype Test = Test(file: string, questions: seq<Question>)

  /** What the parsed test file holds under the key `questions`. */
  datatype QuestionsField = Missing | NotAnArray | AnArray(items: seq<Question>)

  /** The one error the load check raises ("the JSON file does not have the expected structure"). */
  datatype LoadError = SchemaError

  /**
   * The load check: the data is rejected unless `questions` is present and is an
   * array. An empty array is accepted (an empty array is truthy in JavaScript).
   * No field of the individual questions is checked.
   */
  function Load(file: string, field: QuestionsField): (r: Result<Test, LoadError>)
    ensures r.Success? <==> field.AnArray?
    ensures r.Success? ==> r.value == Test(file, field.items)
    ensures field == AnArray([]) ==> r == Success(Test(file, []))
    ensures r.Failure? ==> r.error == SchemaError
  {
    match field
    case AnArray(items) => Success(Test(file, items))
    case _ => Failure(SchemaError)
  }

  /**
   * The choice identifier of an option string: the text before its first `)`,
   * or the whole string when it has none (the first piece of `option.split(')')`).
   */
  function ChoiceId(option: string): (id: string)
    ensures id <= option
    ensures ')' !in id
    ensures id == option || option[|id|] == ')'
  {
    if option == [] || option[0] == ')' then [] else [option[0]] + ChoiceId(option[1..])
  }

  /** The three properties of ChoiceId determine it: any prefix that has them is the identifier. */
  lemma ChoiceIdUnique(option: string, p: string)
    requires p <= option && ')' !in p
    requires p == option || option[|p|] == ')'
    ensures p == ChoiceId(option)
  {
  }

  /** The `value` attributes of a question's radio buttons, one per option, in option order. */
  function RadioValues(q: Question): (values: seq<string>)
    ensures |values| == |q.options|
    ensures forall i :: 0 <= i < |values| ==> values[i] <= q.options[i] && ')' !in values[i]
    ensures forall i :: 0 <= i < |values| ==> values[i] == q.options[i] || q.options[i][|values[i]|] == ')'
  {
    seq(|q.options|, i requires 0 <= i < |q.options| => ChoiceId(q.options[i]))
  }

  /**
   * The value of the checked radio button of question `index`, if any. The form
   * has one radio group per question; a position past the end of `selections`
   * is a group with nothing checked.
   */
  function Selected(selections: seq<Option<string>>, index: nat): Option<string> {
    if index < |selections| then selections[index] else None
  }

  /** The boolean pushed for one question: a checked value equal to `correctAnswer`; nothing checked is false. */
  predicate Grade(q: Question, selected: Option<string>) {
    selected.Some? && selected.value == q.correctAnswer
  }

  /** The results of a submission: one boolean per question, in question order. */
  function Scored(questions: seq<Question>, selections: seq<Option<string>>): seq<bool> {
    seq(|questions|, i requires 0 <= i < |questions| => Grade(questions[i], Selected(selections, i)))
  }

  /**
   * Checking the radio button of option `k` of question `index` scores that
   * question correct exactly when the option's identifier is its `correctAnswer`.
   */
  lemma CheckedOptionScores(questions: seq<Question>, selections: seq<Option<string>>, index: nat, k: nat)
    requires index < |questions| && index < |selections| && k < |questions[index].options|
    requires selections[index] == Some(RadioValues(questions[index])[k])
    ensures |Scored(questions, selections)| == |questions|
    ensures Scored(questions, selections)[index] <==> ChoiceId(questions[index].options[k]) == questions[index].correctAnswer
  {
    var q := questions[index];
    var v := RadioValues(q)[k];
    ChoiceIdUnique(q.options[k], v);
  }

  /** The loop of the submit handler: `results.push(...)` once per question. */
  method Score(questions: seq<Question>, selections: seq<Option<string>>) returns (results: seq<bool>)
    ensures |results| == |questions|
    ensures forall i :: 0 <= i < |results| ==>
              (results[i] <==> Selected(selections, i) == Some(questions[i].correctAnswer))
    ensures results == Scored(questions, selections)
  {
    results := [];
    var index := 0;
    while index < |questions|
      invariant index <= |questions|
      invariant |results| == index
      invariant forall i :: 0 <= i < index ==> results[i] == Grade(questions[i], Selected(selections, i))
    {
      var selected := Selected(selections, index);
      results := results + [if selected.Some? then selected.value == questions[index].correctAnswer else false];
      index := index + 1;
    }
  }

  /** `results.filter(result => result).length`: the number of correct answers. */
  function CountCorrect(results: seq<bool>): (n: nat)
    ensures n <= |results|
  {
    if results == [] then 0 else (if results[0] then 1 else 0) + CountCorrect(results[1..])
  }

  /** The count agrees with an independent definition: the multiplicity of `true`. */
  lemma {:induction false} CountCorrectIsMultiplicity(results: seq<bool>)
    ensures CountCorrect(results) == multiset(results)[true]
  {
    if results != [] {
      CountCorrectIsMultiplicity(results[1..]);
      assert results == [results[0]] + results[1..];
      assert multiset(results) == multiset{results[0]} + multiset(results[1..]);
    }
  }

  /** The count is zero exactly when no answer is correct. */
  lemma {:induction false} CountCorrectZero(results: seq<bool>)
    ensures CountCorrect(results) == 0 <==> forall i :: 0 <= i < |results| ==> !results[i]
  {
    if results != [] {
      CountCorrectZero(results[1..]);
      assert forall i :: 1 <= i < |results| ==> results[i] == results[1..][i - 1];
    }
  }

  /** The count equals the total exactly when every answer is correct. */
  lemma {:induction false} CountCorrectFull(results: seq<bool>)
    ensures CountCorrect(results) == |results| <==> forall i :: 0 <= i < |results| ==> results[i]
  {
    if results != [] {
      CountCorrectFull(results[1..]);
      assert forall i :: 1 <= i < |results| ==> results[i] == results[1..][i - 1];
    }
  }

  /** A submission with nothing checked scores zero correct answers. */
  lemma NothingCheckedScoresZero(questions: seq<Question>, selections: seq<Option<string>>)
    requires forall i :: 0 <= i < |selections| ==> selections[i] == None
    ensures CountCorrect(Scored(questions, selections)) == 0
  {
    CountCorrectZero(Scored(questions, selections));
  }

  /** The pair shown to the user: correct answers and total questions. */
  datatype Summary = Summary(correct: nat, total: nat)

  /** The counts of a result vector: the correct count is the number of `true` entries, the total its length. */
  function Summarize(results: seq<bool>): (s: Summary)
    ensures s.total == |results| && s.correct <= s.total
    ensures s.correct == multiset(results)[true]
  {
    CountCorrectIsMultiplicity(results);
    Summary(CountCorrect(results), |results|)
  }

  /** The percentage of correct answers before rounding, for a non-empty total. */
  function Percentage(s: Summary): (p: real)
    requires 0 < s.total && s.correct <= s.total
    ensures 0.0 <= p <= 100.0
    ensures p == 100.0 <==> s.correct == s.total
    ensures p == 0.0 <==> s.correct == 0
    ensures p * (s.total as real) == 100.0 * (s.correct as real)
  {
    var ratio := s.correct as real / s.total as real;
    RatioBounds(s.correct as real, s.total as real);
    ratio * 100.0
  }

  /** The fraction correct/total lies in [0, 1], is 1 only for a full score and 0 only for none. */
  lemma RatioBounds(correct: real, total: real)
    requires 0.0 <= correct <= total && 0.0 < total
    ensures 0.0 <= correct / total <= 1.0
    ensures correct / total == 1.0 <==> correct == total
    ensures correct / total == 0.0 <==> correct == 0.0
  {
    var ratio := correct / total;
    assert ratio * total == correct;
  }
}
