/** The builder's read-only lookups into the error records produced by an
    external validator: `getValidationError` (per question) and
    `getAnswerErrors` (per answer list). */
module Validation {
  import opened Wrappers
  import opened FormSchema

  datatype FieldRef = FieldRef(labelText: string, concept: string, id: Option<string>, fieldType: Option<string>)

  datatype ValidationError = ValidationError(
    errorMessage: Option<string>,
    warningMessage: Option<string>,
    field: FieldRef)

  /** The `find` predicate: label, id and type all strictly equal. A record
      without an id or a type never matches, since a question has both. */
  predicate MatchesQuestion(e: ValidationError, q: Question) {
    e.field.labelText == q.labelText && e.field.id == Some(q.id) && e.field.fieldType == Some(q.questionType)
  }

  /** `message || ''`: an absent and an empty message both give `''`. */
  function OrEmpty(m: Option<string>): string {
    if m.Some? then m.value else ""
  }

  /** `getValidationError(question)`: the error message of the FIRST record
      matching the question, or `''` when none matches. */
  function GetValidationError(vs: seq<ValidationError>, q: Question): (r: string)
    ensures (forall k :: 0 <= k < |vs| ==> !MatchesQuestion(vs[k], q)) ==> r == ""
    ensures forall k :: 0 <= k < |vs| && MatchesQuestion(vs[k], q)
                        && (forall j :: 0 <= j < k ==> !MatchesQuestion(vs[j], q))
                        ==> r == OrEmpty(vs[k].errorMessage)
  {
    if vs == [] then ""
    else if MatchesQuestion(vs[0], q) then OrEmpty(vs[0].errorMessage)
    else GetValidationError(vs[1..], q)
  }

  /** `answers?.map(answer => answer.label) || []` */
  function AnswerLabels(answers: Option<seq<Answer>>): (r: seq<string>)
    ensures answers.None? ==> r == []
    ensures answers.Some? ==> |r| == |answers.value| && forall i :: 0 <= i < |r| ==> r[i] == answers.value[i].labelText
  {
    if answers.None? then []
    else seq(|answers.value|, i requires 0 <= i < |answers.value| => answers.value[i].labelText)
  }

  /** `validationResponse.filter(error => labels.includes(error.field.label))` */
  function ErrorsWithLabels(vs: seq<ValidationError>, labels: seq<string>): (r: seq<ValidationError>)
    ensures |r| <= |vs|
    ensures labels == [] ==> r == []
    ensures forall i :: 0 <= i < |r| ==> r[i] in vs && r[i].field.labelText in labels
  {
    if vs == [] then []
    else if vs[0].field.labelText in labels then [vs[0]] + ErrorsWithLabels(vs[1..], labels)
    else ErrorsWithLabels(vs[1..], labels)
  }

  /** `getAnswerErrors(answers)`: the records whose field label is one of the
      answers' labels; none when the answer list is absent. */
  function GetAnswerErrors(vs: seq<ValidationError>, answers: Option<seq<Answer>>): (r: seq<ValidationError>)
    ensures answers.None? ==> r == []
    ensures forall i :: 0 <= i < |r| ==> r[i] in vs && r[i].field.labelText in AnswerLabels(answers)
  {
    ErrorsWithLabels(vs, AnswerLabels(answers))
  }

  lemma {:induction false} ErrorsWithLabelsExact(vs: seq<ValidationError>, labels: seq<string>, e: ValidationError)
    ensures multiset(ErrorsWithLabels(vs, labels))[e] == if e.field.labelText in labels then multiset(vs)[e] else 0
  {
    if vs != [] {
      assert vs == [vs[0]] + vs[1..];
      ErrorsWithLabelsExact(vs[1..], labels, e);
    }
  }

  /** The filter keeps the response's order: filtering two stretches of the
      response one after the other is filtering the whole of it. */
  lemma {:induction false} ErrorsWithLabelsAppend(xs: seq<ValidationError>, ys: seq<ValidationError>, labels: seq<string>)
    ensures ErrorsWithLabels(xs + ys, labels) == ErrorsWithLabels(xs, labels) + ErrorsWithLabels(ys, labels)
  {
    if xs == [] {
      assert xs + ys == ys;
    } else {
      assert (xs + ys)[1..] == xs[1..] + ys;
      ErrorsWithLabelsAppend(xs[1..], ys, labels);
    }
  }

  /** The answer errors come in the order the validator reported them. */
  lemma AnswerErrorsInOrder(xs: seq<ValidationError>, ys: seq<ValidationError>, answers: Option<seq<Answer>>)
    ensures GetAnswerErrors(xs + ys, answers) == GetAnswerErrors(xs, answers) + GetAnswerErrors(ys, answers)
  {
    ErrorsWithLabelsAppend(xs, ys, AnswerLabels(answers));
  }

  /** Exactly the matching records are returned, each as often as it occurs
      in the validator's response. */
  lemma AnswerErrorsExact(vs: seq<ValidationError>, answers: Option<seq<Answer>>, e: ValidationError)
    ensures multiset(GetAnswerErrors(vs, answers))[e]
         == if e.field.labelText in AnswerLabels(answers) then multiset(vs)[e] else 0
  {
    ErrorsWithLabelsExact(vs, AnswerLabels(answers), e);
  }
}
