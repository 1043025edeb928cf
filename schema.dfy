/** The form schema tree edited by the interactive builder: a Schema holds
    Pages, a Page holds Sections, a Section holds Questions, and a grouping
    ("obs group") Question holds its own optional list of sub-questions. */
module FormSchema {
  import opened Wrappers

  datatype Answer = Answer(labelText: string, concept: string)

  /** The `questionOptions` record: rendering mode and, for selectable
      questions, the answer list. */
  datatype QuestionOptions = QuestionOptions(rendering: string, answers: Option<seq<Answer>>)

  /** A question; `questions` is present only for a grouping question. */
  datatype Question = Question(
    id: string,
    labelText: string,
    questionType: string,
    questionOptions: QuestionOptions,
    questions: Option<seq<Question>>)

  /** One element of a section's question array. `None` is a JavaScript
      `undefined` element, which relocation can leave behind. */
  type Slot = Option<Question>

  datatype Section = Section(labelText: string, questions: seq<Slot>)

  datatype Page = Page(labelText: string, sections: seq<Section>)

  datatype Schema = Schema(
    name: string,
    pages: seq<Page>,
    processor: string,
    encounterType: string,
    referencedForms: seq<string>,
    uuid: string)

  /** What reading a property of `undefined` (a missing array element)
      throws. */
  datatype Thrown = TypeError

  /** `question?.id` */
  function IdOf(e: Slot): Option<string> {
    if e.Some? then Some(e.value.id) else None
  }

  predicate HasId(e: Slot, id: string) {
    e.Some? && e.value.id == id
  }

  /** Number of slots holding a question with the given id. */
  function CountId(xs: seq<Slot>, id: string): (c: nat)
    ensures c <= |xs|
    ensures c == 0 <==> forall i :: 0 <= i < |xs| ==> !HasId(xs[i], id)
  {
    if xs == [] then 0
    else (if HasId(xs[0], id) then 1 else 0) + CountId(xs[1..], id)
  }

  lemma {:induction false} CountIdAppend(xs: seq<Slot>, ys: seq<Slot>, id: string)
    ensures CountId(xs + ys, id) == CountId(xs, id) + CountId(ys, id)
  {
    if xs == [] {
      assert xs + ys == ys;
    } else {
      assert (xs + ys)[1..] == xs[1..] + ys;
      CountIdAppend(xs[1..], ys, id);
    }
  }

  /** Slots that hold the same elements the same number of times hold every id
      the same number of times. */
  lemma {:induction false} CountIdMultiset(xs: seq<Slot>, ys: seq<Slot>, id: string)
    requires multiset(xs) == multiset(ys)
    ensures CountId(xs, id) == CountId(ys, id)
    decreases |xs|
  {
    if xs != [] {
      assert xs[0] in multiset(ys);
      var k :| 0 <= k < |ys| && ys[k] == xs[0];
      var rest := ys[..k] + ys[k + 1..];
      assert ys == ys[..k] + [ys[k]] + ys[k + 1..];
      assert xs == [xs[0]] + xs[1..];
      calc {
        multiset(xs[1..]);
        multiset(xs) - multiset{xs[0]};
        multiset(ys) - multiset{ys[k]};
        multiset(ys[..k]) + multiset{ys[k]} + multiset(ys[k + 1..]) - multiset{ys[k]};
        multiset(rest);
      }
      CountIdMultiset(xs[1..], rest, id);
      CountIdAppend(ys[..k] + [ys[k]], ys[k + 1..], id);
      CountIdAppend(ys[..k], [ys[k]], id);
      CountIdAppend(ys[..k], ys[k + 1..], id);
    }
  }

  /** Every top-level slot of the schema, page by page and section by
      section, in document order. */
  function FlattenSections(ss: seq<Section>): seq<Slot> {
    if ss == [] then [] else ss[0].questions + FlattenSections(ss[1..])
  }

  function FlattenPages(ps: seq<Page>): seq<Slot> {
    if ps == [] then [] else FlattenSections(ps[0].sections) + FlattenPages(ps[1..])
  }

  function Flatten(s: Schema): seq<Slot> {
    FlattenPages(s.pages)
  }

  lemma {:induction false} SlotInFlattenSections(ss: seq<Section>, i: nat, k: nat)
    requires i < |ss| && k < |ss[i].questions|
    ensures ss[i].questions[k] in FlattenSections(ss)
  {
    if i > 0 {
      SlotInFlattenSections(ss[1..], i - 1, k);
    }
  }

  lemma {:induction false} SlotInFlattenPages(ps: seq<Page>, p: nat, i: nat, k: nat)
    requires p < |ps| && i < |ps[p].sections| && k < |ps[p].sections[i].questions|
    ensures ps[p].sections[i].questions[k] in FlattenPages(ps)
  {
    if p == 0 {
      SlotInFlattenSections(ps[0].sections, i, k);
    } else {
      SlotInFlattenPages(ps[1..], p - 1, i, k);
    }
  }

  /** The schema holds no `undefined` element in any section. */
  predicate NoHoles(s: Schema) {
    None !in Flatten(s)
  }

  /** The top-level identifier invariant: no hole, and no top-level question
      id occurs twice anywhere in the schema. Ids of sub-questions are not
      counted. */
  ghost predicate UniqueIds(s: Schema) {
    NoHoles(s) && forall id :: CountId(Flatten(s), id) <= 1
  }

  /** Page and section labels (and counts) agree; questions may differ. */
  ghost predicate SameOutline(s: Schema, r: Schema) {
    && |r.pages| == |s.pages|
    && forall p :: 0 <= p < |s.pages| ==>
         && r.pages[p].labelText == s.pages[p].labelText
         && |r.pages[p].sections| == |s.pages[p].sections|
         && forall i :: 0 <= i < |s.pages[p].sections| ==>
              r.pages[p].sections[i].labelText == s.pages[p].sections[i].labelText
  }

  function IdsOfSlots(qs: seq<Slot>): (r: seq<Option<string>>)
    ensures |r| == |qs| && forall i :: 0 <= i < |qs| ==> r[i] == IdOf(qs[i])
  {
    seq(|qs|, i requires 0 <= i < |qs| => IdOf(qs[i]))
  }

  function IdsOfSections(ss: seq<Section>): (r: seq<Option<string>>)
    ensures |r| == |FlattenSections(ss)|
    ensures forall i :: 0 <= i < |r| ==> r[i] == IdOf(FlattenSections(ss)[i])
  {
    if ss == [] then [] else IdsOfSlots(ss[0].questions) + IdsOfSections(ss[1..])
  }

  function IdsOfPages(ps: seq<Page>): (r: seq<Option<string>>)
    ensures |r| == |FlattenPages(ps)|
    ensures forall i :: 0 <= i < |r| ==> r[i] == IdOf(FlattenPages(ps)[i])
  {
    if ps == [] then [] else IdsOfSections(ps[0].sections) + IdsOfPages(ps[1..])
  }

  /** `quesionsIdsArray`: the ids of all top-level questions in document
      order, `undefined` for a hole; the sortable items of the builder. */
  function QuestionIds(s: Schema): (r: seq<Option<string>>)
    ensures |r| == |Flatten(s)|
    ensures forall i :: 0 <= i < |r| ==> r[i] == IdOf(Flatten(s)[i])
  {
    IdsOfPages(s.pages)
  }

  /** An id is listed by `QuestionIds` exactly when some top-level question
      carries it. */
  lemma ListedIdIsTopLevel(s: Schema, id: string)
    ensures Some(id) in QuestionIds(s) <==> CountId(Flatten(s), id) > 0
  {
    var F := Flatten(s);
    if Some(id) in QuestionIds(s) {
      var i :| 0 <= i < |F| && QuestionIds(s)[i] == Some(id);
      assert HasId(F[i], id);
    }
    if CountId(F, id) > 0 {
      var i :| 0 <= i < |F| && HasId(F[i], id);
      assert QuestionIds(s)[i] == Some(id);
    }
  }
}
