/** The drag source of a rendered question: the sortable registration the
    drag-and-drop layer sees (keyed by the question's schema id, with a
    `type` tag and a payload), the props the builder renders each question
    with, and the synthetic `draggableId` string. The component computes
    that string but never hands it to the drag layer; the properties proved
    about it describe the string itself. */
module DragSource {
  import opened Wrappers
  import opened FormSchema
  import Relocation
  import RelocationProperties

  /** JavaScript truthiness of the optional `nestedQuestionIndex` prop:
      both `undefined` and `0` are falsy. */
  predicate Truthy(n: Option<nat>) {
    n.Some? && n.value != 0
  }

  predicate IsDigit(c: char) {
    '0' <= c <= '9'
  }

  predicate AllDigits(s: string) {
    forall i :: 0 <= i < |s| ==> IsDigit(s[i])
  }

  /** Decimal rendering of an index inside a template literal. */
  function NatToString(n: nat): (r: string)
    ensures |r| >= 1 && AllDigits(r)
    ensures |r| > 1 ==> r[0] != '0'
  {
    if n < 10 then [('0' as int + n) as char]
    else NatToString(n / 10) + [('0' as int + n % 10) as char]
  }

  function DigitsValue(s: string): nat
    requires AllDigits(s)
  {
    if s == [] then 0
    else DigitsValue(s[..|s| - 1]) * 10 + (s[|s| - 1] as int - '0' as int)
  }

  lemma {:induction false} NatToStringValue(n: nat)
    ensures DigitsValue(NatToString(n)) == n
  {
    if n >= 10 {
      NatToStringValue(n / 10);
      var r := NatToString(n);
      assert r[..|r| - 1] == NatToString(n / 10);
    }
  }

  function ParseNat(s: string): (r: Option<nat>)
    ensures r.Some? <==> |s| >= 1 && AllDigits(s)
  {
    if |s| >= 1 && AllDigits(s) then Some(DigitsValue(s)) else None
  }

  /** `draggableId`: `question-<page>-<section>-<question>`, with
      `-<nested>` appended only when the nested index is truthy. Nothing
      reads it: the sortable is keyed by the question id, and the drag hook
      that took this id is commented out. */
  function DraggableId(pageIndex: nat, sectionIndex: nat, questionIndex: nat, nested: Option<nat>): (r: string)
    ensures |r| > |"question-"| && r[..9] == "question-"
  {
    var base := "question-" + NatToString(pageIndex) + "-" + NatToString(sectionIndex) + "-" + NatToString(questionIndex);
    if Truthy(nested) then base + "-" + NatToString(nested.value) else base
  }

  /** Pieces of a string between `-` separators. */
  function Split(s: string): (r: seq<string>)
    ensures |r| >= 1
    ensures forall k :: 0 <= k < |r| ==> '-' !in r[k]
  {
    if s == [] then [""]
    else if s[0] == '-' then [""] + Split(s[1..])
    else
      var t := Split(s[1..]);
      [[s[0]] + t[0]] + t[1..]
  }

  lemma {:induction false} SplitPiece(w: string)
    requires '-' !in w
    ensures Split(w) == [w]
  {
    if w != [] {
      assert w[0] in w;
      SplitPiece(w[1..]);
      assert [w[0]] + w[1..] == w;
    }
  }

  lemma {:induction false} SplitJoin(w: string, rest: string)
    requires '-' !in w
    ensures Split(w + "-" + rest) == [w] + Split(rest)
  {
    if w == [] {
      assert w + "-" + rest == ['-'] + rest;
      assert (['-'] + rest)[1..] == rest;
    } else {
      SplitJoin(w[1..], rest);
      assert (w + "-" + rest)[1..] == w[1..] + "-" + rest;
      assert [w[0]] + w[1..] == w;
    }
  }

  lemma NoDashInNumeral(n: nat)
    ensures '-' !in NatToString(n)
  {
    var r := NatToString(n);
    forall k | 0 <= k < |r| ensures r[k] != '-' {
      assert IsDigit(r[k]);
    }
  }

  /** Where a drag id says the question is. */
  datatype DragAddress = DragAddress(pageIndex: nat, sectionIndex: nat, questionIndex: nat, nested: Option<nat>)

  /** Reads a drag id back into the address it was built from. */
  function ParseDraggableId(id: string): (r: Option<DragAddress>)
    ensures r.Some? ==> |Split(id)| in {4, 5} && Split(id)[0] == "question"
    ensures r.Some? ==> (r.value.nested.Some? <==> |Split(id)| == 5)
  {
    var parts := Split(id);
    if (|parts| == 4 || |parts| == 5) && parts[0] == "question"
       && ParseNat(parts[1]).Some? && ParseNat(parts[2]).Some? && ParseNat(parts[3]).Some?
    then
      if |parts| == 4 then
        Some(DragAddress(ParseNat(parts[1]).value, ParseNat(parts[2]).value, ParseNat(parts[3]).value, None))
      else if ParseNat(parts[4]).Some? then
        Some(DragAddress(ParseNat(parts[1]).value, ParseNat(parts[2]).value, ParseNat(parts[3]).value, Some(ParseNat(parts[4]).value)))
      else None
    else None
  }

  /** The nested index as the drag id keeps it: a falsy one is dropped. */
  function Effective(nested: Option<nat>): (r: Option<nat>)
    ensures r.Some? <==> Truthy(nested)
    ensures r.Some? ==> r == nested
  {
    if Truthy(nested) then nested else None
  }

  lemma SplitNumeral(n: nat)
    ensures Split(NatToString(n)) == [NatToString(n)]
    ensures ParseNat(NatToString(n)) == Some(n)
  {
    NoDashInNumeral(n);
    SplitPiece(NatToString(n));
    NatToStringValue(n);
  }

  lemma SplitDraggableId(p: nat, s: nat, q: nat, nested: Option<nat>)
    ensures Split(DraggableId(p, s, q, nested))
         == ["question", NatToString(p), NatToString(s), NatToString(q)]
            + (if Truthy(nested) then [NatToString(nested.value)] else [])
  {
    var N := NatToString(q);
    var t3 := if Truthy(nested) then N + "-" + NatToString(nested.value) else N;
    DraggableIdShape(p, s, q, nested);
    NoDashInNumeral(p);
    NoDashInNumeral(s);
    SplitPrefix(NatToString(p), NatToString(s), t3);
    SplitTail(q, nested);
  }

  lemma SplitPrefix(P: string, S: string, t: string)
    requires '-' !in P && '-' !in S
    ensures Split("question" + "-" + (P + "-" + (S + "-" + t))) == ["question", P, S] + Split(t)
  {
    SplitJoin(S, t);
    SplitJoin(P, S + "-" + t);
    SplitJoin("question", P + "-" + (S + "-" + t));
  }

  lemma SplitTail(q: nat, nested: Option<nat>)
    ensures var N := NatToString(q);
      Split(if Truthy(nested) then N + "-" + NatToString(nested.value) else N)
      == [N] + (if Truthy(nested) then [NatToString(nested.value)] else [])
  {
    var N := NatToString(q);
    NoDashInNumeral(q);
    SplitPiece(N);
    if Truthy(nested) {
      NoDashInNumeral(nested.value);
      SplitPiece(NatToString(nested.value));
      SplitJoin(N, NatToString(nested.value));
    }
  }

  lemma DraggableIdShape(p: nat, s: nat, q: nat, nested: Option<nat>)
    ensures var N := NatToString(q);
      var t3 := if Truthy(nested) then N + "-" + NatToString(nested.value) else N;
      DraggableId(p, s, q, nested) == "question" + "-" + (NatToString(p) + "-" + (NatToString(s) + "-" + t3))
  {
    var P, S, N := NatToString(p), NatToString(s), NatToString(q);
    var t3 := if Truthy(nested) then N + "-" + NatToString(nested.value) else N;
    assert "question-" == "question" + "-";
    Regroup("question", P, S + "-" + N);
    Regroup(P, S, N);
    Regroup("question" + "-" + P, S, N);
    if Truthy(nested) {
      var M := NatToString(nested.value);
      Regroup("question" + "-" + P + "-" + S, N, M);
      Regroup("question" + "-" + P, S, N + "-" + M);
      Regroup("question", P, S + "-" + (N + "-" + M));
      Regroup(S, N, M);
    }
  }

  /** Regrouping one `-` join to the right. */
  lemma Regroup(a: string, b: string, c: string)
    ensures a + "-" + b + "-" + c == a + "-" + (b + "-" + c)
  {
  }

  /** The drag id records the full address, except that a nested index of
      0 is lost. */
  lemma DraggableIdRoundTrip(p: nat, s: nat, q: nat, nested: Option<nat>)
    ensures ParseDraggableId(DraggableId(p, s, q, nested)) == Some(DragAddress(p, s, q, Effective(nested)))
  {
    SplitDraggableId(p, s, q, nested);
    SplitNumeral(p);
    SplitNumeral(s);
    SplitNumeral(q);
    if Truthy(nested) {
      SplitNumeral(nested.value);
    }
  }

  /** Two questions get the same drag id only when they sit at the same
      page, section and question index and have the same truthy nested
      index (or both a falsy one). */
  lemma DraggableIdInjective(a: DragAddress, b: DragAddress)
    requires DraggableId(a.pageIndex, a.sectionIndex, a.questionIndex, a.nested)
          == DraggableId(b.pageIndex, b.sectionIndex, b.questionIndex, b.nested)
    ensures a.(nested := Effective(a.nested)) == b.(nested := Effective(b.nested))
  {
    DraggableIdRoundTrip(a.pageIndex, a.sectionIndex, a.questionIndex, a.nested);
    DraggableIdRoundTrip(b.pageIndex, b.sectionIndex, b.questionIndex, b.nested);
  }

  /** A nested question at nested index 0 gets the drag id of the top-level
      question at the same position. */
  lemma NestedZeroCollides(p: nat, s: nat, q: nat)
    ensures DraggableId(p, s, q, Some(0)) == DraggableId(p, s, q, None)
    ensures ParseDraggableId(DraggableId(p, s, q, Some(0))) == Some(DragAddress(p, s, q, None))
  {
    DraggableIdRoundTrip(p, s, q, Some(0));
  }

  /** The `type` of the sortable's data. */
  datatype DragType = QuestionTag | ObsQuestionTag

  function TypeName(t: DragType): (r: string)
    ensures r == "question" <==> t == QuestionTag
  {
    match t
    case QuestionTag => "question"
    case ObsQuestionTag => "obsQuestion"
  }

  /** `nestedQuestionIndex ? 'obsQuestion' : 'question'` */
  function TypeTag(nested: Option<nat>): (t: DragType)
    ensures t == ObsQuestionTag <==> Truthy(nested)
  {
    if Truthy(nested) then ObsQuestionTag else QuestionTag
  }

  /** The tag and the drag id agree: a source is an `obsQuestion` exactly
      when its drag id carries a nested component. */
  lemma TagMatchesDraggableId(p: nat, s: nat, q: nat, nested: Option<nat>)
    ensures TypeTag(nested) == ObsQuestionTag <==> |Split(DraggableId(p, s, q, nested))| == 5
    ensures TypeTag(nested) == QuestionTag <==> |Split(DraggableId(p, s, q, nested))| == 4
  {
    SplitDraggableId(p, s, q, nested);
  }

  /** The props of a rendered question that reach the drag layer (the
      callbacks are left out). */
  datatype QuestionProps = QuestionProps(
    pageIndex: nat,
    sectionIndex: nat,
    question: Question,
    questionCount: nat,
    questionIndex: nat,
    schema: Schema,
    nestedQuestionIndex: Option<nat>)

  /** `data.question` of the sortable. */
  datatype DragPayload = DragPayload(
    pageIndex: nat,
    sectionIndex: nat,
    question: Question,
    questionCount: nat,
    questionIndex: nat,
    schema: Schema)

  datatype DragData = DragData(dragType: DragType, question: DragPayload)

  datatype Sortable = Sortable(id: string, data: DragData)

  /** The `useSortable` registration: keyed by the question's own schema
      id (not the drag id), tagged by nesting, carrying the source address. */
  function SortableFor(props: QuestionProps): (r: Sortable)
    ensures r.id == props.question.id
    ensures r.data.dragType == ObsQuestionTag <==> Truthy(props.nestedQuestionIndex)
    ensures var d := r.data.question;
      && d.question == props.question && d.schema == props.schema
      && d.pageIndex == props.pageIndex && d.sectionIndex == props.sectionIndex
      && d.questionIndex == props.questionIndex && d.questionCount == props.questionCount
  {
    Sortable(props.question.id,
      DragData(TypeTag(props.nestedQuestionIndex),
        DragPayload(props.pageIndex, props.sectionIndex, props.question,
          props.questionCount, props.questionIndex, props.schema)))
  }

  /** The drag id a rendered question computes from its props. */
  function DragIdOf(props: QuestionProps): string {
    DraggableId(props.pageIndex, props.sectionIndex, props.questionIndex, props.nestedQuestionIndex)
  }

  /** The props the section list renders question `k` of section `i` on
      page `p` with: that question, the length of its list, no nested
      index, and therefore the `question` tag. */
  function TopLevelProps(schema: Schema, p: nat, i: nat, k: nat): (r: QuestionProps)
    requires p < |schema.pages| && i < |schema.pages[p].sections|
    requires k < |schema.pages[p].sections[i].questions| && schema.pages[p].sections[i].questions[k].Some?
    ensures Some(r.question) == schema.pages[p].sections[i].questions[k]
    ensures r.questionCount == |schema.pages[p].sections[i].questions|
    ensures r.pageIndex == p && r.sectionIndex == i && r.questionIndex == k && r.schema == schema
    ensures TypeTag(r.nestedQuestionIndex) == QuestionTag && DragIdOf(r) == DraggableId(p, i, k, None)
  {
    var qs := schema.pages[p].sections[i].questions;
    QuestionProps(p, i, qs[k].value, |qs|, k, schema, None)
  }

  /** The props `ObsQuestions` renders sub-question `qnIndex` of `parent`
      with: `qnIndex` is passed as both the question index and the nested
      index, and the parent's own index `parentIndex` is passed to neither.
      The first sub-question is therefore tagged like a top-level one. */
  function NestedProps(schema: Schema, pageIndex: nat, sectionIndex: nat, parent: Question,
                       parentIndex: nat, qnIndex: nat): (r: QuestionProps)
    requires parent.questions.Some? && qnIndex < |parent.questions.value|
    ensures r.question == parent.questions.value[qnIndex] && r.questionCount == |parent.questions.value|
    ensures r.pageIndex == pageIndex && r.sectionIndex == sectionIndex && r.schema == schema
    ensures r.questionIndex == qnIndex && r.nestedQuestionIndex == Some(qnIndex)
    ensures TypeTag(r.nestedQuestionIndex) == if qnIndex == 0 then QuestionTag else ObsQuestionTag
  {
    QuestionProps(pageIndex, sectionIndex, parent.questions.value[qnIndex],
      |parent.questions.value|, qnIndex, schema, Some(qnIndex))
  }

  /** Sub-questions at the same index under two different parents of one
      section get the same drag id and the same address in their payload;
      from index 1 on, that drag id reads back as question `n`, nested `n`. */
  lemma NestedSiblingsShareAddress(schema: Schema, p: nat, s: nat, parent1: Question, i1: nat,
                                   parent2: Question, i2: nat, n: nat)
    requires parent1.questions.Some? && n < |parent1.questions.value|
    requires parent2.questions.Some? && n < |parent2.questions.value|
    ensures var a, b := NestedProps(schema, p, s, parent1, i1, n), NestedProps(schema, p, s, parent2, i2, n);
      && DragIdOf(a) == DragIdOf(b)
      && SortableFor(a).data.question.(question := b.question, questionCount := b.questionCount)
         == SortableFor(b).data.question
      && SortableFor(a).data.dragType == SortableFor(b).data.dragType
    ensures n >= 1 ==>
      ParseDraggableId(DragIdOf(NestedProps(schema, p, s, parent1, i1, n))) == Some(DragAddress(p, s, n, Some(n)))
  {
    DraggableIdRoundTrip(p, s, n, Some(n));
  }

  /** The first sub-question of any parent computes the drag id of the first
      top-level question of its section and is tagged `question`, like a
      top-level question. */
  lemma FirstSubQuestionLooksTopLevel(schema: Schema, p: nat, s: nat, parent: Question, j: nat)
    requires p < |schema.pages| && s < |schema.pages[p].sections|
    requires 0 < |schema.pages[p].sections[s].questions| && schema.pages[p].sections[s].questions[0].Some?
    requires parent.questions.Some? && 0 < |parent.questions.value|
    ensures DragIdOf(NestedProps(schema, p, s, parent, j, 0)) == DragIdOf(TopLevelProps(schema, p, s, 0))
    ensures SortableFor(NestedProps(schema, p, s, parent, j, 0)).data.dragType
         == SortableFor(TopLevelProps(schema, p, s, 0)).data.dragType == QuestionTag
  {
    NestedZeroCollides(p, s, 0);
  }

  /** Dragging a rendered top-level question of a schema with unique ids:
      relocation, which matches on the sortable id, captures exactly that
      question. */
  lemma DraggingRenderedQuestion(props: QuestionProps)
    requires UniqueIds(props.schema)
    requires props.pageIndex < |props.schema.pages|
    requires props.sectionIndex < |props.schema.pages[props.pageIndex].sections|
    requires props.questionIndex < |props.schema.pages[props.pageIndex].sections[props.sectionIndex].questions|
    requires props.schema.pages[props.pageIndex].sections[props.sectionIndex].questions[props.questionIndex]
          == Some(props.question)
    ensures Relocation.Captured(props.schema, SortableFor(props).id) == Some(props.question)
  {
    var s, q, a := props.schema, props.question, props.question.id;
    var F := Flatten(s);
    SlotInFlattenPages(s.pages, props.pageIndex, props.sectionIndex, props.questionIndex);
    var m :| 0 <= m < |F| && F[m] == Some(q);
    assert HasId(F[m], a);
    assert CountId(F, a) == 1;
    RelocationProperties.RemoveOne(F, a);
    var L := Relocation.LastWithId(F, a);
    var R := Relocation.RemoveId(F, a);
    assert multiset(R)[Some(q)] == 0;
    assert multiset(F)[Some(q)] == multiset(R)[Some(q)] + multiset{L}[Some(q)];
  }
}
