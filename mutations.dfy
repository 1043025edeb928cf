/** The builder's in-place edits of the schema (`renameSchema`,
    `renamePage`, `renameSection`, `duplicateQuestion`) as functions from
    the schema before to the schema the host is handed, or to the error an
    out-of-range index raises. */
module Mutations {
  import opened Wrappers
  import opened FormSchema

  predicate ValidPage(s: Schema, p: int) {
    0 <= p < |s.pages|
  }

  predicate ValidSection(s: Schema, p: int, i: int) {
    0 <= p < |s.pages| && 0 <= i < |s.pages[p].sections|
  }

  /** `renameSchema(value)`: an empty name is ignored, any other replaces the
      form name; nothing else changes. */
  function RenamedSchema(s: Schema, value: string): (r: Schema)
    ensures r.name == (if value == "" then s.name else value)
    ensures r.(name := s.name) == s
  {
    if value != "" then s.(name := value) else s
  }

  /** `renamePage(name, pageIndex)`: an empty name never touches the pages,
      so it cannot fail; a non-empty one on a missing page throws. */
  function RenamedPage(s: Schema, name: string, p: int): (r: Result<Schema, Thrown>)
    ensures r.Failure? <==> name != "" && !ValidPage(s, p)
    ensures r.Success? ==>
      && r.value == s.(pages := r.value.pages)
      && |r.value.pages| == |s.pages|
      && Flatten(r.value) == Flatten(s)
      && forall j :: 0 <= j < |s.pages| ==>
           && r.value.pages[j].sections == s.pages[j].sections
           && r.value.pages[j].labelText == if j == p && name != "" then name else s.pages[j].labelText
  {
    if name == "" then Success(s)
    else if !ValidPage(s, p) then Failure(TypeError)
    else
      var t := s.(pages := s.pages[p := s.pages[p].(labelText := name)]);
      FlattenPagesSameSections(s.pages, t.pages);
      Success(t)
  }

  /** `renameSection(name, pageIndex, sectionIndex)`, with the same rule. */
  function RenamedSection(s: Schema, name: string, p: int, i: int): (r: Result<Schema, Thrown>)
    ensures r.Failure? <==> name != "" && !ValidSection(s, p, i)
    ensures r.Success? ==>
      && r.value == s.(pages := r.value.pages)
      && |r.value.pages| == |s.pages|
      && Flatten(r.value) == Flatten(s)
      && forall j :: 0 <= j < |s.pages| ==>
           && r.value.pages[j].labelText == s.pages[j].labelText
           && |r.value.pages[j].sections| == |s.pages[j].sections|
           && forall k :: 0 <= k < |s.pages[j].sections| ==>
                && r.value.pages[j].sections[k].questions == s.pages[j].sections[k].questions
                && r.value.pages[j].sections[k].labelText
                   == if j == p && k == i && name != "" then name else s.pages[j].sections[k].labelText
  {
    if name == "" then Success(s)
    else if !ValidSection(s, p, i) then Failure(TypeError)
    else
      var ss := s.pages[p].sections;
      var ss' := ss[i := ss[i].(labelText := name)];
      var t := s.(pages := s.pages[p := s.pages[p].(sections := ss')]);
      FlattenSectionsSameQuestions(ss, ss');
      FlattenPagesSameSections(s.pages, t.pages);
      Success(t)
  }

  /** The deep copy `duplicateQuestion` appends: the same question with
      `Duplicate` appended to its id. */
  function DuplicateOf(q: Question): (d: Question)
    ensures d.id == q.id + "Duplicate"
    ensures d.(id := q.id) == q
  {
    q.(id := q.id + "Duplicate")
  }

  /** `duplicateQuestion(question, pageId, sectionId)`: the copy goes at the
      end of the addressed section's top-level list, whichever question (top
      level or nested) was duplicated; a missing page or section throws. */
  function Duplicated(s: Schema, q: Question, p: int, i: int): (r: Result<Schema, Thrown>)
    ensures r.Failure? <==> !ValidSection(s, p, i)
    ensures r.Success? ==>
      && r.value == s.(pages := r.value.pages)
      && SameOutline(s, r.value)
      && r.value.pages[p].sections[i].questions == s.pages[p].sections[i].questions + [Some(DuplicateOf(q))]
      && forall j, k :: ValidSection(s, j, k) && (j != p || k != i) ==>
           r.value.pages[j].sections[k] == s.pages[j].sections[k]
  {
    if !ValidSection(s, p, i) then Failure(TypeError)
    else
      var ss := s.pages[p].sections;
      var ss' := ss[i := ss[i].(questions := ss[i].questions + [Some(DuplicateOf(q))])];
      Success(s.(pages := s.pages[p := s.pages[p].(sections := ss')]))
  }

  lemma {:induction false} FlattenSectionsSameQuestions(ss: seq<Section>, tt: seq<Section>)
    requires |ss| == |tt|
    requires forall k :: 0 <= k < |ss| ==> ss[k].questions == tt[k].questions
    ensures FlattenSections(ss) == FlattenSections(tt)
  {
    if ss != [] {
      FlattenSectionsSameQuestions(ss[1..], tt[1..]);
    }
  }

  lemma {:induction false} FlattenPagesSameSections(ps: seq<Page>, qs: seq<Page>)
    requires |ps| == |qs|
    requires forall j :: 0 <= j < |ps| ==> FlattenSections(ps[j].sections) == FlattenSections(qs[j].sections)
    ensures FlattenPages(ps) == FlattenPages(qs)
  {
    if ps != [] {
      FlattenPagesSameSections(ps[1..], qs[1..]);
    }
  }

  lemma {:induction false} FlattenSectionsAppendAt(ss: seq<Section>, i: nat, x: Slot)
    requires i < |ss|
    ensures var tt := ss[i := ss[i].(questions := ss[i].questions + [x])];
      multiset(FlattenSections(tt)) == multiset(FlattenSections(ss)) + multiset{x}
  {
    var tt := ss[i := ss[i].(questions := ss[i].questions + [x])];
    if i == 0 {
      assert tt[1..] == ss[1..];
    } else {
      FlattenSectionsAppendAt(ss[1..], i - 1, x);
      assert tt[1..] == ss[1..][i - 1 := ss[i].(questions := ss[i].questions + [x])];
    }
  }

  lemma {:induction false} FlattenPagesUpdateAt(ps: seq<Page>, j: nat, pg: Page, x: Slot)
    requires j < |ps|
    requires multiset(FlattenSections(pg.sections)) == multiset(FlattenSections(ps[j].sections)) + multiset{x}
    ensures multiset(FlattenPages(ps[j := pg])) == multiset(FlattenPages(ps)) + multiset{x}
  {
    var qs := ps[j := pg];
    if j == 0 {
      assert qs[1..] == ps[1..];
    } else {
      FlattenPagesUpdateAt(ps[1..], j - 1, pg, x);
      assert qs[1..] == ps[1..][j - 1 := pg];
    }
  }

  /** Duplicating adds exactly one question, the copy, to the form. */
  lemma DuplicateAddsOneCopy(s: Schema, q: Question, p: int, i: int)
    requires ValidSection(s, p, i)
    ensures Duplicated(s, q, p, i).Success?
    ensures multiset(Flatten(Duplicated(s, q, p, i).value)) == multiset(Flatten(s)) + multiset{Some(DuplicateOf(q))}
    ensures |Flatten(Duplicated(s, q, p, i).value)| == |Flatten(s)| + 1
  {
    var t := Duplicated(s, q, p, i).value;
    var ss := s.pages[p].sections;
    FlattenSectionsAppendAt(ss, i, Some(DuplicateOf(q)));
    FlattenPagesUpdateAt(s.pages, p, t.pages[p], Some(DuplicateOf(q)));
    assert t.pages == s.pages[p := t.pages[p]];
    assert |multiset(Flatten(t))| == |multiset(Flatten(s))| + 1;
  }

  /** Every id keeps its number of occurrences, except the copy's id, which
      gains one. */
  lemma DuplicateCounts(s: Schema, q: Question, p: int, i: int, id: string)
    requires ValidSection(s, p, i)
    ensures Duplicated(s, q, p, i).Success?
    ensures CountId(Flatten(Duplicated(s, q, p, i).value), id)
         == CountId(Flatten(s), id) + (if id == q.id + "Duplicate" then 1 else 0)
  {
    var t := Duplicated(s, q, p, i).value;
    var x := Some(DuplicateOf(q));
    DuplicateAddsOneCopy(s, q, p, i);
    assert multiset(Flatten(t)) == multiset(Flatten(s) + [x]);
    CountIdMultiset(Flatten(t), Flatten(s) + [x], id);
    CountIdAppend(Flatten(s), [x], id);
    assert CountId([x], id) == CountId([], id) + (if HasId(x, id) then 1 else 0);
  }

  /** Starting from unique ids, the copy keeps the ids unique exactly when
      no question already carries the `…Duplicate` id; so duplicating the
      same question twice always produces a clash. */
  lemma DuplicateUniqueIff(s: Schema, q: Question, p: int, i: int)
    requires UniqueIds(s) && ValidSection(s, p, i)
    ensures Duplicated(s, q, p, i).Success?
    ensures UniqueIds(Duplicated(s, q, p, i).value) <==> CountId(Flatten(s), q.id + "Duplicate") == 0
  {
    var t := Duplicated(s, q, p, i).value;
    var x := Some(DuplicateOf(q));
    DuplicateAddsOneCopy(s, q, p, i);
    assert None !in multiset(Flatten(t)) by {
      assert multiset(Flatten(t))[None] == multiset(Flatten(s))[None] + multiset{x}[None];
    }
    if CountId(Flatten(s), q.id + "Duplicate") == 0 {
      forall id ensures CountId(Flatten(t), id) <= 1 {
        DuplicateCounts(s, q, p, i, id);
      }
    } else {
      DuplicateCounts(s, q, p, i, q.id + "Duplicate");
    }
  }

  /** The copy carries the original's sub-question list unchanged. When the
      original sits in the target section, that section then holds two
      distinct grouping questions with the same sub-questions, so every
      sub-question id is repeated; the top-level counts above do not see
      this. */
  lemma DuplicateRepeatsSubQuestions(s: Schema, q: Question, p: int, i: int)
    requires ValidSection(s, p, i) && Some(q) in s.pages[p].sections[i].questions
    ensures Duplicated(s, q, p, i).Success?
    ensures var qs := Duplicated(s, q, p, i).value.pages[p].sections[i].questions;
      && Some(q) in qs && Some(DuplicateOf(q)) in qs
      && DuplicateOf(q) != q && DuplicateOf(q).questions == q.questions
  {
    assert |q.id + "Duplicate"| != |q.id|;
  }

  lemma DuplicateTwiceClashes(s: Schema, q: Question, p: int, i: int)
    requires UniqueIds(s) && ValidSection(s, p, i)
    ensures Duplicated(s, q, p, i).Success?
    ensures Duplicated(Duplicated(s, q, p, i).value, q, p, i).Success?
    ensures !UniqueIds(Duplicated(Duplicated(s, q, p, i).value, q, p, i).value)
  {
    var t := Duplicated(s, q, p, i).value;
    DuplicateCounts(s, q, p, i, q.id + "Duplicate");
    DuplicateCounts(t, q, p, i, q.id + "Duplicate");
  }
}
