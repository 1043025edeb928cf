/** What relocation promises: the moved question keeps company with every
    other question when ids are unique, it lands right after the target,
    untouched sections stay as they were, and the two lossy edge cases. */
module RelocationProperties {
  import opened Wrappers
  import opened FormSchema
  import opened Relocation

  lemma {:induction false} CountIdRemoveOther(xs: seq<Slot>, a: string, o: string)
    requires a != o
    ensures CountId(RemoveId(xs, a), o) == CountId(xs, o)
  {
    if xs != [] {
      CountIdRemoveOther(xs[1..], a, o);
      if !HasId(xs[0], a) {
        assert RemoveId(xs, a) == [xs[0]] + RemoveId(xs[1..], a);
        assert ([xs[0]] + RemoveId(xs[1..], a))[1..] == RemoveId(xs[1..], a);
      }
    }
  }

  /** With exactly one match, the filter removes exactly the captured
      element. */
  lemma {:induction false} RemoveOne(xs: seq<Slot>, a: string)
    requires CountId(xs, a) == 1
    ensures LastWithId(xs, a).Some?
    ensures multiset(RemoveId(xs, a)) + multiset{LastWithId(xs, a)} == multiset(xs)
  {
    assert xs == [xs[0]] + xs[1..];
    if HasId(xs[0], a) {
      assert CountId(xs[1..], a) == 0;
    } else {
      RemoveOne(xs[1..], a);
    }
  }

  /** Relocating one existing question onto another, in a schema whose ids
      are unique: the same questions (with their nested sub-question lists)
      end up in the tree, the page/section outline and every label are
      kept, and ids stay unique. */
  lemma RelocatePreservesQuestions(s: Schema, a: string, o: string)
    requires UniqueIds(s) && a != o
    requires Some(a) in QuestionIds(s) && Some(o) in QuestionIds(s)
    ensures Relocate(s, a, o).Success?
    ensures var r := Relocate(s, a, o).value;
      && SameOutline(s, r)
      && |Flatten(r)| == |Flatten(s)|
      && multiset(Flatten(r)) == multiset(Flatten(s))
      && UniqueIds(r)
  {
    var F := Flatten(s);
    RelocateKeepsMultiset(s, a, o);
    var r := Relocate(s, a, o).value;
    assert None !in Flatten(r) by {
      assert multiset(Flatten(r))[None] == multiset(F)[None] == 0;
    }
    forall id ensures CountId(Flatten(r), id) <= 1 {
      CountIdMultiset(Flatten(r), F, id);
    }
    assert |Flatten(r)| == |multiset(Flatten(r))|;
  }

  /** A multiset that agrees with `m` everywhere except for one more `x`. */
  lemma AddOne(n: multiset<Slot>, m: multiset<Slot>, x: Slot)
    requires n[x] == m[x] + 1
    requires forall y :: y != x ==> n[y] == m[y]
    ensures n == m + multiset{x}
  {
    forall y ensures n[y] == (m + multiset{x})[y] {
    }
  }

  /** The multiset half: the filter takes out exactly the captured question
      and the insertion puts it back exactly once. */
  lemma RelocateKeepsMultiset(s: Schema, a: string, o: string)
    requires UniqueIds(s) && a != o
    requires Some(a) in QuestionIds(s) && Some(o) in QuestionIds(s)
    ensures Relocate(s, a, o).Success?
    ensures multiset(Flatten(Relocate(s, a, o).value)) == multiset(Flatten(s))
  {
    var F := Flatten(s);
    var E := Extract(s, a);
    var x := Captured(s, a);
    assert CountId(F, a) == 1 && CountId(F, o) == 1 by {
      ListedIdIsTopLevel(s, a);
      ListedIdIsTopLevel(s, o);
    }
    assert multiset(Flatten(E)) + multiset{x} == multiset(F) by {
      RemoveOne(F, a);
    }
    assert Hits(E, o) == 1 by {
      CountIdRemoveOther(F, a, o);
      HitsBound(E.pages, o);
    }
    var r := InsertAfterTarget(E, o, x);
    AddOne(multiset(Flatten(r)), multiset(Flatten(E)), x);
    assert Relocate(s, a, o) == Success(r);
  }

  /** Inside each section the dragged id is filtered out, then the captured
      question lands immediately after the first remaining target. */
  lemma RelocateSectionAt(s: Schema, a: string, o: string, p: nat, i: nat)
    requires NoHoles(s)
    requires p < |s.pages| && i < |s.pages[p].sections|
    ensures Relocate(s, a, o).Success?
    ensures var r := Relocate(s, a, o).value;
      var kept := RemoveId(s.pages[p].sections[i].questions, a);
      var k := FindIndex(kept, o);
      && r.pages[p].sections[i].questions == InsertAfterId(kept, o, Captured(s, a))
      && (k >= 0 ==>
            HasId(r.pages[p].sections[i].questions[k], o) && r.pages[p].sections[i].questions[k + 1] == Captured(s, a))
  {
    var x := Captured(s, a);
    var e := Extract(s, a);
    var kept := RemoveId(s.pages[p].sections[i].questions, a);
    ExtractAt(s, a, p, i);
    var r := InsertAfterTarget(e, o, x);
    InsertAt(e, o, x, p, i);
    assert Relocate(s, a, o) == Success(r);
  }

  /** A section holding neither id comes out exactly as it went in. */
  lemma RelocateLeavesOtherSections(s: Schema, a: string, o: string, p: nat, i: nat)
    requires NoHoles(s)
    requires p < |s.pages| && i < |s.pages[p].sections|
    requires CountId(s.pages[p].sections[i].questions, a) == 0
    requires CountId(s.pages[p].sections[i].questions, o) == 0
    ensures Relocate(s, a, o).Success?
    ensures Relocate(s, a, o).value.pages[p].sections[i] == s.pages[p].sections[i]
  {
    RelocateSectionAt(s, a, o, p, i);
  }

  /** Lossy case 1: when no top-level question carries the target id (for
      instance the drop lands on a droppable container, whose id is not a
      question id), every question with the dragged id is removed and none
      is put back. */
  lemma RelocateMissingTarget(s: Schema, a: string, o: string)
    requires NoHoles(s)
    requires Some(o) !in QuestionIds(s)
    ensures Relocate(s, a, o).Success?
    ensures var r := Relocate(s, a, o).value;
      && Flatten(r) == RemoveId(Flatten(s), a)
      && |Flatten(r)| == |Flatten(s)| - CountId(Flatten(s), a)
      && CountId(Flatten(r), a) == 0
  {
    var F := Flatten(s);
    ListedIdIsTopLevel(s, o);
    var E := Extract(s, a);
    if a != o {
      CountIdRemoveOther(F, a, o);
    }
    assert CountId(Flatten(E), o) == 0;
    AbsentEverywhere(E, o);
    MapQuestionsIdentity(E, InsertAfter(o, Captured(s, a)));
  }

  /** Lossy case 2: when no top-level question carries the dragged id (a
      sub-question is being dragged), nothing is removed, the captured value
      is `undefined`, and one `undefined` element is inserted per section
      holding the target: the schema now has a hole. */
  lemma RelocateMissingActive(s: Schema, a: string, o: string)
    requires NoHoles(s)
    requires Some(a) !in QuestionIds(s) && Some(o) in QuestionIds(s)
    ensures Relocate(s, a, o).Success?
    ensures Captured(s, a) == None && Extract(s, a) == s
    ensures var r := Relocate(s, a, o).value;
      && Hits(s, o) >= 1
      && multiset(Flatten(r))[None] == Hits(s, o)
      && (forall y :: y != None ==> multiset(Flatten(r))[y] == multiset(Flatten(s))[y])
      && !NoHoles(r)
  {
    ListedIdIsTopLevel(s, a);
    ListedIdIsTopLevel(s, o);
    AbsentEverywhere(s, a);
    MapQuestionsIdentity(s, Filter(a));
    HitsBound(s.pages, o);
    var r := Relocate(s, a, o).value;
    assert multiset(Flatten(r))[None] >= 1;
  }

  /** After a hole has been left behind, every later relocation throws. */
  lemma HoleMakesRelocationThrow(s: Schema, a: string, o: string, a2: string, o2: string)
    requires NoHoles(s)
    requires Some(a) !in QuestionIds(s) && Some(o) in QuestionIds(s)
    ensures Relocate(Relocate(s, a, o).value, a2, o2) == Failure(TypeError)
  {
    RelocateMissingActive(s, a, o);
  }

  // Worked examples with one page.

  function Q(id: string): Question {
    Question(id, id, "obs", QuestionOptions("text", None), None)
  }

  function OnePage(sections: seq<Section>): Schema {
    Schema("Form", [Page("Page", sections)], "EncounterFormProcessor", "", [], "")
  }

  lemma FlattenOnePage(ss: seq<Section>)
    ensures Flatten(OnePage(ss)) == FlattenSections(ss)
  {
    var ps := OnePage(ss).pages;
    assert ps[1..] == [] && FlattenPages([]) == [];
    assert FlattenPages(ps) == FlattenSections(ss) + FlattenPages(ps[1..]);
  }

  lemma FlattenSectionPair(s1: Section, s2: Section)
    ensures FlattenSections([s1]) == s1.questions
    ensures FlattenSections([s1, s2]) == s1.questions + s2.questions
  {
    assert [s1][1..] == [] && [s1, s2][1..] == [s2] && FlattenSections([]) == [];
    assert FlattenSections([s2]) == s2.questions + FlattenSections([]) == s2.questions;
    assert FlattenSections([s1, s2]) == s1.questions + FlattenSections([s2]);
  }

  /** `[A, B, C]` with A dropped on C becomes `[B, C, A]`. */
  lemma SameSectionExample()
    ensures Relocate(OnePage([Section("S", [Some(Q("A")), Some(Q("B")), Some(Q("C"))])]), "A", "C")
         == Success(OnePage([Section("S", [Some(Q("B")), Some(Q("C")), Some(Q("A"))])]))
  {
    var a, b, c := Some(Q("A")), Some(Q("B")), Some(Q("C"));
    var sec := Section("S", [a, b, c]);
    var s := OnePage([sec]);
    FlattenOnePage([sec]);
    FlattenSectionPair(sec, sec);
    assert Flatten(s) == [a, b, c];
    assert LastWithId([c], "A") == None;
    assert LastWithId([b, c], "A") == None;
    assert Captured(s, "A") == a;
    assert RemoveId([c], "A") == [c];
    assert RemoveId([a, b, c], "A") == [b, c];
    var e := OnePage([Section("S", [b, c])]);
    assert MapSections([sec], Filter("A")) == e.pages[0].sections;
    assert MapPages(s.pages, Filter("A")) == e.pages;
    assert Extract(s, "A") == e;
    assert FindIndex([c], "C") == 0;
    assert FindIndex([b, c], "C") == 1;
    assert InsertAfterId([b, c], "C", a) == [b, c, a];
    var r := OnePage([Section("S", [b, c, a])]);
    assert MapSections(e.pages[0].sections, InsertAfter("C", a)) == r.pages[0].sections;
    assert MapPages(e.pages, InsertAfter("C", a)) == r.pages;
    assert InsertAfterTarget(e, "C", a) == r;
  }

  function CrossSchema(): Schema {
    OnePage([Section("S1", [Some(Q("A")), Some(Q("B"))]), Section("S2", [Some(Q("C")), Some(Q("D"))])])
  }

  lemma CrossSectionFirstPass()
    ensures NoHoles(CrossSchema()) && Captured(CrossSchema(), "A") == Some(Q("A"))
    ensures Extract(CrossSchema(), "A") == OnePage([Section("S1", [Some(Q("B"))]), Section("S2", [Some(Q("C")), Some(Q("D"))])])
  {
    var a, b, c, d := Some(Q("A")), Some(Q("B")), Some(Q("C")), Some(Q("D"));
    var s1, s2 := Section("S1", [a, b]), Section("S2", [c, d]);
    var s := CrossSchema();
    FlattenOnePage([s1, s2]);
    FlattenSectionPair(s1, s2);
    assert Flatten(s) == [a, b, c, d];
    assert LastWithId([d], "A") == None;
    assert LastWithId([c, d], "A") == None;
    assert LastWithId([b, c, d], "A") == None;
    assert RemoveId([b], "A") == [b];
    assert RemoveId([a, b], "A") == [b];
    assert RemoveId([d], "A") == [d];
    assert RemoveId([c, d], "A") == [c, d];
    var e := OnePage([Section("S1", [b]), Section("S2", [c, d])]);
    assert MapSections([s1, s2], Filter("A")) == e.pages[0].sections;
    assert MapPages(s.pages, Filter("A")) == e.pages;
  }

  lemma CrossSectionSecondPass()
    ensures InsertAfterTarget(OnePage([Section("S1", [Some(Q("B"))]), Section("S2", [Some(Q("C")), Some(Q("D"))])]), "D", Some(Q("A")))
         == OnePage([Section("S1", [Some(Q("B"))]), Section("S2", [Some(Q("C")), Some(Q("D")), Some(Q("A"))])])
  {
    var a, b, c, d := Some(Q("A")), Some(Q("B")), Some(Q("C")), Some(Q("D"));
    var pass := InsertAfter("D", a);
    assert FindIndex([b], "D") == -1;
    assert ApplyPass(pass, [b]) == [b];
    assert FindIndex([d], "D") == 0;
    assert FindIndex([c, d], "D") == 1;
    assert ApplyPass(pass, [c, d]) == [c, d, a];
    MapSectionsAll([Section("S1", [b]), Section("S2", [c, d])], pass);
    var m := MapSections([Section("S1", [b]), Section("S2", [c, d])], pass);
    assert m == [Section("S1", [b]), Section("S2", [c, d, a])];
  }

  /** `[A, B]`, `[C, D]` with A dropped on D becomes `[B]`, `[C, D, A]`. */
  lemma CrossSectionExample()
    ensures Relocate(CrossSchema(), "A", "D")
         == Success(OnePage([Section("S1", [Some(Q("B"))]), Section("S2", [Some(Q("C")), Some(Q("D")), Some(Q("A"))])]))
  {
    CrossSectionFirstPass();
    CrossSectionSecondPass();
  }
}
