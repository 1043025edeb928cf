/** Drag relocation (`handleDragEnd`): a two-pass rebuild of the whole tree.
    The first pass filters the dragged id out of every section's top-level
    question list, remembering the element it saw; the second pass inserts
    that element right after the target id in every section's list. */
module Relocation {
  import opened Wrappers
  import opened FormSchema

  /** `arr.findIndex(item => item.id === id)`: the first index holding the
      id, or -1. (Only ever applied to lists without holes.) */
  function FindIndex(qs: seq<Slot>, id: string): (k: int)
    ensures -1 <= k < |qs|
    ensures k == -1 <==> CountId(qs, id) == 0
    ensures 0 <= k ==> HasId(qs[k], id) && forall j :: 0 <= j < k ==> !HasId(qs[j], id)
  {
    if qs == [] then -1
    else if HasId(qs[0], id) then 0
    else
      var k := FindIndex(qs[1..], id);
      if k == -1 then -1 else k + 1
  }

  /** `questions.filter(item => item.id !== id)` (only ever applied to lists
      without holes: on a hole the filter throws, see `Relocate`). */
  function RemoveId(qs: seq<Slot>, id: string): (r: seq<Slot>)
    ensures |r| == |qs| - CountId(qs, id)
    ensures forall i :: 0 <= i < |r| ==> !HasId(r[i], id)
    ensures CountId(qs, id) == 0 ==> r == qs
  {
    if qs == [] then []
    else
      assert qs == [qs[0]] + qs[1..];
      if HasId(qs[0], id) then RemoveId(qs[1..], id)
      else [qs[0]] + RemoveId(qs[1..], id)
  }

  /** The filter removes nothing but the dragged id: every other element
      (a question with another id, or a hole) keeps its multiplicity. */
  lemma {:induction false} RemoveIdKeepsOthers(qs: seq<Slot>, id: string, e: Slot)
    requires !HasId(e, id)
    ensures multiset(RemoveId(qs, id))[e] == multiset(qs)[e]
  {
    if qs != [] {
      assert qs == [qs[0]] + qs[1..];
      RemoveIdKeepsOthers(qs[1..], id, e);
    }
  }

  /** The value the filter's side effect leaves in `let activeQuestion`: the
      LAST element visited whose id matches, or `undefined` when none does. */
  function LastWithId(qs: seq<Slot>, id: string): (r: Slot)
    ensures r.None? <==> CountId(qs, id) == 0
    ensures r.Some? ==> r.value.id == id
    ensures r.Some? ==> exists k :: 0 <= k < |qs| && qs[k] == r && forall j :: k < j < |qs| ==> !HasId(qs[j], id)
  {
    if qs == [] then None
    else
      var later := LastWithId(qs[1..], id);
      if later.Some? then
        ghost var k :| 0 <= k < |qs[1..]| && qs[1..][k] == later && forall j :: k < j < |qs[1..]| ==> !HasId(qs[1..][j], id);
        assert qs[k + 1] == later && forall j :: k + 1 < j < |qs| ==> !HasId(qs[j], id) by {
          forall j | k + 1 < j < |qs| ensures !HasId(qs[j], id) {
            assert qs[j] == qs[1..][j - 1];
          }
        }
        later
      else if HasId(qs[0], id) then qs[0]
      else None
  }

  /** The inner `insertBeforeId` of `handleDragEnd`: despite its name it
      inserts AFTER the first element with the id (at `index + 1`), and
      returns the array unchanged when no element has it. */
  function InsertAfterId(qs: seq<Slot>, id: string, x: Slot): (r: seq<Slot>)
    ensures FindIndex(qs, id) == -1 ==> r == qs
    ensures var k := FindIndex(qs, id);
      0 <= k ==> |r| == |qs| + 1 && HasId(r[k], id) && r[k + 1] == x
  {
    var k := FindIndex(qs, id);
    if k == -1 then qs
    else qs[..k + 1] + [x] + qs[k + 1..]
  }

  /** Taking a spliced-in element back out gives the original list. */
  lemma SpliceRest<T>(xs: seq<T>, n: nat, x: T)
    requires n <= |xs|
    ensures var r := xs[..n] + [x] + xs[n..]; r[..n] + r[n + 1..] == xs
  {
    var r := xs[..n] + [x] + xs[n..];
    assert r[..n] == xs[..n];
    assert r[n + 1..] == xs[n..];
    assert xs[..n] + xs[n..] == xs;
  }

  /** Apart from the inserted element, the list is unchanged and in order. */
  lemma InsertAfterIdKeepsRest(qs: seq<Slot>, id: string, x: Slot)
    requires FindIndex(qs, id) >= 0
    ensures var k, r := FindIndex(qs, id), InsertAfterId(qs, id, x);
      r[..k + 1] + r[k + 2..] == qs
  {
    SpliceRest(qs, FindIndex(qs, id) + 1, x);
  }

  /** The component-level `insertBeforeId`: inserts BEFORE the first element
      with the id, or returns the array unchanged when no element has it.
      Nothing calls it: inside `handleDragEnd` the inner helper of the same
      name shadows it. Reading `element.id` of a hole would throw, so the
      array must have none. */
  function InsertBeforeId(arr: seq<Slot>, id: string, x: Slot): (r: seq<Slot>)
    requires None !in arr
    ensures FindIndex(arr, id) == -1 ==> r == arr
    ensures var k := FindIndex(arr, id);
      0 <= k ==> |r| == |arr| + 1 && r[k] == x && HasId(r[k + 1], id) && r[..k] + r[k + 1..] == arr
  {
    var k := FindIndex(arr, id);
    if k == -1 then arr
    else
      assert arr == arr[..k] + arr[k..];
      var r := arr[..k] + [x] + arr[k..];
      assert r[..k] == arr[..k] && r[k + 1..] == arr[k..];
      r
  }

  /** What one pass does to one section's question list. */
  datatype SectionPass = Filter(activeId: string) | InsertAfter(overId: string, moved: Slot)

  function ApplyPass(pass: SectionPass, qs: seq<Slot>): seq<Slot> {
    match pass
    case Filter(a) => RemoveId(qs, a)
    case InsertAfter(o, x) => InsertAfterId(qs, o, x)
  }

  /** `sections.map(section => ({...section, questions: pass(section.questions)}))` */
  function MapSections(ss: seq<Section>, pass: SectionPass): (r: seq<Section>)
    ensures |r| == |ss|
  {
    if ss == [] then []
    else [ss[0].(questions := ApplyPass(pass, ss[0].questions))] + MapSections(ss[1..], pass)
  }

  /** Section `i` of the result is section `i` with its list passed through. */
  lemma {:induction false} MapSectionsAll(ss: seq<Section>, pass: SectionPass)
    ensures forall i :: 0 <= i < |ss| ==> MapSections(ss, pass)[i] == ss[i].(questions := ApplyPass(pass, ss[i].questions))
  {
    if ss != [] {
      MapSectionsAll(ss[1..], pass);
      var r := MapSections(ss, pass);
      assert r[1..] == MapSections(ss[1..], pass);
      forall i | 1 <= i < |ss| ensures r[i] == ss[i].(questions := ApplyPass(pass, ss[i].questions)) {
        assert r[i] == r[1..][i - 1];
      }
    }
  }

  /** `pages.map(page => ({...page, sections: ...}))` */
  function MapPages(ps: seq<Page>, pass: SectionPass): (r: seq<Page>)
    ensures |r| == |ps|
  {
    if ps == [] then []
    else [ps[0].(sections := MapSections(ps[0].sections, pass))] + MapPages(ps[1..], pass)
  }

  /** Page `p` of the result is page `p` with its sections passed through. */
  lemma {:induction false} MapPagesAll(ps: seq<Page>, pass: SectionPass)
    ensures forall p :: 0 <= p < |ps| ==> MapPages(ps, pass)[p] == ps[p].(sections := MapSections(ps[p].sections, pass))
  {
    if ps != [] {
      MapPagesAll(ps[1..], pass);
      var r := MapPages(ps, pass);
      assert r[1..] == MapPages(ps[1..], pass);
      forall p | 1 <= p < |ps| ensures r[p] == ps[p].(sections := MapSections(ps[p].sections, pass)) {
        assert r[p] == r[1..][p - 1];
      }
    }
  }

  /** `{...schema, pages: ...}`: only the question lists are rebuilt. */
  function MapQuestions(s: Schema, pass: SectionPass): (r: Schema)
    ensures r == s.(pages := r.pages)
    ensures SameOutline(s, r)
  {
    MapQuestionsOutline(s, pass);
    s.(pages := MapPages(s.pages, pass))
  }

  lemma MapQuestionsOutline(s: Schema, pass: SectionPass)
    ensures SameOutline(s, s.(pages := MapPages(s.pages, pass)))
  {
    MapPagesAll(s.pages, pass);
    forall p | 0 <= p < |s.pages| {
      MapSectionsAll(s.pages[p].sections, pass);
    }
  }

  /** Section `i` of page `p` after a pass. */
  lemma MapQuestionsAt(s: Schema, pass: SectionPass, p: nat, i: nat)
    requires p < |s.pages| && i < |s.pages[p].sections|
    ensures MapQuestions(s, pass).pages[p].sections[i]
         == s.pages[p].sections[i].(questions := ApplyPass(pass, s.pages[p].sections[i].questions))
  {
    MapPagesAll(s.pages, pass);
    MapSectionsAll(s.pages[p].sections, pass);
  }

  lemma SameOutlineTrans(s: Schema, t: Schema, r: Schema)
    requires SameOutline(s, t) && SameOutline(t, r)
    ensures SameOutline(s, r)
  {
  }

  /** A pass that leaves every section's list as it is leaves the schema as
      it is. */
  lemma MapQuestionsIdentity(s: Schema, pass: SectionPass)
    requires forall p, i :: 0 <= p < |s.pages| && 0 <= i < |s.pages[p].sections| ==>
      ApplyPass(pass, s.pages[p].sections[i].questions) == s.pages[p].sections[i].questions
    ensures MapQuestions(s, pass) == s
  {
    var r := MapQuestions(s, pass);
    MapPagesAll(s.pages, pass);
    forall p | 0 <= p < |s.pages| ensures r.pages[p] == s.pages[p] {
      MapSectionsAll(s.pages[p].sections, pass);
      assert r.pages[p].sections == s.pages[p].sections;
    }
    assert r.pages == s.pages;
  }

  /** An id no flattened slot carries is carried by no section. */
  lemma AbsentEverywhere(s: Schema, id: string)
    requires CountId(Flatten(s), id) == 0
    ensures forall p, i :: 0 <= p < |s.pages| && 0 <= i < |s.pages[p].sections| ==>
      CountId(s.pages[p].sections[i].questions, id) == 0
  {
    forall p, i, k | 0 <= p < |s.pages| && 0 <= i < |s.pages[p].sections| && 0 <= k < |s.pages[p].sections[i].questions|
      ensures !HasId(s.pages[p].sections[i].questions[k], id)
    {
      SlotInFlattenPages(s.pages, p, i, k);
    }
  }

  lemma {:induction false} RemoveIdAppend(xs: seq<Slot>, ys: seq<Slot>, id: string)
    ensures RemoveId(xs + ys, id) == RemoveId(xs, id) + RemoveId(ys, id)
  {
    if xs == [] {
      assert xs + ys == ys;
    } else {
      var z := xs + ys;
      assert z[0] == xs[0] && z[1..] == xs[1..] + ys;
      RemoveIdAppend(xs[1..], ys, id);
      if HasId(xs[0], id) {
        assert RemoveId(z, id) == RemoveId(z[1..], id);
        assert RemoveId(xs, id) == RemoveId(xs[1..], id);
      } else {
        assert RemoveId(z, id) == [z[0]] + RemoveId(z[1..], id);
        assert RemoveId(xs, id) == [xs[0]] + RemoveId(xs[1..], id);
      }
    }
  }

  lemma {:induction false} FlattenFilterSections(ss: seq<Section>, a: string)
    ensures FlattenSections(MapSections(ss, Filter(a))) == RemoveId(FlattenSections(ss), a)
  {
    if ss != [] {
      var m := MapSections(ss, Filter(a));
      assert m[1..] == MapSections(ss[1..], Filter(a));
      FlattenFilterSections(ss[1..], a);
      RemoveIdAppend(ss[0].questions, FlattenSections(ss[1..]), a);
    }
  }

  lemma {:induction false} FlattenFilterPages(ps: seq<Page>, a: string)
    ensures FlattenPages(MapPages(ps, Filter(a))) == RemoveId(FlattenPages(ps), a)
  {
    if ps != [] {
      var m := MapPages(ps, Filter(a));
      assert m[1..] == MapPages(ps[1..], Filter(a));
      FlattenFilterSections(ps[0].sections, a);
      FlattenFilterPages(ps[1..], a);
      RemoveIdAppend(FlattenSections(ps[0].sections), FlattenPages(ps[1..]), a);
    }
  }

  /** Number of sections whose top-level list holds the id, i.e. how many
      times the insertion pass inserts. */
  function HitsSections(ss: seq<Section>, id: string): nat {
    if ss == [] then 0
    else (if FindIndex(ss[0].questions, id) >= 0 then 1 else 0) + HitsSections(ss[1..], id)
  }

  function HitsPages(ps: seq<Page>, id: string): nat {
    if ps == [] then 0 else HitsSections(ps[0].sections, id) + HitsPages(ps[1..], id)
  }

  function Hits(s: Schema, id: string): nat {
    HitsPages(s.pages, id)
  }

  lemma {:induction false} HitsSectionsBound(ss: seq<Section>, id: string)
    ensures HitsSections(ss, id) <= CountId(FlattenSections(ss), id)
    ensures CountId(FlattenSections(ss), id) > 0 ==> HitsSections(ss, id) > 0
  {
    if ss != [] {
      HitsSectionsBound(ss[1..], id);
      CountIdAppend(ss[0].questions, FlattenSections(ss[1..]), id);
    }
  }

  /** Each section holding the target is hit once, so there are at most as
      many insertions as targets, and at least one when a target exists. */
  lemma {:induction false} HitsBound(ps: seq<Page>, id: string)
    ensures HitsPages(ps, id) <= CountId(FlattenPages(ps), id)
    ensures CountId(FlattenPages(ps), id) > 0 ==> HitsPages(ps, id) > 0
  {
    if ps != [] {
      HitsSectionsBound(ps[0].sections, id);
      HitsBound(ps[1..], id);
      CountIdAppend(FlattenSections(ps[0].sections), FlattenPages(ps[1..]), id);
    }
  }

  lemma MapSectionsStep(ss: seq<Section>, pass: SectionPass)
    requires ss != []
    ensures FlattenSections(MapSections(ss, pass))
         == ApplyPass(pass, ss[0].questions) + FlattenSections(MapSections(ss[1..], pass))
  {
    var m := MapSections(ss, pass);
    assert m[1..] == MapSections(ss[1..], pass);
  }

  /** One section of the second pass adds one occurrence of `x` when it
      holds the target and nothing otherwise. */
  lemma InsertAfterIdCount(qs: seq<Slot>, o: string, x: Slot, y: Slot)
    ensures multiset(InsertAfterId(qs, o, x))[y]
         == multiset(qs)[y] + (if y == x && FindIndex(qs, o) >= 0 then 1 else 0)
  {
    var k := FindIndex(qs, o);
    if k >= 0 {
      assert qs == qs[..k + 1] + qs[k + 1..];
    }
  }

  lemma {:induction false} InsertSections(ss: seq<Section>, o: string, x: Slot, y: Slot)
    ensures multiset(FlattenSections(MapSections(ss, InsertAfter(o, x))))[y]
         == multiset(FlattenSections(ss))[y] + (if y == x then HitsSections(ss, o) else 0)
    ensures |FlattenSections(MapSections(ss, InsertAfter(o, x)))| == |FlattenSections(ss)| + HitsSections(ss, o)
  {
    if ss != [] {
      var pass := InsertAfter(o, x);
      MapSectionsStep(ss, pass);
      assert FlattenSections(ss) == ss[0].questions + FlattenSections(ss[1..]);
      InsertAfterIdCount(ss[0].questions, o, x, y);
      InsertSections(ss[1..], o, x, y);
    }
  }

  lemma MapPagesStep(ps: seq<Page>, pass: SectionPass)
    requires ps != []
    ensures FlattenPages(MapPages(ps, pass))
         == FlattenSections(MapSections(ps[0].sections, pass)) + FlattenPages(MapPages(ps[1..], pass))
  {
    var m := MapPages(ps, pass);
    assert m[1..] == MapPages(ps[1..], pass);
  }

  lemma {:induction false} InsertPages(ps: seq<Page>, o: string, x: Slot, y: Slot)
    ensures multiset(FlattenPages(MapPages(ps, InsertAfter(o, x))))[y]
         == multiset(FlattenPages(ps))[y] + (if y == x then HitsPages(ps, o) else 0)
    ensures |FlattenPages(MapPages(ps, InsertAfter(o, x)))| == |FlattenPages(ps)| + HitsPages(ps, o)
  {
    if ps != [] {
      var pass := InsertAfter(o, x);
      MapPagesStep(ps, pass);
      assert FlattenPages(ps) == FlattenSections(ps[0].sections) + FlattenPages(ps[1..]);
      InsertSections(ps[0].sections, o, x, y);
      InsertPages(ps[1..], o, x, y);
    }
  }

  lemma InsertCounts(s: Schema, o: string, x: Slot)
    ensures forall y :: multiset(Flatten(MapQuestions(s, InsertAfter(o, x))))[y]
                     == multiset(Flatten(s))[y] + (if y == x then Hits(s, o) else 0)
    ensures |Flatten(MapQuestions(s, InsertAfter(o, x)))| == |Flatten(s)| + Hits(s, o)
  {
    forall y ensures multiset(Flatten(MapQuestions(s, InsertAfter(o, x))))[y]
                  == multiset(Flatten(s))[y] + (if y == x then Hits(s, o) else 0) {
      InsertPages(s.pages, o, x, y);
    }
    InsertPages(s.pages, o, x, x);
  }

  /** The element the first pass captures. */
  function Captured(s: Schema, a: string): (r: Slot)
    ensures r.None? <==> CountId(Flatten(s), a) == 0
    ensures r.Some? ==> r.value.id == a && r in Flatten(s)
  {
    LastWithId(Flatten(s), a)
  }

  /** First pass: the schema with every top-level question whose id is `a`
      filtered out. */
  function Extract(s: Schema, a: string): (r: Schema)
    ensures SameOutline(s, r) && r == s.(pages := r.pages)
    ensures Flatten(r) == RemoveId(Flatten(s), a)
  {
    FlattenFilterPages(s.pages, a);
    MapQuestions(s, Filter(a))
  }

  /** Second pass: `x` inserted after the first question with id `o` of
      every section holding one. */
  function InsertAfterTarget(s: Schema, o: string, x: Slot): (r: Schema)
    ensures SameOutline(s, r) && r == s.(pages := r.pages)
    ensures |Flatten(r)| == |Flatten(s)| + Hits(s, o)
    ensures multiset(Flatten(r))[x] == multiset(Flatten(s))[x] + Hits(s, o)
    ensures forall y :: y != x ==> multiset(Flatten(r))[y] == multiset(Flatten(s))[y]
  {
    InsertCounts(s, o, x);
    MapQuestions(s, InsertAfter(o, x))
  }

  /** Each section of the first pass is its list with the id filtered out. */
  lemma ExtractAt(s: Schema, a: string, p: nat, i: nat)
    requires p < |s.pages| && i < |s.pages[p].sections|
    ensures Extract(s, a).pages[p].sections[i].questions == RemoveId(s.pages[p].sections[i].questions, a)
  {
    MapQuestionsAt(s, Filter(a), p, i);
  }

  /** Each section of the second pass is its list with `x` inserted after
      its own first target. */
  lemma InsertAt(s: Schema, o: string, x: Slot, p: nat, i: nat)
    requires p < |s.pages| && i < |s.pages[p].sections|
    ensures InsertAfterTarget(s, o, x).pages[p].sections[i].questions
         == InsertAfterId(s.pages[p].sections[i].questions, o, x)
  {
    MapQuestionsAt(s, InsertAfter(o, x), p, i);
  }

  /** `handleDragEnd({schema, activeQnId, overQnId})`. The filter reads
      `item.id` of every element, so a schema already holding an `undefined`
      element makes it throw. */
  function Relocate(s: Schema, activeId: string, overId: string): (r: Result<Schema, Thrown>)
    ensures r.Failure? <==> !NoHoles(s)
    ensures r.Success? ==> SameOutline(s, r.value) && r.value == s.(pages := r.value.pages)
  {
    if None in Flatten(s) then Failure(TypeError)
    else
      var extracted := Extract(s, activeId);
      var r := InsertAfterTarget(extracted, overId, Captured(s, activeId));
      SameOutlineTrans(s, extracted, r);
      Success(r)
  }
}
