/** The interactive builder's event handlers. `Builder` holds the schema it
    renders, which the host replaces with every value passed to
    `onSchemaChange`, the log of those values, the snackbar outcomes, and
    the `activeQuestion`/`activeObsQuestion` drag state. */
module InteractiveBuilder {
  import opened Wrappers
  import opened FormSchema
  import opened Relocation
  import opened Mutations
  import opened DragSource

  /** A snackbar, by its translation key: the subtitle of a success, the
      title of an error. */
  datatype Notice = Succeeded(subtitleKey: string) | Errored(titleKey: string)

  /** What `onDragEnd` does with one drop. */
  datatype DragEffect = Ignored | Committed(schema: Schema) | Threw

  /** `onDragEnd` on the schema `s`: no target, or a drop onto itself, is
      ignored; otherwise the relocated schema is committed, unless the
      rebuild throws on a missing array element. */
  function DragEndEffect(s: Schema, activeId: string, overId: Option<string>): (r: DragEffect)
    ensures r.Ignored? <==> overId.None? || overId.value == activeId
    ensures r.Threw? <==> !r.Ignored? && !NoHoles(s)
    ensures r.Committed? ==> Relocate(s, activeId, overId.value) == Success(r.schema)
  {
    if overId.None? || overId.value == activeId then Ignored
    else
      match Relocate(s, activeId, overId.value)
      case Success(t) => Committed(t)
      case Failure(_) => Threw
  }

  /** A committed drop of one unique question onto another keeps every
      question and keeps ids unique. */
  lemma CommittedDropKeepsQuestions(s: Schema, activeId: string, overId: string)
    requires UniqueIds(s) && activeId != overId
    requires Some(activeId) in QuestionIds(s) && Some(overId) in QuestionIds(s)
    ensures DragEndEffect(s, activeId, Some(overId)).Committed?
    ensures var t := DragEndEffect(s, activeId, Some(overId)).schema;
      SameOutline(s, t) && multiset(Flatten(t)) == multiset(Flatten(s)) && UniqueIds(t)
  {
    RelocationProperties.RelocatePreservesQuestions(s, activeId, overId);
  }

  /** The schema `initializeSchema` falls back on. */
  const DummySchema := Schema("", [], "EncounterFormProcessor", "", [], "")

  datatype Initialized = Initialized(schema: Schema, emitted: Option<Schema>)

  /** `initializeSchema()`: an existing schema is returned as it is and
      nothing is emitted; without one, the dummy schema is both emitted and
      returned. */
  function InitializeSchema(current: Option<Schema>): (r: Initialized)
    ensures current.Some? ==> r == Initialized(current.value, None)
    ensures current.None? ==> r.emitted == Some(r.schema) && r.schema == DummySchema
  {
    if current.Some? then Initialized(current.value, None)
    else Initialized(DummySchema, Some(DummySchema))
  }

  /** The dummy schema holds no question, is well formed, and every drag on
      it leaves it as it is. */
  lemma DummySchemaIsEmpty(activeId: string, overId: string)
    ensures Flatten(DummySchema) == [] && QuestionIds(DummySchema) == []
    ensures UniqueIds(DummySchema)
    ensures Relocate(DummySchema, activeId, overId) == Success(DummySchema)
  {
    assert Extract(DummySchema, activeId).pages == [];
    assert InsertAfterTarget(Extract(DummySchema, activeId), overId, Captured(DummySchema, activeId)).pages == [];
  }

  const FormRenamed := "formRenamed"
  const PageRenamed := "pageRenamed"
  const SectionRenamed := "sectionRenamed"
  const QuestionDuplicated := "questionDuplicated"
  const ErrorRenamingPage := "errorRenamingPage"
  const ErrorRenamingSection := "errorRenamingSection"
  const ErrorDuplicatingQuestion := "errorDuplicatingQuestion"

  class Builder {
    var schema: Schema
    var changes: seq<Schema>
    var notices: seq<Notice>
    var activeQuestion: Option<DragPayload>
    var activeObsQuestion: Option<DragPayload>

    constructor (initial: Schema)
      ensures schema == initial && changes == [] && notices == []
      ensures activeQuestion.None? && activeObsQuestion.None?
    {
      schema := initial;
      changes := [];
      notices := [];
      activeQuestion := None;
      activeObsQuestion := None;
    }

    /** `renameSchema(value)`: always emits and reports success. */
    method RenameSchema(value: string)
      modifies this
      ensures schema == RenamedSchema(old(schema), value)
      ensures changes == old(changes) + [schema]
      ensures notices == old(notices) + [Succeeded(FormRenamed)]
      ensures activeQuestion == old(activeQuestion) && activeObsQuestion == old(activeObsQuestion)
    {
      if value != "" {
        schema := schema.(name := value);
      }
      changes := changes + [schema];
      notices := notices + [Succeeded(FormRenamed)];
    }

    /** `renamePage(name, pageIndex)`: a non-empty name on a missing page
      throws before anything is emitted, leaving only an error snackbar. */
    method RenamePage(name: string, pageIndex: int)
      modifies this
      ensures RenamedPage(old(schema), name, pageIndex).Success? ==>
        && schema == RenamedPage(old(schema), name, pageIndex).value
        && changes == old(changes) + [schema]
        && notices == old(notices) + [Succeeded(PageRenamed)]
      ensures RenamedPage(old(schema), name, pageIndex).Failure? ==>
        && schema == old(schema) && changes == old(changes)
        && notices == old(notices) + [Errored(ErrorRenamingPage)]
      ensures activeQuestion == old(activeQuestion) && activeObsQuestion == old(activeObsQuestion)
    {
      if name != "" {
        if !(0 <= pageIndex < |schema.pages|) {
          notices := notices + [Errored(ErrorRenamingPage)];
          return;
        }
        schema := schema.(pages := schema.pages[pageIndex := schema.pages[pageIndex].(labelText := name)]);
      }
      changes := changes + [schema];
      notices := notices + [Succeeded(PageRenamed)];
    }

    /** `renameSection(name, pageIndex, sectionIndex)`, with the same rule. */
    method RenameSection(name: string, pageIndex: int, sectionIndex: int)
      modifies this
      ensures RenamedSection(old(schema), name, pageIndex, sectionIndex).Success? ==>
        && schema == RenamedSection(old(schema), name, pageIndex, sectionIndex).value
        && changes == old(changes) + [schema]
        && notices == old(notices) + [Succeeded(SectionRenamed)]
      ensures RenamedSection(old(schema), name, pageIndex, sectionIndex).Failure? ==>
        && schema == old(schema) && changes == old(changes)
        && notices == old(notices) + [Errored(ErrorRenamingSection)]
      ensures activeQuestion == old(activeQuestion) && activeObsQuestion == old(activeObsQuestion)
    {
      if name != "" {
        if !(0 <= pageIndex < |schema.pages| && 0 <= sectionIndex < |schema.pages[pageIndex].sections|) {
          notices := notices + [Errored(ErrorRenamingSection)];
          return;
        }
        var page := schema.pages[pageIndex];
        var section := page.sections[sectionIndex].(labelText := name);
        schema := schema.(pages := schema.pages[pageIndex := page.(sections := page.sections[sectionIndex := section])]);
      }
      changes := changes + [schema];
      notices := notices + [Succeeded(SectionRenamed)];
    }

    /** `duplicateQuestion(question, pageId, sectionId)`: pushes the copy
      onto the live section, then emits and reports success; a missing page
      or section throws first. */
    method DuplicateQuestion(question: Question, pageId: int, sectionId: int)
      modifies this
      ensures Duplicated(old(schema), question, pageId, sectionId).Success? ==>
        && schema == Duplicated(old(schema), question, pageId, sectionId).value
        && changes == old(changes) + [schema]
        && notices == old(notices) + [Succeeded(QuestionDuplicated)]
      ensures Duplicated(old(schema), question, pageId, sectionId).Failure? ==>
        && schema == old(schema) && changes == old(changes)
        && notices == old(notices) + [Errored(ErrorDuplicatingQuestion)]
      ensures activeQuestion == old(activeQuestion) && activeObsQuestion == old(activeObsQuestion)
    {
      if !(0 <= pageId < |schema.pages| && 0 <= sectionId < |schema.pages[pageId].sections|) {
        notices := notices + [Errored(ErrorDuplicatingQuestion)];
        return;
      }
      var copy := question.(id := question.id + "Duplicate");
      var page := schema.pages[pageId];
      var section := page.sections[sectionId];
      section := section.(questions := section.questions + [Some(copy)]);
      schema := schema.(pages := schema.pages[pageId := page.(sections := page.sections[sectionId := section])]);
      changes := changes + [schema];
      notices := notices + [Succeeded(QuestionDuplicated)];
    }

    /** `onDragStart(event)`: a source tagged `question` sets the active
      question; anything else, a missing payload included, sets the active
      obs-question (to nothing when the payload is missing). */
    method OnDragStart(data: Option<DragData>)
      modifies this
      ensures data.Some? && data.value.dragType == QuestionTag ==>
        activeQuestion == Some(data.value.question) && activeObsQuestion == old(activeObsQuestion)
      ensures !(data.Some? && data.value.dragType == QuestionTag) ==>
        && activeObsQuestion == (if data.Some? then Some(data.value.question) else None)
        && activeQuestion == old(activeQuestion)
      ensures schema == old(schema) && changes == old(changes) && notices == old(notices)
    {
      if data.Some? && data.value.dragType == QuestionTag {
        activeQuestion := Some(data.value.question);
        return;
      } else {
        activeObsQuestion := if data.Some? then Some(data.value.question) else None;
        return;
      }
    }

    /** `onDragEnd(event)`: emits the relocated schema exactly once, or
      emits nothing. */
    method OnDragEnd(activeId: string, overId: Option<string>) returns (effect: DragEffect)
      modifies this
      ensures effect == DragEndEffect(old(schema), activeId, overId)
      ensures effect.Committed? ==> schema == effect.schema && changes == old(changes) + [effect.schema]
      ensures !effect.Committed? ==> schema == old(schema) && changes == old(changes)
      ensures notices == old(notices)
      ensures activeQuestion == old(activeQuestion) && activeObsQuestion == old(activeObsQuestion)
    {
      if overId.None? {
        return Ignored;
      }
      if activeId == overId.value {
        return Ignored;
      }
      effect := DragEndEffect(schema, activeId, overId);
      if effect.Committed? {
        changes := changes + [effect.schema];
        schema := effect.schema;
      }
    }
  }
}
