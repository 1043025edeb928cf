# Interactive form builder: schema tree and drag relocation

This project models the core of the OpenMRS form builder's interactive builder. The builder edits a form
schema, a tree of pages, sections and questions; a grouping ("obs group") question holds its own list
of sub-questions. The project proves properties of the model in Dafny.

What is modelled:

- **The schema tree** (`FormSchema`). A section's question list is a sequence of `Slot`s,
  `Option<Question>`. A `None` slot is the JavaScript `undefined` that a relocation can leave behind.
  `Flatten` lists every top-level slot in document order.
- **Relocation** (`Relocation`, `handleDragEnd`). Relocation rebuilds the whole tree in two passes:
  - the first pass filters the dragged id out of every section, remembering the last matching
    element it visited;
  - the second pass inserts that element right after the first question with the target id, in
    every section that holds one.

  `RelocationProperties` proves what this promises for schemas with unique ids, and what it does in
  the two lossy edge cases.
- **The in-place edits** (`Mutations`): rename the form, a page or a section, and duplicate a
  question. Each is a function from the old schema to the new one, or to the `TypeError` that an
  out-of-range index raises.
- **The builder component** (`InteractiveBuilder.Builder`), a class. Its fields are:
  - the schema the host currently holds;
  - the log of values passed to `onSchemaChange`;
  - the snackbar outcomes, kept as translation keys;
  - the `activeQuestion` / `activeObsQuestion` drag state.

  Its methods are the rename and duplicate handlers and `onDragStart` / `onDragEnd`.
- **The drag source of a rendered question** (`DragSource`): its sortable registration (keyed by the
  question's schema id, with a `type` tag and a payload), the props the builder renders top-level
  and nested questions with, and the `draggableId` string the component computes but never passes
  on. The draggable question component itself
  (`Draggable.DraggableQuestion`) is a class with its collapse flag and duplicate button.
- **Validation lookups** (`Validation`): `getValidationError` and `getAnswerErrors`.

Three behaviours of `handleDragEnd` are easy to misread, and the model keeps them as written:

- The second pass inserts into every section that holds the target, not only into the first one
  (interactive-builder.component.tsx:515-519).
- When no top-level question has the dragged id, the captured value stays `undefined` and the
  second pass still inserts it (interactive-builder.component.tsx:488, 518).
- The inner `insertBeforeId` inserts after the target, at `index + 1`
  (interactive-builder.component.tsx:485).

## Model

Paths are relative to the repository root.

| member | source | states |
|---|---|---|
| FormSchema.QuestionIds | src/components/interactive-builder/interactive-builder.component.tsx:427-435 | `quesionsIdsArray`: one entry per top-level slot, in document order. Each entry is that slot's id, or nothing for a hole. |
| FormSchema.ListedIdIsTopLevel | src/components/interactive-builder/interactive-builder.component.tsx:427-435 | An id is among the sortable items exactly when some top-level question carries it (both directions). |
| Validation.GetValidationError | src/components/interactive-builder/interactive-builder.component.tsx:370-376 | Returns `''` when no record matches the question's label, id and type. Otherwise returns the FIRST matching record's message, or `''` if that message is absent. |
| Validation.AnswerLabels | src/components/interactive-builder/interactive-builder.component.tsx:363 | An absent answer list gives no labels; otherwise the labels in answer order. |
| Validation.ErrorsWithLabels | src/components/interactive-builder/interactive-builder.component.tsx:364-366 | Every record kept comes from the response and has one of the labels; no labels means no records. Order and multiplicity are stated by the two lemmas below. |
| Validation.GetAnswerErrors | src/components/interactive-builder/interactive-builder.component.tsx:362-368 | An absent answer list gives no errors. Every error returned is a response record whose field label is an answer label. |
| Validation.ErrorsWithLabelsExact | src/components/interactive-builder/interactive-builder.component.tsx:364-366 | The filter keeps each record whose label is listed exactly as often as the response holds it, and drops every other record. |
| Validation.AnswerErrorsExact | src/components/interactive-builder/interactive-builder.component.tsx:362-368 | `getAnswerErrors` returns exactly the records labelled by an answer, with their multiplicity. |
| Validation.ErrorsWithLabelsAppend | src/components/interactive-builder/interactive-builder.component.tsx:364-366 | The filter keeps the response's order: filtering a concatenation is the concatenation of the filtered parts. |
| Validation.AnswerErrorsInOrder | src/components/interactive-builder/interactive-builder.component.tsx:362-368 | The answer errors come in the order the validator reported them. |
| Relocation.FindIndex | src/components/interactive-builder/interactive-builder.component.tsx:479 | `findIndex`: -1 exactly when no element has the id; otherwise the element there has the id and no earlier one does. |
| Relocation.RemoveId | src/components/interactive-builder/interactive-builder.component.tsx:498-503 | The filter drops exactly the matching elements: the length falls by their count and no match remains. A list without a match comes back unchanged. |
| Relocation.RemoveIdKeepsOthers | src/components/interactive-builder/interactive-builder.component.tsx:498-503 | Every element without the dragged id, holes included, keeps its multiplicity through the filter. |
| Relocation.LastWithId | src/components/interactive-builder/interactive-builder.component.tsx:488-503 | The element left in `activeQuestion`: nothing exactly when no element matches. Otherwise it has the id, occurs in the list, and no later element matches. |
| Relocation.InsertAfterId | src/components/interactive-builder/interactive-builder.component.tsx:478-486 | With no target the list is unchanged. Otherwise it is one longer, the target stays at its index, and the new element sits right after it. |
| Relocation.InsertAfterIdKeepsRest | src/components/interactive-builder/interactive-builder.component.tsx:478-486 | Taking the inserted element out gives back the original list, in order. |
| Relocation.InsertBeforeId | src/components/interactive-builder/interactive-builder.component.tsx:461-468 | The component-level helper, which nothing calls (the inner helper shadows it); it needs an array without holes. With no target the array is unchanged. Otherwise the new element sits at the target's old index, the target follows it, and the rest keeps its order. |
| Relocation.MapSections | src/components/interactive-builder/interactive-builder.component.tsx:495-505 | The section map keeps the number of sections. |
| Relocation.MapSectionsAll | src/components/interactive-builder/interactive-builder.component.tsx:495-505 | Section `i` of the result is section `i` with only its question list passed through the pass. |
| Relocation.MapPages | src/components/interactive-builder/interactive-builder.component.tsx:492-507 | The page map keeps the number of pages. |
| Relocation.MapPagesAll | src/components/interactive-builder/interactive-builder.component.tsx:492-507 | Page `p` of the result is page `p` with only its sections mapped. |
| Relocation.MapQuestions | src/components/interactive-builder/interactive-builder.component.tsx:490-508 | The spread rebuild changes only `pages`. It keeps the page/section outline and every label. |
| Relocation.MapQuestionsOutline | src/components/interactive-builder/interactive-builder.component.tsx:490-508 | The rebuild has the same pages and sections, with the same labels. |
| Relocation.MapQuestionsAt | src/components/interactive-builder/interactive-builder.component.tsx:490-508 | Section `i` of page `p` after a pass is that section with its list passed through. |
| Relocation.MapQuestionsIdentity | src/components/interactive-builder/interactive-builder.component.tsx:490-508 | A pass that leaves every list as it is leaves the whole schema as it is. |
| Relocation.AbsentEverywhere | src/components/interactive-builder/interactive-builder.component.tsx:427-435 | An id absent from the flattened list is absent from every section. |
| Relocation.FlattenFilterPages | src/components/interactive-builder/interactive-builder.component.tsx:490-508 | Filtering every section equals filtering the flattened list. |
| Relocation.HitsBound | src/components/interactive-builder/interactive-builder.component.tsx:510-523 | The second pass inserts at most as many times as there are targets, and at least once when a target exists. |
| Relocation.InsertPages | src/components/interactive-builder/interactive-builder.component.tsx:510-523 | The second pass adds one copy of the moved element per section holding the target, and changes no other element's count. The total length grows by the same number. |
| Relocation.InsertCounts | src/components/interactive-builder/interactive-builder.component.tsx:510-523 | The same fact at schema level, for every element. |
| Relocation.Captured | src/components/interactive-builder/interactive-builder.component.tsx:488-503 | The schema-wide value left in `activeQuestion`: `undefined` exactly when no top-level question has the dragged id; otherwise a top-level question of the schema with that id. |
| Relocation.Extract | src/components/interactive-builder/interactive-builder.component.tsx:488-508 | The first pass keeps the outline and the other fields. Its flattened list is the original one with the dragged id filtered out. |
| Relocation.InsertAfterTarget | src/components/interactive-builder/interactive-builder.component.tsx:510-523 | The second pass keeps the outline. The moved element gains one occurrence per section hit, and every other element keeps its count. |
| Relocation.ExtractAt | src/components/interactive-builder/interactive-builder.component.tsx:495-503 | Each section after the first pass is its own list filtered. |
| Relocation.InsertAt | src/components/interactive-builder/interactive-builder.component.tsx:515-519 | Each section after the second pass is its own list with the element inserted after its first target. |
| Relocation.Relocate | src/components/interactive-builder/interactive-builder.component.tsx:476-525 | `handleDragEnd` throws exactly when the schema holds a hole. Otherwise it keeps the outline and every field but `pages`. |
| RelocationProperties.CountIdRemoveOther | src/components/interactive-builder/interactive-builder.component.tsx:498-503 | Filtering out the dragged id leaves the count of any other id unchanged. |
| RelocationProperties.RemoveOne | src/components/interactive-builder/interactive-builder.component.tsx:488-503 | With exactly one match, the filter removes exactly the element it captures. |
| RelocationProperties.RelocatePreservesQuestions | src/components/interactive-builder/interactive-builder.component.tsx:476-525 | Dragging one existing question onto another in a schema with unique ids does not throw. It keeps the outline, the question count and the multiset of questions, and the ids stay unique. |
| RelocationProperties.RelocateKeepsMultiset | src/components/interactive-builder/interactive-builder.component.tsx:476-525 | Under the same conditions, the filtered-out question is put back exactly once. |
| RelocationProperties.RelocateSectionAt | src/components/interactive-builder/interactive-builder.component.tsx:495-519 | Each section ends up as its filtered list with the captured question inserted right after its first target. |
| RelocationProperties.RelocateLeavesOtherSections | src/components/interactive-builder/interactive-builder.component.tsx:495-519 | A section holding neither id comes out unchanged. |
| RelocationProperties.RelocateMissingTarget | src/components/interactive-builder/interactive-builder.component.tsx:481-483 | With a target id that no question carries, every question with the dragged id is removed and none is put back. |
| RelocationProperties.RelocateMissingActive | src/components/interactive-builder/interactive-builder.component.tsx:488-518 | When the dragged id is not a top-level question, nothing is captured and nothing removed. One `undefined` is inserted per section holding the target, so the schema gains a hole. |
| RelocationProperties.HoleMakesRelocationThrow | src/components/interactive-builder/interactive-builder.component.tsx:498-499 | After such a hole, every later relocation throws. |
| RelocationProperties.SameSectionExample | src/components/interactive-builder/interactive-builder.component.tsx:476-525 | Dropping A on C turns `[A, B, C]` into `[B, C, A]`. |
| RelocationProperties.CrossSectionFirstPass | src/components/interactive-builder/interactive-builder.component.tsx:488-508 | The first pass on `[A, B]`, `[C, D]` captures A and leaves `[B]`, `[C, D]`. |
| RelocationProperties.CrossSectionSecondPass | src/components/interactive-builder/interactive-builder.component.tsx:510-523 | The second pass puts A after D: `[B]`, `[C, D, A]`. |
| RelocationProperties.CrossSectionExample | src/components/interactive-builder/interactive-builder.component.tsx:476-525 | Dropping A on D moves A across sections, to the end of the second section. |
| DragSource.NatToString | src/components/interactive-builder/draggable/draggable-question.component.tsx:42 | An index renders as a non-empty string of decimal digits with no leading zero. |
| DragSource.NatToStringValue | src/components/interactive-builder/draggable/draggable-question.component.tsx:42 | The rendered digits read back as the index. |
| DragSource.DraggableId | src/components/interactive-builder/draggable/draggable-question.component.tsx:42 | The drag id starts with `question-` and has something after it. |
| DragSource.SplitDraggableId | src/components/interactive-builder/draggable/draggable-question.component.tsx:42 | Split at `-`, the drag id is `question`, then the page, section and question numbers, then the nested number only when the nested index is truthy. |
| DragSource.DraggableIdRoundTrip | src/components/interactive-builder/draggable/draggable-question.component.tsx:42 | Parsing a drag id gives back its page, section and question index, and its nested index when that is truthy. A nested index of 0 or none is lost. |
| DragSource.DraggableIdInjective | src/components/interactive-builder/draggable/draggable-question.component.tsx:42 | Two drag ids are equal only when their addresses are equal once a falsy nested index is dropped. |
| DragSource.NestedZeroCollides | src/components/interactive-builder/draggable/draggable-question.component.tsx:42 | A sub-question at nested index 0 gets the drag id of the top-level question at the same position. |
| DragSource.Effective | src/components/interactive-builder/draggable/draggable-question.component.tsx:42 | The nested index the drag id keeps: present exactly when it is truthy, and then unchanged. |
| DragSource.TypeName | src/components/interactive-builder/draggable/draggable-question.component.tsx:77 | The tag is the string `question` exactly for a top-level source. |
| DragSource.TypeTag | src/components/interactive-builder/draggable/draggable-question.component.tsx:77 | The source is tagged `obsQuestion` exactly when its nested index is truthy. |
| DragSource.TagMatchesDraggableId | src/components/interactive-builder/draggable/draggable-question.component.tsx:42-77 | The tag and the drag id agree: `obsQuestion` exactly when the id has five pieces, `question` exactly when it has four. |
| DragSource.SortableFor | src/components/interactive-builder/draggable/draggable-question.component.tsx:74-89 | The sortable is keyed by the question's schema id, not the drag id. It is tagged by nesting, and its payload carries the question, the schema, its page, section and question index, and the question count. |
| DragSource.DraggingRenderedQuestion | src/components/interactive-builder/draggable/draggable-question.component.tsx:74-75 | Dragging a rendered top-level question of a schema with unique ids makes relocation capture exactly that question. |
| DragSource.TopLevelProps | src/components/interactive-builder/interactive-builder.component.tsx:707-717 | A top-level question is rendered with its own page, section and index, the question in that slot and the length of its list, no nested index, and hence the `question` tag. |
| DragSource.NestedProps | src/components/interactive-builder/interactive-builder.component.tsx:397-408 | A sub-question is rendered with its index as both question index and nested index and with its parent's list length; its tag is `question` for the first sub-question and `obsQuestion` after it. |
| DragSource.NestedSiblingsShareAddress | src/components/interactive-builder/interactive-builder.component.tsx:397-408 | Sub-questions at the same index under two different parents of one section compute the same drag id and carry the same payload address and tag. From index 1 on, that id reads back as question `n`, nested `n`: the parent's index is in neither. |
| DragSource.FirstSubQuestionLooksTopLevel | src/components/interactive-builder/interactive-builder.component.tsx:397-408 | The first sub-question of any parent computes the drag id of its section's first top-level question and is tagged `question`. |
| Mutations.RenamedSchema | src/components/interactive-builder/interactive-builder.component.tsx:135-159 | An empty name leaves the form name alone; any other replaces it. Nothing else changes. |
| Mutations.RenamedPage | src/components/interactive-builder/interactive-builder.component.tsx:161-187 | Throws exactly when the name is non-empty and the page is missing. Otherwise only that page's label changes, and only for a non-empty name; sections and questions are untouched. |
| Mutations.RenamedSection | src/components/interactive-builder/interactive-builder.component.tsx:189-214 | Throws exactly when the name is non-empty and the section is missing. Otherwise only that section's label changes, and only for a non-empty name; questions are untouched. |
| Mutations.DuplicateOf | src/components/interactive-builder/interactive-builder.component.tsx:219-220 | The copy is the same question with `Duplicate` appended to its id. |
| Mutations.Duplicated | src/components/interactive-builder/interactive-builder.component.tsx:216-224 | Throws exactly when the page or section is missing. Otherwise the copy is appended to that section's top-level list and every other section is unchanged. |
| Mutations.DuplicateAddsOneCopy | src/components/interactive-builder/interactive-builder.component.tsx:216-224 | Duplicating adds exactly one question to the form, the copy. |
| Mutations.DuplicateCounts | src/components/interactive-builder/interactive-builder.component.tsx:216-224 | Every top-level id keeps its count, except the copy's id, which gains one. Sub-question ids are not counted; see `DuplicateRepeatsSubQuestions`. |
| Mutations.DuplicateUniqueIff | src/components/interactive-builder/interactive-builder.component.tsx:219-222 | Starting from unique top-level ids, the top-level ids stay unique exactly when no top-level question already carries the `…Duplicate` id. |
| Mutations.DuplicateTwiceClashes | src/components/interactive-builder/interactive-builder.component.tsx:219-222 | Duplicating the same question twice always repeats a top-level id. |
| Mutations.DuplicateRepeatsSubQuestions | src/components/interactive-builder/interactive-builder.component.tsx:219-222 | The deep copy keeps the original's sub-question list, so duplicating a grouping question inside its own section leaves two distinct questions there with the same sub-questions: every sub-question id is repeated. |
| InteractiveBuilder.DragEndEffect | src/components/interactive-builder/interactive-builder.component.tsx:527-546 | A drop with no target, or onto itself, is ignored. Otherwise the drop throws exactly when the schema holds a hole, and commits the relocated schema when it does not. |
| InteractiveBuilder.CommittedDropKeepsQuestions | src/components/interactive-builder/interactive-builder.component.tsx:527-546 | A drop of one listed question onto another, with unique ids, commits a schema with the same outline, the same questions and unique ids. |
| InteractiveBuilder.InitializeSchema | src/components/interactive-builder/interactive-builder.component.tsx:51-66 | An existing schema is returned unchanged and nothing is emitted. Without one, the dummy schema is emitted and returned. |
| InteractiveBuilder.DummySchemaIsEmpty | src/components/interactive-builder/interactive-builder.component.tsx:52-59 | The dummy schema has no questions and unique ids, and every relocation leaves it unchanged. |
| InteractiveBuilder.Builder.constructor | src/components/interactive-builder/interactive-builder.component.tsx:37-38 | The builder starts with the given schema, no emitted values, no snackbar and no active question. |
| InteractiveBuilder.Builder.RenameSchema | src/components/interactive-builder/interactive-builder.component.tsx:135-159 | Applies the form rename, emits the new schema once and shows the `formRenamed` snackbar. The drag state is untouched. |
| InteractiveBuilder.Builder.RenamePage | src/components/interactive-builder/interactive-builder.component.tsx:161-187 | On success: the renamed schema is emitted once and `pageRenamed` is shown. When the access throws: nothing changes or is emitted, and only the `errorRenamingPage` snackbar is shown. |
| InteractiveBuilder.Builder.RenameSection | src/components/interactive-builder/interactive-builder.component.tsx:189-214 | The same, with `sectionRenamed` / `errorRenamingSection`. |
| InteractiveBuilder.Builder.DuplicateQuestion | src/components/interactive-builder/interactive-builder.component.tsx:216-246 | On success: the copy is pushed onto the live section, the schema is emitted once and `questionDuplicated` is shown. A missing page or section leaves the schema alone and shows `errorDuplicatingQuestion`. |
| InteractiveBuilder.Builder.OnDragStart | src/components/interactive-builder/interactive-builder.component.tsx:449-459 | A source tagged `question` sets the active question. Any other source sets the active obs-question, to nothing when there is no payload. Nothing else changes. |
| InteractiveBuilder.Builder.OnDragEnd | src/components/interactive-builder/interactive-builder.component.tsx:527-546 | Returns the drop's effect. A committed drop replaces the schema and emits it exactly once; any other drop emits nothing. No snackbar is shown. |
| Draggable.DraggableQuestion.constructor | src/components/interactive-builder/draggable/draggable-question.component.tsx:43 | A rendered question starts expanded and not dragged. |
| Draggable.DraggableQuestion.ToggleCollapse | src/components/interactive-builder/draggable/draggable-question.component.tsx:44-48 | Flips the collapse flag exactly when the question has a sub-question list (even an empty one). |
| Draggable.DraggableQuestion.HandleDuplicate | src/components/interactive-builder/draggable/draggable-question.component.tsx:107-111 | While dragged, it does nothing. Otherwise the builder duplicates this question into its own page and section, with the builder's success or error outcome, and the builder's drag state is unchanged. |

## Left out

- Rendering: the JSX, styling, the accordion of pages and sections, the `ObsQuestions` list and the
  droppable containers (`droppable-container.component.tsx` only gives a drop target an id). The
  model keeps only what these pass to the handlers.
- The drag-and-drop library: sensors and collision detection.
- `onDragOver`: it reads the event and logs it, then returns; it sets no state and never changes
  the schema. Drag events arrive as parameters: the dragged
  id, the optional target id and the optional sortable data.
- Modals (new form/page/section/question, delete, edit) and the snackbar's visual text. A snackbar
  is recorded by its translation key.
- Logging (`console.log`) and the commented-out earlier versions of the drag handler.
- `UniqueIdentifier` ids are strings here; the library also allows numbers.
- `Builder` always holds a schema. A missing schema is modelled only in
  `InteractiveBuilder.InitializeSchema`. Without a schema, a rename with a blank name still
  emits `{}` and reports success, and one with a non-empty name throws and reports an error; that
  case is not modelled.
- The `draggableId` of draggable-question.component.tsx:42 is never read: `useSortable` is keyed
  by the question id (:75), and the `useDraggable` call that used the drag id is commented out
  (:102-105). The drag-id lemmas describe the string, not anything the drag layer sees.
- Mutations.DuplicateUniqueIff: `UniqueIds` counts top-level ids only. The copy keeps the
  original's sub-question ids, so duplicating a grouping question always repeats those ids even when
  the top-level ids stay unique (stated by `Mutations.DuplicateRepeatsSubQuestions`).
- Mutations.DuplicateCounts: counts top-level ids only; every sub-question id of the copy also
  gains one occurrence.
- Draggable.DraggableQuestion.ToggleCollapse and Draggable.DraggableQuestion.HandleDuplicate: a
  rendered question is always a question here. After a relocation leaves a hole, the builder renders
  that hole as a question component with `question` undefined. On that component `toggleCollapse`
  throws reading `question.questions`. `handleDuplicate` passes `undefined` to `duplicateQuestion`,
  whose JSON copy throws, so only `errorDuplicatingQuestion` is shown. Neither path is modelled.
- Callbacks inside the drag payload (`handleDuplicateQuestion`, `onSchemaChange`) are not part of
  `DragSource.DragPayload`.
- `JSON.parse(JSON.stringify(question))` is a value copy of the question datatype. Fields that JSON
  drops (functions, `undefined` values) do not exist in the model.
- Aliasing between the host's schema object and the one the builder mutates is not modelled. The
  host adopts each emitted value, and `Builder.schema` is that value.
- Questions keep only the fields the core reads: id, label, type, rendering, answers and
  sub-questions.
- Labels are named `labelText` because `label` is a reserved word in Dafny.
- `renameSchema`'s error branch cannot be reached once a schema is present, so
  `InteractiveBuilder.Builder.RenameSchema` has no failure case.
- The end-to-end test `e2e/specs/forms-dashboard.spec.ts` drives the dashboard through a browser
  and is not part of this model.
