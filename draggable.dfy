/** The per-question component's own state: whether its sub-questions are
    collapsed, whether it is being dragged, and the duplicate button that
    calls back into the builder. */
module Draggable {
  import opened Wrappers
  import opened FormSchema
  import opened Mutations
  import opened DragSource
  import opened InteractiveBuilder

  class DraggableQuestion {
    const props: QuestionProps
    /** The builder whose `duplicateQuestion` is passed down as
        `handleDuplicateQuestion`. */
    const host: Builder
    var isCollapsed: bool
    /** Maintained by the drag layer while this question is being dragged. */
    var isDragging: bool

    constructor (props: QuestionProps, host: Builder)
      ensures this.props == props && this.host == host
      ensures !isCollapsed && !isDragging
    {
      this.props := props;
      this.host := host;
      isCollapsed := false;
      isDragging := false;
    }

    /** `toggleCollapse()`: flips the flag only for a question that has a
      sub-question list (even an empty one). */
    method ToggleCollapse()
      modifies this
      ensures props.question.questions.Some? ==> isCollapsed == !old(isCollapsed)
      ensures props.question.questions.None? ==> isCollapsed == old(isCollapsed)
      ensures isDragging == old(isDragging)
    {
      if props.question.questions.Some? {
        isCollapsed := !isCollapsed;
      }
    }

    /** `handleDuplicate()`: duplicates this question into its own section,
      unless it is being dragged. */
    method HandleDuplicate()
      modifies host
      ensures isDragging ==> unchanged(host)
      ensures !isDragging ==>
        var r := Duplicated(old(host.schema), props.question, props.pageIndex, props.sectionIndex);
        && (r.Success? ==> host.schema == r.value && host.changes == old(host.changes) + [r.value]
                           && host.notices == old(host.notices) + [Succeeded(QuestionDuplicated)])
        && (r.Failure? ==> host.schema == old(host.schema) && host.changes == old(host.changes)
                           && host.notices == old(host.notices) + [Errored(ErrorDuplicatingQuestion)])
        && host.activeQuestion == old(host.activeQuestion) && host.activeObsQuestion == old(host.activeObsQuestion)
    {
      if !isDragging {
        host.DuplicateQuestion(props.question, props.pageIndex, props.sectionIndex);
      }
    }
  }
}
