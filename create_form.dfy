/**
 * CreateShowcaseScreen: two controlled fields and a submit handler that
 * rejects an empty title with an alert and otherwise calls `onSubmit`.
 */
module CreateForm {

  const TITLE_REQUIRED: string := "Title is required."

  /** The `{ title, description }` object passed to `onSubmit`. */
  datatype ShowcaseDraft = ShowcaseDraft(title: string, description: string)

  /** What `handleSubmit` does: alert and return, or call `onSubmit` once. */
  datatype SubmitOutcome = AlertShown(message: string) | OnSubmitCalled(draft: ShowcaseDraft)

  /**
   * `if (!title) { alert(...); return; } onSubmit({ title, description })`.
   * Only "" is falsy for a string, so the title is not trimmed.
   */
  function SubmitOutcomeOf(title: string, description: string): (r: SubmitOutcome)
    ensures r.AlertShown? <==> title == ""
    ensures r.AlertShown? ==> r.message == TITLE_REQUIRED
    ensures r.OnSubmitCalled? ==> r.draft.title == title && r.draft.description == description
  {
    if title == "" then AlertShown(TITLE_REQUIRED) else OnSubmitCalled(ShowcaseDraft(title, description))
  }

  /** A whitespace-only title is handed on, and an empty description is allowed. */
  lemma UntrimmedTitleAccepted(spaces: string)
    requires |spaces| > 0 && forall i | 0 <= i < |spaces| :: spaces[i] == ' '
    ensures SubmitOutcomeOf(spaces, "") == OnSubmitCalled(ShowcaseDraft(spaces, ""))
  {
  }

  /** `disabled={isSubmitting}` on the submit button. */
  function SubmitDisabled(isSubmitting: bool): bool {
    isSubmitting
  }

  class CreateShowcaseForm {
    var title: string
    var description: string

    /** `useState('')` for both fields. */
    constructor ()
      ensures title == "" && description == ""
    {
      title := "";
      description := "";
    }

    /** The title input's `onChange`. */
    method EditTitle(value: string)
      modifies this`title
      ensures title == value
    {
      title := value;
    }

    /** The description area's `onChange`. */
    method EditDescription(value: string)
      modifies this`description
      ensures description == value
    {
      description := value;
    }

    /** `handleSubmit`: the fields are read, not changed. */
    method Submit() returns (outcome: SubmitOutcome)
      ensures outcome == SubmitOutcomeOf(title, description)
      ensures outcome.OnSubmitCalled? <==> title != ""
    {
      if title == "" {
        return AlertShown(TITLE_REQUIRED);
      }
      return OnSubmitCalled(ShowcaseDraft(title, description));
    }
  }
}
