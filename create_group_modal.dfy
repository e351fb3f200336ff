/**
 * The create-group dialog: its two-field form, the blank-name check before
 * anything is sent, and the resets after a submit or a close.
 */
module CreateGroupModal {
  import opened Wrappers
  import opened Text

  /** `formData`. */
  datatype GroupForm = GroupForm(groupName: string, description: string)

  /** The form the dialog opens with and returns to. */
  function EmptyForm(): GroupForm
  {
    GroupForm("", "")
  }

  /** The messages the dialog shows; `NoMessage` is the empty error. */
  datatype Message = NoMessage | NameRequired | CreateFailed

  function MessageText(m: Message): string
  {
    match m
    case NoMessage => ""
    case NameRequired => "Group name is required"
    case CreateFailed => "Failed to create group. Please try again."
  }

  /** The error block is shown exactly when there is a message: each message has words. */
  lemma MessageShownIffSet(m: Message)
    ensures MessageText(m) == "" <==> m == NoMessage
  {
    match m
    case NoMessage =>
    case NameRequired => assert MessageText(m)[0] == 'G';
    case CreateFailed => assert MessageText(m)[0] == 'F';
  }

  /** The input an edit comes from (`e.target.name`). */
  datatype Field = GroupName | Description

  /** `{ ...formData, [name]: value }`: the named field takes the value, the other is kept. */
  function Edited(f: GroupForm, field: Field, value: string): (g: GroupForm)
    ensures field == GroupName ==> g.groupName == value && g.description == f.description
    ensures field == Description ==> g.description == value && g.groupName == f.groupName
  {
    match field
    case GroupName => f.(groupName := value)
    case Description => f.(description := value)
  }

  class Modal {
    var form: GroupForm
    var isLoading: bool
    var error: Message
    /** How many times the parent's `onClose` was called. */
    var closeRequests: nat

    /**
     * The busy flag is down between operations. Each operation here runs to
     * completion in one step, so the flag only marks the spinner's
     * state; this predicate ties no other field and no contract relies on it.
     */
    ghost predicate Valid()
      reads this
    {
      !isLoading
    }

    constructor ()
      ensures Valid()
      ensures form == EmptyForm() && error == NoMessage && closeRequests == 0
    {
      form, isLoading, error, closeRequests := EmptyForm(), false, NoMessage, 0;
    }

    /** `handleChange(e)`: the edit is applied and any message is cleared. */
    method HandleChange(field: Field, value: string)
      requires Valid()
      modifies this
      ensures Valid()
      ensures form == Edited(old(form), field, value) && error == NoMessage
      ensures closeRequests == old(closeRequests)
    {
      form := Edited(form, field, value);
      error := NoMessage;
    }

    /**
     * `handleSubmit()`, with `accepted` telling whether `onSubmit` resolved.
     * A name that is blank once trimmed is refused and nothing is sent.
     * Otherwise the form is sent as typed (the name is not trimmed); on
     * success the form is emptied, on failure it is kept and the failure
     * message is shown.
     */
    method HandleSubmit(accepted: bool) returns (sent: Option<GroupForm>)
      requires Valid()
      modifies this
      ensures Valid() && closeRequests == old(closeRequests)
      ensures AllWhitespace(old(form).groupName) ==>
                sent.None? && error == NameRequired && form == old(form)
      ensures !AllWhitespace(old(form).groupName) ==> sent == Some(old(form))
      ensures !AllWhitespace(old(form).groupName) && accepted ==> form == EmptyForm() && error == NoMessage
      ensures !AllWhitespace(old(form).groupName) && !accepted ==> form == old(form) && error == CreateFailed
    {
      BlankIffAllWhitespace(form.groupName);
      if Trim(form.groupName) == "" {
        error := NameRequired;
        return None;
      }
      isLoading := true;
      error := NoMessage;
      sent := Some(form);
      if accepted {
        form := EmptyForm();
      }
      else {
        error := CreateFailed;
      }
      isLoading := false;
    }

    /** `handleClose()`: the form and the message are reset and the parent is asked to close. */
    method HandleClose()
      requires Valid()
      modifies this
      ensures Valid()
      ensures form == EmptyForm() && error == NoMessage
      ensures closeRequests == old(closeRequests) + 1
    {
      form := EmptyForm();
      error := NoMessage;
      closeRequests := closeRequests + 1;
    }
  }
}
