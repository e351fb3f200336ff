/**
 * The add-expense dialog: the form, the ordered checks of `validateForm`,
 * the participant check boxes, the members loaded for the chosen group and
 * the resets after a submit or a close.
 */
module AddExpenseModal {
  import opened Wrappers
  import opened Seqs
  import opened Text

  /**
   * The amount field as `parseFloat` reads it: the empty field (which is
   * falsy), a number (in cents), or text that is not a number (`NaN`).
   */
  datatype Amount = NoAmount | Number(value: int) | NotANumber

  /** `formData`; an unselected group is `None`. */
  datatype Form = Form(description: string, amount: Amount, category: string, groupId: Option<int>,
                       expenseDate: string, participantIds: seq<int>)

  /** The form the dialog opens with and returns to; `today` is the current date's text. */
  function InitialForm(today: string): Form
  {
    Form("", NoAmount, "", None, today, [])
  }

  /** The messages the dialog shows. */
  datatype Issue =
    | DescriptionRequired
    | AmountNotPositive
    | GroupRequired
    | ParticipantRequired
    | NoMembers
    | MembersUnavailable
    | SubmitFailed

  function IssueText(i: Issue): string
  {
    match i
    case DescriptionRequired => "Description is required"
    case AmountNotPositive => "Amount must be greater than 0"
    case GroupRequired => "Please select a group"
    case ParticipantRequired => "Please select at least one participant"
    case NoMembers => "This group has no members. Please add members to the group first."
    case MembersUnavailable => "Failed to load group members. Please try again."
    case SubmitFailed => "Failed to add expense. Please try again."
  }

  /** `!formData.description.trim()`. */
  predicate Blank(s: string)
  {
    Trim(s) == ""
  }

  /**
   * `!formData.amount || parseFloat(formData.amount) <= 0`. Text that is not
   * a number passes, since `NaN <= 0` is false.
   */
  predicate AmountRejected(a: Amount)
  {
    a.NoAmount? || (a.Number? && a.value <= 0)
  }

  /** Every check of `validateForm` the form fails, in the order the checks are written. */
  function Failures(f: Form): seq<Issue>
  {
    (if Blank(f.description) then [DescriptionRequired] else []) +
    (if AmountRejected(f.amount) then [AmountNotPositive] else []) +
    (if f.groupId.None? then [GroupRequired] else []) +
    (if f.participantIds == [] then [ParticipantRequired] else [])
  }

  /** `validateForm()`: the first failing check decides the message; `None` when all pass. */
  function ValidateForm(f: Form): (r: Option<Issue>)
    ensures r.None? <==> Failures(f) == []
    ensures r.Some? ==> r.value == Failures(f)[0]
  {
    if Blank(f.description) then Some(DescriptionRequired)
    else if AmountRejected(f.amount) then Some(AmountNotPositive)
    else if f.groupId.None? then Some(GroupRequired)
    else if f.participantIds == [] then Some(ParticipantRequired)
    else None
  }

  /**
   * What a form that passes guarantees: a description with a visible
   * character, a positive amount or one that is not a number, a group and at
   * least one participant.
   */
  lemma AcceptedFormShape(f: Form)
    ensures ValidateForm(f).None? <==>
              && !Blank(f.description)
              && (f.amount.NotANumber? || (f.amount.Number? && f.amount.value > 0))
              && f.groupId.Some? && f.participantIds != []
  {
  }

  /** A checked participant box with this id, or any other change of a field. */
  datatype Edit =
    | SetDescription(text: string)
    | SetAmount(amount: Amount)
    | SetCategory(text: string)
    | SetGroup(group: Option<int>)
    | SetDate(text: string)
    | Check(id: int)
    | Uncheck(id: int)
    | OtherCheckbox

  function IsNotId(id: int): int -> bool { (x: int) => x != id }

  /** The form after `handleChange` for one edit. */
  function Edited(f: Form, e: Edit): (g: Form)
    ensures e.Check? || e.Uncheck? || e.OtherCheckbox? ==> g.(participantIds := f.participantIds) == f
    ensures e.OtherCheckbox? ==> g == f
    ensures e.Check? ==> g.participantIds == f.participantIds + [e.id]
    ensures e.Uncheck? ==> e.id !in g.participantIds && IsSubsequence(g.participantIds, f.participantIds)
    ensures !(e.Check? || e.Uncheck? || e.OtherCheckbox?) ==> g.participantIds == f.participantIds
  {
    match e
    case SetDescription(text) => f.(description := text)
    case SetAmount(amount) => f.(amount := amount)
    case SetCategory(text) => f.(category := text)
    case SetGroup(group) => f.(groupId := group)
    case SetDate(text) => f.(expenseDate := text)
    case Check(id) => f.(participantIds := f.participantIds + [id])
    case Uncheck(id) =>
      FilterSubsequence(f.participantIds, IsNotId(id));
      f.(participantIds := Filter(f.participantIds, IsNotId(id)))
    case OtherCheckbox => f
  }

  /**
   * Unchecking removes every occurrence of the id and no other id: each
   * other id keeps its count.
   */
  lemma {:induction false} UncheckKeepsOthers(ids: seq<int>, id: int)
    ensures forall x :: x != id ==> multiset(Filter(ids, IsNotId(id)))[x] == multiset(ids)[x]
    ensures multiset(Filter(ids, IsNotId(id)))[id] == 0
  {
    if ids != [] {
      UncheckKeepsOthers(ids[1..], id);
      assert ids == [ids[0]] + ids[1..];
      if ids[0] != id {
        assert Filter(ids, IsNotId(id)) == [ids[0]] + Filter(ids[1..], IsNotId(id));
      }
    }
  }

  /**
   * Checking a box and unchecking it again is the same as unchecking it:
   * every occurrence of the id goes, whatever the list held before.
   */
  lemma CheckThenUncheck(f: Form, id: int)
    ensures Edited(Edited(f, Check(id)), Uncheck(id)) == Edited(f, Uncheck(id))
  {
    FilterAppend(f.participantIds, [id], IsNotId(id));
    assert Filter([id], IsNotId(id)) == [];
  }

  /** A user as the dialog lists it. */
  datatype Person = Person(id: int, username: string)

  /** A member record of the fetched group: its own id and name, and its `user` object if it has one. */
  datatype MemberRecord = MemberRecord(id: int, username: string, user: Option<Person>)

  /** `member.user || member`: the nested user when present, else the record itself. */
  function Normalised(m: MemberRecord): (p: Person)
    ensures m.user.Some? ==> p == m.user.value
    ensures m.user.None? ==> p.id == m.id && p.username == m.username
  {
    if m.user.Some? then m.user.value else Person(m.id, m.username)
  }

  function NormalisedMembers(ms: seq<MemberRecord>): (ps: seq<Person>)
    ensures |ps| == |ms| && forall k :: 0 <= k < |ms| ==> ps[k] == Normalised(ms[k])
  {
    seq(|ms|, k requires 0 <= k < |ms| => Normalised(ms[k]))
  }

  /** `members.map(member => member.id)`. */
  function Ids(ps: seq<Person>): (ids: seq<int>)
    ensures |ids| == |ps| && forall k :: 0 <= k < |ps| ==> ids[k] == ps[k].id
  {
    seq(|ps|, k requires 0 <= k < |ps| => ps[k].id)
  }

  /** How `getGroupById` answered: the group's `members` (`None` when there is no group or no such field), or an error. */
  datatype MembersFetch = Fetched(members: Option<seq<MemberRecord>>) | FetchFailed

  /** A fetch that yields at least one member record. */
  predicate HasMembers(response: MembersFetch)
  {
    response.Fetched? && response.members.Some? && response.members.value != []
  }

  /** The object handed to `onSubmit`: the form, with `title` copied from the description and the group id as a number. */
  datatype Submission = Submission(description: string, title: string, amount: Amount, category: string,
                                   groupId: int, expenseDate: string, participantIds: seq<int>)

  function SubmissionOf(f: Form): (s: Submission)
    requires ValidateForm(f).None?
    ensures s.title == s.description == f.description && !Blank(s.title)
    ensures Some(s.groupId) == f.groupId && s.amount == f.amount && !AmountRejected(s.amount)
    ensures s.participantIds == f.participantIds != [] && s.category == f.category && s.expenseDate == f.expenseDate
  {
    Submission(f.description, f.description, f.amount, f.category, f.groupId.value, f.expenseDate, f.participantIds)
  }

  class Modal {
    var form: Form
    var groupMembers: seq<Person>
    var isLoading: bool
    var loadingMembers: bool
    var error: Option<Issue>
    /** How many times the parent's `onClose` was called. */
    var closeRequests: nat

    /**
     * The busy flags are down between operations. Each operation here runs to
     * completion in one step, so the flags only mark the spinner's
     * state; this predicate ties no other field and no contract relies on it.
     */
    ghost predicate Valid()
      reads this
    {
      !isLoading && !loadingMembers
    }

    constructor (today: string)
      ensures Valid()
      ensures form == InitialForm(today) && groupMembers == [] && error == None && closeRequests == 0
    {
      form, groupMembers, isLoading, loadingMembers, error, closeRequests :=
        InitialForm(today), [], false, false, None, 0;
    }

    /**
     * `fetchGroupMembers()` with the answer for the selected group. A group
     * with members lists them, normalised, and selects every one of them as a
     * participant; the error is left as it was. A group without members, or
     * a failed call, empties the list and sets its message; the form is kept.
     */
    method FetchGroupMembers(response: MembersFetch)
      requires Valid()
      modifies this
      ensures Valid() && closeRequests == old(closeRequests)
      ensures HasMembers(response) ==>
                && groupMembers == NormalisedMembers(response.members.value)
                && form == old(form).(participantIds := Ids(groupMembers))
                && error == old(error)
      ensures !HasMembers(response) ==> groupMembers == [] && form == old(form)
      ensures response.Fetched? && !HasMembers(response) ==> error == Some(NoMembers)
      ensures response.FetchFailed? ==> error == Some(MembersUnavailable)
    {
      loadingMembers := true;
      match response {
        case Fetched(members) =>
          if members.Some? && members.value != [] {
            groupMembers := NormalisedMembers(members.value);
            form := form.(participantIds := Ids(groupMembers));
          } else {
            groupMembers := [];
            error := Some(NoMembers);
          }
        case FetchFailed =>
          error := Some(MembersUnavailable);
          groupMembers := [];
      }
      loadingMembers := false;
    }

    /** `handleChange(e)`: the edit is applied and any message is cleared. */
    method HandleChange(e: Edit)
      requires Valid()
      modifies this
      ensures Valid()
      ensures form == Edited(old(form), e) && error == None
      ensures groupMembers == old(groupMembers) && closeRequests == old(closeRequests)
    {
      form := Edited(form, e);
      error := None;
    }

    /**
     * `handleSubmit()`, with `accepted` telling whether `onSubmit` resolved.
     * A form that fails a check shows that check's message and nothing is
     * sent. Otherwise the submission is sent; on success the form and the
     * member list are reset, on failure they are kept and the failure
     * message is shown.
     */
    method HandleSubmit(accepted: bool, today: string) returns (sent: Option<Submission>)
      requires Valid()
      modifies this
      ensures Valid() && closeRequests == old(closeRequests)
      ensures ValidateForm(old(form)).Some? ==>
                && sent.None? && error == ValidateForm(old(form))
                && form == old(form) && groupMembers == old(groupMembers)
      ensures ValidateForm(old(form)).None? ==> sent == Some(SubmissionOf(old(form)))
      ensures ValidateForm(old(form)).None? && accepted ==>
                form == InitialForm(today) && groupMembers == [] && error == None
      ensures ValidateForm(old(form)).None? && !accepted ==>
                form == old(form) && groupMembers == old(groupMembers) && error == Some(SubmitFailed)
    {
      var issue := ValidateForm(form);
      if issue.Some? {
        error := issue;
        return None;
      }
      isLoading := true;
      error := None;
      sent := Some(SubmissionOf(form));
      if accepted {
        form := InitialForm(today);
        groupMembers := [];
      } else {
        error := Some(SubmitFailed);
      }
      isLoading := false;
    }

    /** `handleClose()`: form, members, loading flag and message are reset and the parent is asked to close. */
    method HandleClose(today: string)
      requires Valid()
      modifies this
      ensures Valid()
      ensures form == InitialForm(today) && groupMembers == [] && error == None
      ensures closeRequests == old(closeRequests) + 1
    {
      form := InitialForm(today);
      groupMembers := [];
      loadingMembers := false;
      error := None;
      closeRequests := closeRequests + 1;
    }
  }
}
