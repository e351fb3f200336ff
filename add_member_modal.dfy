/**
 * `AddMemberModal`: the pending list of e-mail addresses to invite into a
 * group, its input validation, and the batch submit that folds the
 * per-address outcomes of the requests into full success, partial success or
 * total failure.
 */
module AddMemberModal {
  import opened Wrappers
  import opened Seqs
  import opened Text
  import opened Domain
  import GroupController

  /** The class `[^\s@]`. */
  predicate IsPlain(c: char)
  {
    !IsWhitespace(c) && c != '@'
  }

  /** Every character of `s[lo..hi]` is in `[^\s@]`. */
  predicate PlainRun(s: string, lo: int, hi: int)
    requires 0 <= lo <= hi <= |s|
  {
    forall k :: lo <= k < hi ==> IsPlain(s[k])
  }

  /**
   * What `/^[^\s@]+@[^\s@]+\.[^\s@]+$/` accepts, read off the pattern: a
   * non-empty run, '@', a non-empty run, '.', a non-empty run.
   */
  predicate MatchesPattern(s: string)
  {
    exists i, j | 0 < i && i + 1 < j && j + 1 < |s| ::
      s[i] == '@' && s[j] == '.' && PlainRun(s, 0, i) && PlainRun(s, i + 1, j) && PlainRun(s, j + 1, |s|)
  }

  /**
   * `isValidEmail(s)`: the pattern test as a left-to-right scan. The local
   * part runs up to the first '@'; the domain must then be plain throughout
   * and hold a '.' that is neither its first nor its last character.
   */
  predicate IsValidEmail(s: string): (b: bool)
    ensures b <==> MatchesPattern(s)
  {
    ScanMatchesPattern(s);
    ScanLocal(s, 0)
  }

  predicate ScanLocal(s: string, i: nat)
    requires i <= |s|
    decreases |s| - i
  {
    i < |s| &&
    if s[i] == '@' then 0 < i && ScanDomain(s, i + 1, i + 1, false)
    else IsPlain(s[i]) && ScanLocal(s, i + 1)
  }

  /** The domain `s[start..]` scanned from `k`; `dot` records an inner '.' already seen. */
  predicate ScanDomain(s: string, start: nat, k: nat, dot: bool)
    requires start <= k <= |s|
    decreases |s| - k
  {
    if k == |s| then dot
    else IsPlain(s[k]) && ScanDomain(s, start, k + 1, dot || (s[k] == '.' && start < k && k + 1 < |s|))
  }

  lemma {:induction false} ScanDomainSpec(s: string, start: nat, k: nat, dot: bool)
    requires start <= k <= |s|
    ensures ScanDomain(s, start, k, dot) <==>
              PlainRun(s, k, |s|) && (dot || exists j :: k <= j && start < j < |s| - 1 && s[j] == '.')
    decreases |s| - k
  {
    if k < |s| {
      var dot' := dot || (s[k] == '.' && start < k && k + 1 < |s|);
      ScanDomainSpec(s, start, k + 1, dot');
      if (exists j :: k <= j && start < j < |s| - 1 && s[j] == '.') && !(s[k] == '.' && start < k && k + 1 < |s|) {
        var j :| k <= j && start < j < |s| - 1 && s[j] == '.';
        assert j != k;
      }
    }
  }

  lemma {:induction false} ScanLocalSpec(s: string, i: nat)
    requires i <= |s| && PlainRun(s, 0, i)
    ensures ScanLocal(s, i) <==>
              exists a, j | i <= a && 0 < a && a + 1 < j && j + 1 < |s| ::
                s[a] == '@' && s[j] == '.' && PlainRun(s, 0, a) && PlainRun(s, a + 1, |s|)
    decreases |s| - i
  {
    if i < |s| {
      if s[i] == '@' {
        ScanDomainSpec(s, i + 1, i + 1, false);
        if exists a, j | i <= a && 0 < a && a + 1 < j && j + 1 < |s| ::
             s[a] == '@' && s[j] == '.' && PlainRun(s, 0, a) && PlainRun(s, a + 1, |s|) {
          var a, j :| i <= a && 0 < a && a + 1 < j && j + 1 < |s| &&
                      s[a] == '@' && s[j] == '.' && PlainRun(s, 0, a) && PlainRun(s, a + 1, |s|);
          if a > i {
            assert false;
          }
        }
      } else if IsPlain(s[i]) {
        ScanLocalSpec(s, i + 1);
      }
    }
  }

  /** The scan accepts exactly what the pattern accepts. */
  lemma ScanMatchesPattern(s: string)
    ensures ScanLocal(s, 0) <==> MatchesPattern(s)
  {
    ScanLocalSpec(s, 0);
    if MatchesPattern(s) {
      var i, j :| 0 < i && i + 1 < j && j + 1 < |s| && s[i] == '@' && s[j] == '.' &&
                 PlainRun(s, 0, i) && PlainRun(s, i + 1, j) && PlainRun(s, j + 1, |s|);
      assert PlainRun(s, i + 1, |s|);
    }
  }

  /**
   * The accepted shape in plain terms: no white space, exactly one '@' with
   * something before it, and after it a '.' that is neither the first nor the
   * last character of the domain.
   */
  predicate EmailShape(s: string)
  {
    && (forall k :: 0 <= k < |s| ==> !IsWhitespace(s[k]))
    && exists i | 0 < i < |s| ::
         && s[i] == '@'
         && (forall k :: 0 <= k < |s| && s[k] == '@' ==> k == i)
         && exists j :: i + 1 < j < |s| - 1 && s[j] == '.'
  }

  lemma {:induction false} ValidEmailShape(s: string)
    ensures IsValidEmail(s) <==> EmailShape(s)
  {
    if MatchesPattern(s) {
      var i, j :| 0 < i && i + 1 < j && j + 1 < |s| && s[i] == '@' && s[j] == '.' &&
                 PlainRun(s, 0, i) && PlainRun(s, i + 1, j) && PlainRun(s, j + 1, |s|);
      forall k | 0 <= k < |s| ensures !IsWhitespace(s[k]) && (s[k] == '@' ==> k == i) {
        if k < i {
        } else if i < k < j {
        } else if j < k {
        }
      }
    }
    if EmailShape(s) {
      var i :| 0 < i < |s| && s[i] == '@' && (forall k :: 0 <= k < |s| && s[k] == '@' ==> k == i) &&
               exists j :: i + 1 < j < |s| - 1 && s[j] == '.';
      var j :| i + 1 < j < |s| - 1 && s[j] == '.';
      assert PlainRun(s, 0, i) && PlainRun(s, i + 1, j) && PlainRun(s, j + 1, |s|);
    }
  }

  /** The characters the pattern `[,\s]` matches. */
  predicate IsSeparator(c: char)
  {
    c == ',' || IsWhitespace(c)
  }

  /** `s.replace(/[,\s]+$/, '')`: `s` without its trailing run of separators. */
  function StripTrailingSeparators(s: string): (r: string)
    ensures |r| <= |s| && r == s[..|r|]
    ensures r == [] || !IsSeparator(r[|r| - 1])
    ensures forall k :: |r| <= k < |s| ==> IsSeparator(s[k])
  {
    if |s| > 0 && IsSeparator(s[|s| - 1]) then StripTrailingSeparators(s[..|s| - 1]) else s
  }

  /** The address `addEmailToList` considers: the input trimmed, then stripped of trailing separators. */
  function Candidate(input: string): (c: string)
    ensures c == [] || (c[|c| - 1] != ',' && !IsWhitespace(c[|c| - 1]))
    ensures c == [] || !IsWhitespace(c[0])
  {
    StripTrailingSeparators(Trim(input))
  }

  /** A pending list: no address twice, and only addresses the pattern accepts. */
  predicate ValidList(list: seq<string>)
  {
    NoDuplicates(list) && forall k :: 0 <= k < |list| ==> IsValidEmail(list[k])
  }

  /** The modal's form state: the text being typed, the pending list and the error shown. */
  datatype Form = Form(input: string, list: seq<string>, error: Notice)

  /**
   * The error the modal shows, by kind; `NoticeText` gives the words. A batch
   * failure carries the records of the whole batch, one per address.
   */
  datatype Notice =
    | NoNotice
    | AlreadyAdded
    | InvalidAddress
    | EmptyBatch
    | PartialFailure(results: seq<EmailResult>)
    | TotalFailure(results: seq<EmailResult>)

  /** The error string the modal holds for a notice. */
  function NoticeText(n: Notice): (t: string)
    // The error block is shown exactly when there is a notice: every notice has words.
    ensures t == "" <==> n == NoNotice
  {
    match n
    case NoNotice => ""
    case AlreadyAdded => "This email is already added"
    case InvalidAddress => "Please enter a valid email address"
    case EmptyBatch => "Please add at least one email address"
    case PartialFailure(rs) =>
      var t := "Added " + NatToString(|Filter(rs, Succeeded)|) + " members successfully. Failed to add: " +
               Join(PartialDetails(Filter(rs, FailedResult)), ", ");
      assert t[0] == 'A';
      t
    case TotalFailure(rs) =>
      var t := "Failed to add any members:\n" + Join(FullDetails(Filter(rs, FailedResult)), "\n");
      assert t[0] == 'F';
      t
  }

  /**
   * `addEmailToList()`: a valid candidate not yet listed is appended and
   * clears input and error; a listed one or an invalid one only sets the
   * error; an empty candidate changes nothing. The list stays valid.
   */
  function AddEmail(f: Form): (g: Form)
    ensures var c := Candidate(f.input);
            && (c != [] && IsValidEmail(c) && c !in f.list ==> g == Form("", f.list + [c], NoNotice))
            && (c != [] && IsValidEmail(c) && c in f.list ==> g == f.(error := AlreadyAdded))
            && (c != [] && !IsValidEmail(c) ==> g == f.(error := InvalidAddress))
            && (c == [] ==> g == f)
    ensures ValidList(f.list) ==> ValidList(g.list)
  {
    var email := Candidate(f.input);
    if email != [] && IsValidEmail(email) then
      if email !in f.list then
        assert forall k :: 0 <= k < |f.list| ==> (f.list + [email])[k] == f.list[k];
        Form("", f.list + [email], NoNotice)
      else f.(error := AlreadyAdded)
    else if email != [] then f.(error := InvalidAddress)
    else f
  }

  /** Input that trims to nothing yields no candidate, so skipping the call changes nothing. */
  lemma BlankInputAddsNothing(f: Form)
    requires Trim(f.input) == []
    ensures AddEmail(f) == f
  {
  }

  /** How one request for an address failed: the HTTP response, if any, and the error's own message. */
  datatype HttpResponse = HttpResponse(status: int, data: string)
  datatype RequestError = RequestError(response: Option<HttpResponse>, message: string)

  /** What the look-up-then-add requests for one address came to. */
  datatype Outcome = Added | Failed(error: RequestError)

  /** The `{ email, success, error }` record built for each address. */
  datatype EmailResult = EmailResult(email: string, success: bool, error: string)

  /**
   * The message shown for a failed address: 404 is reported as an
   * unregistered user, 400 shows the response body or a fallback, any other
   * response with a body shows the body, and otherwise the error's message.
   * A body is shown only when it is non-empty (JavaScript truthiness).
   */
  function ErrorMessage(e: RequestError): (m: string)
    ensures e.response.None? ==> m == e.message
    ensures e.response.Some? && e.response.value.status == 404 ==>
              m == "User not found - they may need to register first"
    ensures e.response.Some? && e.response.value.status == 400 ==>
              m == (if e.response.value.data != "" then e.response.value.data else "User may already be in the group")
    ensures e.response.Some? && e.response.value.status != 404 && e.response.value.status != 400 ==>
              m == (if e.response.value.data != "" then e.response.value.data else e.message)
  {
    if e.response.Some? && e.response.value.status == 404 then "User not found - they may need to register first"
    else if e.response.Some? && e.response.value.status == 400 then
      if e.response.value.data != "" then e.response.value.data else "User may already be in the group"
    else if e.response.Some? && e.response.value.data != "" then e.response.value.data
    else e.message
  }

  /**
   * What the modal shows when the add-to-group call itself fails: the
   * server's own text for every status except 404, which is always reported
   * as an unregistered user, even when it was the group that was missing.
   */
  lemma {:induction false} ServerRefusalShown(outcome: Result<Done, Exception>, message: string)
    requires outcome.Err?
    ensures var resp := GroupController.AddUserResponse(outcome);
            ErrorMessage(RequestError(Some(HttpResponse(resp.status, resp.body)), message)) ==
            (if resp.status == 404 then "User not found - they may need to register first" else resp.body)
  {
    var resp := GroupController.AddUserResponse(outcome);
    assert |resp.body| >= |outcome.error.message|;
    if resp.status != 404 {
      assert resp.body != [] by {
        match outcome.error
        case IllegalArgument(m) =>
        case Security(m) =>
        case Runtime(m) =>
        case Arithmetic(m) =>
        case Checked(m) =>
      }
    }
  }

  /** The records `Promise.all` resolves to, one per address of the batch, in batch order. */
  function Results(batch: seq<string>, outcomes: seq<Outcome>): (rs: seq<EmailResult>)
    requires |outcomes| == |batch|
    ensures |rs| == |batch|
    ensures forall k :: 0 <= k < |rs| ==>
              rs[k].email == batch[k] && (rs[k].success <==> outcomes[k].Added?) &&
              (outcomes[k].Failed? ==> rs[k].error == ErrorMessage(outcomes[k].error))
  {
    seq(|batch|, k requires 0 <= k < |batch| =>
      match outcomes[k]
      case Added => EmailResult(batch[k], true, "")
      case Failed(e) => EmailResult(batch[k], false, ErrorMessage(e)))
  }

  function Succeeded(r: EmailResult): bool { r.success }
  function FailedResult(r: EmailResult): bool { !r.success }

  function Emails(rs: seq<EmailResult>): (es: seq<string>)
    ensures |es| == |rs| && forall k :: 0 <= k < |rs| ==> es[k] == rs[k].email
  {
    seq(|rs|, k requires 0 <= k < |rs| => rs[k].email)
  }

  /** The addresses of the kept records, in order, are a subsequence of all the addresses. */
  lemma {:induction false} EmailsOfFilterSubsequence(rs: seq<EmailResult>, p: EmailResult -> bool)
    ensures IsSubsequence(Emails(Filter(rs, p)), Emails(rs))
  {
    if rs != [] {
      EmailsOfFilterSubsequence(rs[1..], p);
      var all, rest := Emails(rs), Emails(Filter(rs[1..], p));
      assert all[0] == rs[0].email && all[1..] == Emails(rs[1..]);
      if p(rs[0]) {
        var kept := Emails([rs[0]] + Filter(rs[1..], p));
        assert kept[0] == rs[0].email && kept[1..] == rest;
      }
    }
  }

  /** The addresses a partial failure leaves in the list: the failed ones, in batch order. */
  function FailedEmails(batch: seq<string>, outcomes: seq<Outcome>): seq<string>
    requires |outcomes| == |batch|
  {
    Emails(Filter(Results(batch, outcomes), FailedResult))
  }

  /**
   * The retry list keeps the batch order, holds every failed address, and for
   * a batch without repeats holds no repeat and exactly the failed addresses.
   */
  lemma {:induction false} FailedEmailsSpec(batch: seq<string>, outcomes: seq<Outcome>)
    requires |outcomes| == |batch|
    ensures var r := FailedEmails(batch, outcomes);
            && IsSubsequence(r, batch)
            && (forall k :: 0 <= k < |batch| && outcomes[k].Failed? ==> batch[k] in r)
            && (NoDuplicates(batch) ==>
                  NoDuplicates(r) && forall k :: 0 <= k < |batch| ==> (batch[k] in r <==> outcomes[k].Failed?))
  {
    var rs := Results(batch, outcomes);
    EmailsOfFilterSubsequence(rs, FailedResult);
    assert Emails(rs) == batch;
    FailedAreListed(batch, outcomes);
    if NoDuplicates(batch) {
      SubsequenceNoDuplicates(FailedEmails(batch, outcomes), batch);
      OnlyFailedListed(batch, outcomes);
    }
  }

  lemma FailedAreListed(batch: seq<string>, outcomes: seq<Outcome>)
    requires |outcomes| == |batch|
    ensures forall k :: 0 <= k < |batch| && outcomes[k].Failed? ==> batch[k] in FailedEmails(batch, outcomes)
  {
    var rs := Results(batch, outcomes);
    var r := FailedEmails(batch, outcomes);
    forall k | 0 <= k < |batch| && outcomes[k].Failed? ensures batch[k] in r {
      var m := KeptAt(rs, FailedResult, k);
      assert r[m] == batch[k];
    }
  }

  lemma OnlyFailedListed(batch: seq<string>, outcomes: seq<Outcome>)
    requires |outcomes| == |batch| && NoDuplicates(batch)
    ensures forall k :: 0 <= k < |batch| && batch[k] in FailedEmails(batch, outcomes) ==> outcomes[k].Failed?
  {
    var rs := Results(batch, outcomes);
    var r := FailedEmails(batch, outcomes);
    forall k | 0 <= k < |batch| && batch[k] in r ensures outcomes[k].Failed? {
      var m :| 0 <= m < |r| && r[m] == batch[k];
      var n := KeptFrom(rs, FailedResult, m);
      assert batch[n] == batch[k];
    }
  }

  /**
   * `${f.email} (${f.error})` per failure, for a partial failure: one detail
   * per failure, in the same order, each starting with its address.
   */
  function PartialDetails(failed: seq<EmailResult>): (d: seq<string>)
    ensures |d| == |failed| && forall k :: 0 <= k < |d| ==> failed[k].email <= d[k]
  {
    seq(|failed|, k requires 0 <= k < |failed| => failed[k].email + " (" + failed[k].error + ")")
  }

  /** `${f.email}: ${f.error}` per failure, for a total failure; shaped like `PartialDetails`. */
  function FullDetails(failed: seq<EmailResult>): (d: seq<string>)
    ensures |d| == |failed| && forall k :: 0 <= k < |d| ==> failed[k].email <= d[k]
  {
    seq(|failed|, k requires 0 <= k < |failed| => failed[k].email + ": " + failed[k].error)
  }

  /**
   * When no address was added, the message has one detail per address of
   * the batch, in batch order: the address, then the text its error maps to.
   */
  lemma TotalFailureListsEveryAddress(batch: seq<string>, outcomes: seq<Outcome>)
    requires |outcomes| == |batch| && NoneAdded(outcomes)
    ensures var d := FullDetails(Filter(Results(batch, outcomes), FailedResult));
            |d| == |batch| && forall k :: 0 <= k < |batch| ==> d[k] == batch[k] + ": " + ErrorMessage(outcomes[k].error)
  {
    FilterAllOrNone(Results(batch, outcomes), FailedResult);
  }

  /**
   * The state the fold over the outcomes of a non-empty batch leaves: all
   * added closes the modal; a mix refreshes the groups and keeps only the
   * failed addresses; none added reports every failure and keeps the list.
   * `before` is the form when the requests went out, `after` the form at the
   * end; `refresh` and `close` count the callback calls.
   */
  ghost predicate Reported(batch: seq<string>, outcomes: seq<Outcome>, before: Form, after: Form, loading: bool,
                           refreshBefore: int, refresh: int, closeBefore: int, close: int)
    requires |outcomes| == |batch|
  {
    && !loading
    && if AllAdded(outcomes) then
         after == Form("", [], NoNotice) && refresh == refreshBefore + 1 && close == closeBefore + 1
       else if NoneAdded(outcomes) then
         after == Form(before.input, before.list, TotalFailure(Results(batch, outcomes))) &&
         refresh == refreshBefore && close == closeBefore
       else
         after == Form(before.input, FailedEmails(batch, outcomes), PartialFailure(Results(batch, outcomes))) &&
         refresh == refreshBefore + 1 && close == closeBefore
  }

  /**
   * The modal's state. `closeRequests` and `refreshRequests` count the calls
   * made to the parent's `onClose` and `onMemberAdded` callbacks.
   */
  class Modal {
    var emailInput: string
    var emailList: seq<string>
    var isLoading: bool
    var error: Notice
    var closeRequests: nat
    var refreshRequests: nat

    ghost predicate Valid()
      reads this
    {
      ValidList(emailList)
    }

    function State(): Form
      reads this
    {
      Form(emailInput, emailList, error)
    }

    constructor ()
      ensures Valid()
      ensures emailInput == "" && emailList == [] && !isLoading && error == NoNotice
      ensures closeRequests == 0 && refreshRequests == 0
    {
      emailInput, emailList, isLoading, error := "", [], false, NoNotice;
      closeRequests, refreshRequests := 0, 0;
    }

    method AddEmailToList()
      requires Valid()
      modifies this
      ensures Valid()
      ensures State() == AddEmail(old(State()))
      ensures isLoading == old(isLoading) && closeRequests == old(closeRequests) &&
              refreshRequests == old(refreshRequests)
    {
      ghost var g := AddEmail(State());
      var email := Candidate(emailInput);
      if email != [] && IsValidEmail(email) {
        if email !in emailList {
          emailList := emailList + [email];
          emailInput := "";
          error := NoNotice;
        } else {
          error := AlreadyAdded;
        }
      } else if email != [] {
        error := InvalidAddress;
      }
      assert State() == g;
    }

    /** `removeEmail(x)`: every other address stays, in order. */
    method RemoveEmail(x: string)
      requires Valid()
      modifies this
      ensures Valid()
      ensures emailInput == old(emailInput) && isLoading == old(isLoading) && error == old(error)
      ensures closeRequests == old(closeRequests) && refreshRequests == old(refreshRequests)
      ensures x !in emailList
      ensures IsSubsequence(emailList, old(emailList))
      ensures forall k :: 0 <= k < |old(emailList)| && old(emailList)[k] != x ==> old(emailList)[k] in emailList
      ensures x in old(emailList) ==> |emailList| == |old(emailList)| - 1
      ensures x !in old(emailList) ==> emailList == old(emailList)
    {
      ghost var before := emailList;
      emailList := Filter(emailList, IsNot(x));
      FilterSubsequence(before, IsNot(x));
      FilterNoDuplicates(before, IsNot(x));
      RemovedOnce(before, x);
    }

    /** `handleClose()`: the form is cleared and the parent is asked to close. */
    method HandleClose()
      modifies this
      ensures emailInput == "" && emailList == [] && error == NoNotice
      ensures isLoading == old(isLoading) && refreshRequests == old(refreshRequests)
      ensures closeRequests == old(closeRequests) + 1
    {
      emailInput := "";
      emailList := [];
      error := NoNotice;
      closeRequests := closeRequests + 1;
    }

    /** The fold after `Promise.all` (the `try` block from the results on, and the `finally`). */
    method ReportOutcomes(batch: seq<string>, outcomes: seq<Outcome>)
      requires Valid() && ValidList(batch) && batch != [] && |outcomes| == |batch|
      modifies this
      ensures Valid()
      ensures Reported(batch, outcomes, old(State()), State(), isLoading,
                       old(refreshRequests), refreshRequests, old(closeRequests), closeRequests)
    {
      var results := Results(batch, outcomes);
      var successful := Filter(results, Succeeded);
      var failed := Filter(results, FailedResult);
      SplitCounts(batch, outcomes);
      if |successful| > 0 {
        if |failed| == 0 {
          ReportAllAdded(batch, outcomes);
        } else {
          ReportSomeFailed(batch, outcomes);
        }
      } else {
        ReportNoneAdded(batch, outcomes);
      }
    }

    /** Every request succeeded: refresh the parent's groups, then close. */
    method ReportAllAdded(batch: seq<string>, outcomes: seq<Outcome>)
      requires |outcomes| == |batch| && AllAdded(outcomes) && batch != []
      modifies this
      ensures Valid()
      ensures Reported(batch, outcomes, old(State()), State(), isLoading,
                       old(refreshRequests), refreshRequests, old(closeRequests), closeRequests)
    {
      refreshRequests := refreshRequests + 1;
      HandleClose();
      isLoading := false;
    }

    /** Some succeeded and some failed: refresh, keep the failed addresses and say what failed. */
    method ReportSomeFailed(batch: seq<string>, outcomes: seq<Outcome>)
      requires ValidList(batch) && |outcomes| == |batch| && !AllAdded(outcomes) && !NoneAdded(outcomes)
      modifies this
      ensures Valid()
      ensures Reported(batch, outcomes, old(State()), State(), isLoading,
                       old(refreshRequests), refreshRequests, old(closeRequests), closeRequests)
    {
      FailedEmailsValid(batch, outcomes);
      ghost var g := Form(emailInput, FailedEmails(batch, outcomes), PartialFailure(Results(batch, outcomes)));
      assert Reported(batch, outcomes, State(), g, false, refreshRequests, refreshRequests + 1, closeRequests, closeRequests);
      refreshRequests := refreshRequests + 1;
      error := PartialFailure(Results(batch, outcomes));
      emailList := FailedEmails(batch, outcomes);
      isLoading := false;
      assert State() == g;
    }

    /** Nothing succeeded: the list stays and every failure is reported. */
    method ReportNoneAdded(batch: seq<string>, outcomes: seq<Outcome>)
      requires Valid() && |outcomes| == |batch| && NoneAdded(outcomes) && batch != []
      modifies this
      ensures Valid()
      ensures Reported(batch, outcomes, old(State()), State(), isLoading,
                       old(refreshRequests), refreshRequests, old(closeRequests), closeRequests)
    {
      assert outcomes[0].Failed?;
      error := TotalFailure(Results(batch, outcomes));
      isLoading := false;
    }

    /**
     * `handleSubmit()`, with `outcomes` standing for what the concurrent
     * requests resolved to, one per address of the batch. The batch is the
     * list as it stood when submit began: the pending input is added to the
     * list, but not to this batch.
     */
    method HandleSubmit(outcomes: seq<Outcome>) returns (sent: seq<string>)
      requires Valid()
      requires |outcomes| == |emailList|
      modifies this
      ensures Valid()
      ensures sent == old(emailList)
      ensures sent == [] ==>
                && State() == AddEmail(old(State())).(error := EmptyBatch)
                && isLoading == old(isLoading)
                && closeRequests == old(closeRequests) && refreshRequests == old(refreshRequests)
      ensures sent != [] ==>
                Reported(sent, outcomes, AddEmail(old(State())), State(), isLoading,
                         old(refreshRequests), refreshRequests, old(closeRequests), closeRequests)
    {
      var batch := emailList;
      if Trim(emailInput) != [] {
        AddEmailToList();
      } else {
        BlankInputAddsNothing(State());
      }
      if |batch| == 0 {
        error := EmptyBatch;
        return batch;
      }
      isLoading := true;
      error := NoNotice;
      ReportOutcomes(batch, outcomes);
      sent := batch;
    }
  }

  /** The test `removeEmail` filters the list by. */
  function IsNot(x: string): string -> bool { (e: string) => e != x }

  /** Dropping an address from a duplicate-free list shortens it by one exactly when it was listed. */
  lemma {:induction false} RemovedOnce(list: seq<string>, x: string)
    requires NoDuplicates(list)
    ensures x in list ==> |Filter(list, IsNot(x))| == |list| - 1
    ensures x !in list ==> Filter(list, IsNot(x)) == list
    decreases |list|
  {
    if list != [] {
      var tail := list[1..];
      assert NoDuplicates(tail) by {
        forall a, b | 0 <= a < b < |tail| ensures tail[a] != tail[b] {
          assert tail[a] == list[a + 1] && tail[b] == list[b + 1];
        }
      }
      RemovedOnce(tail, x);
      assert list == [list[0]] + tail;
      if list[0] == x {
        assert x !in tail by {
          forall b | 0 <= b < |tail| ensures tail[b] != x {
            assert tail[b] == list[b + 1];
          }
        }
      } else {
        assert x in list <==> x in tail;
      }
    }
  }

  /** Every request of the batch succeeded. */
  predicate AllAdded(outcomes: seq<Outcome>)
  {
    forall k :: 0 <= k < |outcomes| ==> outcomes[k].Added?
  }

  /** No request of the batch succeeded. */
  predicate NoneAdded(outcomes: seq<Outcome>)
  {
    forall k :: 0 <= k < |outcomes| ==> outcomes[k].Failed?
  }

  /** Some record is kept as successful exactly when some request succeeded, and likewise for failures. */
  lemma {:induction false} SplitCounts(batch: seq<string>, outcomes: seq<Outcome>)
    requires |outcomes| == |batch|
    ensures var rs := Results(batch, outcomes);
            && (|Filter(rs, Succeeded)| > 0 <==> !NoneAdded(outcomes))
            && (|Filter(rs, FailedResult)| == 0 <==> AllAdded(outcomes))
  {
    var rs := Results(batch, outcomes);
    var ok, bad := Filter(rs, Succeeded), Filter(rs, FailedResult);
    if |ok| > 0 {
      var n := KeptFrom(rs, Succeeded, 0);
    }
    if !NoneAdded(outcomes) {
      var k :| 0 <= k < |batch| && outcomes[k].Added?;
      var m := KeptAt(rs, Succeeded, k);
    }
    if |bad| > 0 {
      var n := KeptFrom(rs, FailedResult, 0);
    }
    if !AllAdded(outcomes) {
      var k :| 0 <= k < |batch| && outcomes[k].Failed?;
      var m := KeptAt(rs, FailedResult, k);
    }
  }

  /** A retry list drawn from a valid pending list is itself a valid pending list. */
  lemma {:induction false} FailedEmailsValid(batch: seq<string>, outcomes: seq<Outcome>)
    requires |outcomes| == |batch|
    requires NoDuplicates(batch) && forall k :: 0 <= k < |batch| ==> IsValidEmail(batch[k])
    ensures var r := FailedEmails(batch, outcomes);
            NoDuplicates(r) && forall k :: 0 <= k < |r| ==> IsValidEmail(r[k])
  {
    var r := FailedEmails(batch, outcomes);
    FailedEmailsSpec(batch, outcomes);
    SubsequenceNoDuplicates(r, batch);
  }
}
