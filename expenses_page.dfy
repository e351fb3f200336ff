/**
 * The expenses page: the three filter tabs over the user's expenses, the
 * rule that shows an expense's delete control, and the request the page
 * builds from what the add-expense dialog submits.
 */
module ExpensesPage {
  import opened Wrappers
  import opened Seqs
  import opened AddExpenseModal

  /**
   * An expense as the page receives it. A missing `paidBy` object is `None`;
   * `participants` is `None` when the field is absent, and each participant
   * is the id of its `user` object, `None` when that object is missing.
   */
  datatype ExpenseView = ExpenseView(id: int, paidBy: Option<int>, participants: Option<seq<Option<int>>>)

  /** `expense.paidBy?.id === user.id`. */
  predicate PaidBy(e: ExpenseView, me: int)
  {
    e.paidBy == Some(me)
  }

  /** `expense.participants?.some(participant => participant.user?.id === user.id)`. */
  predicate SharedBy(e: ExpenseView, me: int)
  {
    e.participants.Some? && Some(me) in e.participants.value
  }

  /** The predicate of `filteredExpenses` for the tab key `filter`. */
  function Keeps(filter: string, me: int): ExpenseView -> bool
  {
    if filter == "paid" then (e: ExpenseView) => PaidBy(e, me)
    else if filter == "owe" then (e: ExpenseView) => !PaidBy(e, me) && SharedBy(e, me)
    else (e: ExpenseView) => true
  }

  /** `filteredExpenses`: the expenses the selected tab shows, in list order. */
  function FilteredExpenses(expenses: seq<ExpenseView>, filter: string, me: int): (r: seq<ExpenseView>)
    ensures forall k :: 0 <= k < |r| ==> r[k] in expenses
  {
    Filter(expenses, Keeps(filter, me))
  }

  /** The 'all' tab, and any key the page does not know, shows every expense in order. */
  lemma AllTabShowsEverything(expenses: seq<ExpenseView>, filter: string, me: int)
    requires filter != "paid" && filter != "owe"
    ensures FilteredExpenses(expenses, filter, me) == expenses
  {
    FilterAllOrNone(expenses, Keeps(filter, me));
  }

  /** The 'paid' tab shows exactly the listed expenses the user paid, in list order. */
  lemma PaidTab(expenses: seq<ExpenseView>, me: int)
    ensures var r := FilteredExpenses(expenses, "paid", me);
            && IsSubsequence(r, expenses)
            && forall e :: e in r <==> e in expenses && PaidBy(e, me)
  {
    var r := FilteredExpenses(expenses, "paid", me);
    FilterSubsequence(expenses, Keeps("paid", me));
    forall e | e in expenses && PaidBy(e, me) ensures e in r {
      var j :| 0 <= j < |expenses| && expenses[j] == e;
      var k := KeptAt(expenses, Keeps("paid", me), j);
    }
  }

  /**
   * The 'owe' tab shows exactly the listed expenses the user did not pay and
   * takes part in, in list order.
   */
  lemma OweTab(expenses: seq<ExpenseView>, me: int)
    ensures var r := FilteredExpenses(expenses, "owe", me);
            && IsSubsequence(r, expenses)
            && forall e :: e in r <==> e in expenses && !PaidBy(e, me) && SharedBy(e, me)
  {
    var r := FilteredExpenses(expenses, "owe", me);
    FilterSubsequence(expenses, Keeps("owe", me));
    forall e | e in expenses && !PaidBy(e, me) && SharedBy(e, me) ensures e in r {
      var j :| 0 <= j < |expenses| && expenses[j] == e;
      var k := KeptAt(expenses, Keeps("owe", me), j);
    }
    forall e | e in r ensures !PaidBy(e, me) && SharedBy(e, me) {
      var k :| 0 <= k < |r| && r[k] == e;
      var j := KeptFrom(expenses, Keeps("owe", me), k);
    }
  }

  /** No expense is shown on both the 'paid' and the 'owe' tab. */
  lemma PaidAndOweDisjoint(expenses: seq<ExpenseView>, me: int)
    ensures forall e :: e in FilteredExpenses(expenses, "paid", me) ==> e !in FilteredExpenses(expenses, "owe", me)
  {
    PaidTab(expenses, me);
    OweTab(expenses, me);
  }

  /** The delete control of an expense card: shown when `expense.paidBy?.id === currentUserId`. */
  predicate DeleteShown(e: ExpenseView, me: int)
  {
    PaidBy(e, me)
  }

  /**
   * The expenses that carry a delete control are exactly those on the 'paid'
   * tab, and none on the 'owe' tab carries one.
   */
  lemma DeletableIsPaidTab(expenses: seq<ExpenseView>, me: int)
    ensures forall e :: e in expenses && DeleteShown(e, me) <==> e in FilteredExpenses(expenses, "paid", me)
    ensures forall e :: e in FilteredExpenses(expenses, "owe", me) ==> !DeleteShown(e, me)
  {
    PaidTab(expenses, me);
    OweTab(expenses, me);
  }

  /** The `expense` object of the request body. */
  datatype ExpenseBody = ExpenseBody(title: string, amount: Amount, category: string, expenseDate: string)

  /** The `addExpense(groupId, payerId, { expense, participantIds })` call. */
  datatype AddExpenseRequest = AddExpenseRequest(groupId: int, payerId: int, expense: ExpenseBody,
                                                 participantIds: seq<int>)

  /**
   * `handleAddExpense`'s request for what the dialog submitted: the title is
   * the submission's description, the signed-in user pays, and the
   * participant ids go through as they are, repeats and order included.
   */
  function Payload(sub: Submission, me: int): (req: AddExpenseRequest)
    ensures req.payerId == me && req.groupId == sub.groupId
    ensures sub.title == sub.description ==> SubmissionFrom(req) == sub
  {
    AddExpenseRequest(sub.groupId, me,
                      ExpenseBody(sub.description, sub.amount, sub.category, sub.expenseDate),
                      sub.participantIds)
  }

  /** The submission a request was built from, read back field by field. */
  function SubmissionFrom(req: AddExpenseRequest): Submission
  {
    Submission(req.expense.title, req.expense.title, req.expense.amount, req.expense.category,
               req.groupId, req.expense.expenseDate, req.participantIds)
  }

  /** What the dialog sends always reaches the server whole: its title is never lost. */
  lemma DialogSubmissionRoundTrip(f: Form, me: int)
    requires ValidateForm(f).None?
    ensures SubmissionFrom(Payload(SubmissionOf(f), me)) == SubmissionOf(f)
  {
  }
}
