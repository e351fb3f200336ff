/**
 * `ExpenseServiceImpl`: adding an expense split equally among its
 * participants (each share rounded half-up to the cent) and deleting an
 * expense.
 */
module ExpenseService {
  import opened Wrappers
  import opened Seqs
  import opened Text
  import opened Domain

  /**
   * `amount.divide(n, 2, HALF_UP)` on an amount in cents: the quotient
   * rounded to the nearest cent, halves away from zero. Within half a cent
   * of the exact quotient; a tie rounds up for a non-negative amount and
   * down for a negative one.
   */
  function HalfUpDiv(a: int, n: int): (q: int)
    requires n > 0
    ensures a >= 0 ==> -n <= 2 * (a - n * q) < n
    ensures a < 0 ==> -n < 2 * (a - n * q) <= n
  {
    if a >= 0 then NonNegativeHalfUp(a, n) else -NonNegativeHalfUp(-a, n)
  }

  function NonNegativeHalfUp(a: nat, n: int): (q: int)
    requires n > 0
    ensures -n <= 2 * (a - n * q) < n
  {
    var q := (2 * a + n) / (2 * n);
    assert 2 * a + n == (2 * n) * q + (2 * a + n) % (2 * n);
    q
  }

  /** The rounding contract determines the share: no other value meets it. */
  lemma {:induction false} HalfUpDivUnique(a: int, n: int, q: int)
    requires n > 0
    requires a >= 0 ==> -n <= 2 * (a - n * q) < n
    requires a < 0 ==> -n < 2 * (a - n * q) <= n
    ensures q == HalfUpDiv(a, n)
  {
    var p := HalfUpDiv(a, n);
    if q > p {
      MultiplyStrictlyGrows(n, p, q);
    } else if q < p {
      MultiplyStrictlyGrows(n, q, p);
    }
  }

  lemma MultiplyStrictlyGrows(n: int, x: int, y: int)
    requires n > 0 && x < y
    ensures n * x + n <= n * y
  {
    var d := y - x - 1;
    assert n * d >= 0;
    assert n * y == n * x + n * d + n;
  }

  /**
   * The shares need not add up to the amount: with an even number of
   * participants and an amount of half that many cents, each share rounds up
   * and together they exceed the amount by `n / 2` cents, the most the
   * rounding allows.
   */
  lemma ShareResidueReachesHalf(n: int)
    requires n > 0 && n % 2 == 0
    ensures n * HalfUpDiv(n / 2, n) - n / 2 == n / 2
    ensures forall a :: -n <= 2 * (n * HalfUpDiv(a, n) - a) <= n
  {
    HalfUpDivUnique(n / 2, n, 1);
  }

  /**
   * The participant records the stream map builds: one per id, in order,
   * duplicates kept, each with the same share; the first id with no stored
   * user fails with "User not found: <id>".
   */
  function BuildParticipants(users: seq<User>, ids: seq<UserId>, share: int): (r: Result<seq<Participant>, Exception>)
    ensures r.Ok? <==> forall k :: 0 <= k < |ids| ==> UserExists(users, ids[k])
    ensures r.Ok? ==> |r.value| == |ids| && forall k :: 0 <= k < |ids| ==> r.value[k] == Participant(ids[k], share)
    ensures r.Err? ==> exists k :: 0 <= k < |ids| && !UserExists(users, ids[k]) &&
                                   (forall j :: 0 <= j < k ==> UserExists(users, ids[j])) &&
                                   r.error == Runtime("User not found: " + IntToString(ids[k]))
  {
    if ids == [] then Ok([])
    else if FindFirst(users, UserIdIs(ids[0])).None? then Err(Runtime("User not found: " + IntToString(ids[0])))
    else
      match BuildParticipants(users, ids[1..], share)
      case Err(e) =>
        assert forall j :: 1 <= j < |ids| ==> ids[j] == ids[1..][j - 1];
        Err(e)
      case Ok(rest) =>
        assert forall j :: 1 <= j < |ids| ==> ids[j] == ids[1..][j - 1];
        Ok([Participant(ids[0], share)] + rest)
  }

  /** Appending an expense with a fresh id whose users are stored keeps the tables consistent. */
  lemma {:induction false} AppendExpenseKeepsConsistent(users: seq<User>, groups: seq<Group>, memberships: seq<Membership>,
                                                       expenses: seq<Expense>, settlements: seq<Settlement>, nextId: int,
                                                       e: Expense)
    requires Consistent(users, groups, memberships, expenses, settlements, nextId)
    requires e.id == nextId && ExpenseResolves(users, e)
    ensures Consistent(users, groups, memberships, expenses + [e], settlements, nextId + 1)
  {
    var all := expenses + [e];
    forall a, b | 0 <= a < b < |all| ensures ExpenseKey(all[a]) != ExpenseKey(all[b]) {
      if b < |expenses| {
        assert all[a] == expenses[a] && all[b] == expenses[b];
      } else {
        assert all[a] == expenses[a];
      }
    }
  }

  /**
   * `addExpense(groupId, payerId, expense, participantIds)`. The checks run
   * in order: the group exists, the payer exists, the participant list is
   * non-empty (the division), every participant exists. The first failing
   * one decides the error and nothing is saved; otherwise the expense is
   * saved with a new id, the group, the payer and one record per id.
   */
  method AddExpense(db: Database, groupId: GroupId, payerId: UserId, title: string, amount: int,
                    participantIds: seq<UserId>) returns (r: Result<Expense, Exception>)
    requires db.Valid()
    modifies db
    ensures db.Valid()
    ensures db.users == old(db.users) && db.groups == old(db.groups) &&
            db.memberships == old(db.memberships) && db.settlements == old(db.settlements)
    ensures FindFirst(db.groups, GroupIdIs(groupId)).None? ==> r == Err(Runtime("Group not found"))
    ensures FindFirst(db.groups, GroupIdIs(groupId)).Some? && !UserExists(db.users, payerId) ==>
              r == Err(Runtime("Payer not found"))
    ensures FindFirst(db.groups, GroupIdIs(groupId)).Some? && UserExists(db.users, payerId) && participantIds == [] ==>
              r == Err(Arithmetic(DivisionByZeroMessage))
    ensures FindFirst(db.groups, GroupIdIs(groupId)).Some? && UserExists(db.users, payerId) && participantIds != [] ==>
              (r.Ok? <==> forall k :: 0 <= k < |participantIds| ==> UserExists(db.users, participantIds[k])) &&
              (r.Err? ==> r.error == BuildParticipants(db.users, participantIds, 0).error)
    ensures r.Err? ==> db.expenses == old(db.expenses) && db.nextId == old(db.nextId)
    ensures r.Ok? ==>
              && r.value.id == old(db.nextId) && r.value.title == title && r.value.amount == amount
              && r.value.paidBy == payerId && r.value.group == groupId
              && |r.value.participants| == |participantIds|
              && (forall k :: 0 <= k < |participantIds| ==>
                    r.value.participants[k] == Participant(participantIds[k], HalfUpDiv(amount, |participantIds|)))
              && db.expenses == old(db.expenses) + [r.value]
              && db.nextId == old(db.nextId) + 1
  {
    var group := FindFirst(db.groups, GroupIdIs(groupId));
    if group.None? {
      return Err(Runtime("Group not found"));
    }
    var payer := FindFirst(db.users, UserIdIs(payerId));
    if payer.None? {
      return Err(Runtime("Payer not found"));
    }
    var participantCount := |participantIds|;
    if participantCount == 0 {
      return Err(Arithmetic(DivisionByZeroMessage));
    }
    var share := HalfUpDiv(amount, participantCount);
    var participants := BuildParticipants(db.users, participantIds, share);
    if participants.Err? {
      ErrorIgnoresShare(db.users, participantIds, share);
      return Err(participants.error);
    }
    var expense := Expense(db.nextId, title, amount, payerId, groupId, participants.value);
    ghost var expenses, first := db.expenses, db.nextId;
    db.expenses := db.expenses + [expense];
    db.nextId := db.nextId + 1;
    AppendExpenseKeepsConsistent(db.users, db.groups, db.memberships, expenses, db.settlements, first, expense);
    r := Ok(expense);
  }

  /** Which participant lookup fails does not depend on the share. */
  lemma {:induction false} ErrorIgnoresShare(users: seq<User>, ids: seq<UserId>, share: int)
    requires BuildParticipants(users, ids, share).Err?
    ensures BuildParticipants(users, ids, 0) == BuildParticipants(users, ids, share)
  {
    if ids != [] && FindFirst(users, UserIdIs(ids[0])).Some? {
      ErrorIgnoresShare(users, ids[1..], share);
    }
  }

  /** Removing the one expense with a given id keeps the tables consistent. */
  lemma {:induction false} RemoveExpenseKeepsConsistent(users: seq<User>, groups: seq<Group>, memberships: seq<Membership>,
                                                       expenses: seq<Expense>, settlements: seq<Settlement>, nextId: int,
                                                       id: int)
    requires Consistent(users, groups, memberships, expenses, settlements, nextId)
    ensures Consistent(users, groups, memberships, Filter(expenses, ExpenseIdIsNot(id)), settlements, nextId)
  {
    var kept := Filter(expenses, ExpenseIdIsNot(id));
    FilterKeepsKeysDistinct(expenses, ExpenseIdIsNot(id), ExpenseKey);
    forall k | 0 <= k < |kept| ensures kept[k].id < nextId && ExpenseResolves(users, kept[k]) {
      var m :| 0 <= m < |expenses| && expenses[m] == kept[k];
    }
  }

  /** With unique ids, cutting out the expense at the id's index is filtering the id out. */
  lemma {:induction false} RemoveAtIsFilter(expenses: seq<Expense>, id: int, k: int)
    requires KeysDistinct(expenses, ExpenseKey)
    requires 0 <= k < |expenses| && expenses[k].id == id
    ensures expenses[..k] + expenses[k + 1..] == Filter(expenses, ExpenseIdIsNot(id))
  {
    var p := ExpenseIdIsNot(id);
    assert expenses == expenses[..k] + ([expenses[k]] + expenses[k + 1..]);
    FilterAppend(expenses[..k], [expenses[k]] + expenses[k + 1..], p);
    FilterAppend([expenses[k]], expenses[k + 1..], p);
    forall j | 0 <= j < k ensures p(expenses[..k][j]) {
      assert ExpenseKey(expenses[j]) != ExpenseKey(expenses[k]);
    }
    var tail := expenses[k + 1..];
    forall j | 0 <= j < |tail| ensures p(tail[j]) {
      assert tail[j] == expenses[k + 1 + j];
      assert ExpenseKey(expenses[k]) != ExpenseKey(expenses[k + 1 + j]);
    }
    FilterAllOrNone(expenses[..k], p);
    FilterAllOrNone(expenses[k + 1..], p);
    FilterAllOrNone([expenses[k]], p);
  }

  /**
   * `deleteExpense(id)`: an unknown id fails with "Expense not found with
   * id: <id>" and changes nothing; otherwise that expense, and only it, is
   * removed (its participant records go with it).
   */
  method DeleteExpense(db: Database, id: int) returns (r: Result<Done, Exception>)
    requires db.Valid()
    modifies db
    ensures db.Valid()
    ensures db.users == old(db.users) && db.groups == old(db.groups) && db.memberships == old(db.memberships) &&
            db.settlements == old(db.settlements) && db.nextId == old(db.nextId)
    ensures r.Err? <==> forall k :: 0 <= k < |old(db.expenses)| ==> old(db.expenses)[k].id != id
    ensures r.Err? ==> r.error == Runtime("Expense not found with id: " + IntToString(id)) &&
                       db.expenses == old(db.expenses)
    ensures r.Ok? ==> db.expenses == Filter(old(db.expenses), ExpenseIdIsNot(id)) &&
                      |db.expenses| == |old(db.expenses)| - 1
  {
    var found := FirstIndex(db.expenses, ExpenseIdIs(id));
    if found.None? {
      return Err(Runtime("Expense not found with id: " + IntToString(id)));
    }
    var k := found.value;
    ghost var expenses := db.expenses;
    RemoveAtIsFilter(db.expenses, id, k);
    db.expenses := db.expenses[..k] + db.expenses[k + 1..];
    RemoveExpenseKeepsConsistent(db.users, db.groups, db.memberships, expenses, db.settlements, db.nextId, id);
    r := Ok(Done);
  }
}
