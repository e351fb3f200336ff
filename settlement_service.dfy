/**
 * `SettlementServiceImpl`: recomputing a group's settlements from its
 * expenses and replacing the stored ones, collecting a user's settlements
 * over the groups they belong to, and marking a settlement as paid.
 */
module SettlementService {
  import opened Wrappers
  import opened Seqs
  import opened Domain
  import opened Netting

  // ---------------------------------------------------------------------
  // The plan calculateSettlements computes, stated over users' balances.
  // ---------------------------------------------------------------------

  lemma {:induction false} UsersKeysIn(es: seq<Expense>)
    ensures KeysIn(Users(es), NetTable(es)) && NoDuplicates(Users(es))
  {
    UsersSpec(es);
  }

  /** The debtor list of a group with these expenses: every user who owes, most negative first. */
  ghost function DebtorsOf(es: seq<Expense>): seq<Entry>
  {
    UsersKeysIn(es);
    Debtors(Users(es), NetTable(es))
  }

  /** The creditor list of a group with these expenses: every user who is owed, largest first. */
  ghost function CreditorsOf(es: seq<Expense>): seq<Entry>
  {
    UsersKeysIn(es);
    Creditors(Users(es), NetTable(es))
  }

  /** The debtors are exactly the users with a negative net balance, each with that balance. */
  lemma {:induction false} DebtorsOfSpec(es: seq<Expense>)
    ensures forall e :: e in DebtorsOf(es) <==> e.balance == Net(es, e.user) && e.balance < 0
  {
    UsersSpec(es);
    forall e ensures e in DebtorsOf(es) <==> e.balance == Net(es, e.user) && e.balance < 0 {
      if !Involved(es, e.user) {
        UninvolvedNetZero(es, e.user);
      }
    }
  }

  /** The creditors are exactly the users with a positive net balance, each with that balance. */
  lemma {:induction false} CreditorsOfSpec(es: seq<Expense>)
    ensures forall e :: e in CreditorsOf(es) <==> e.balance == Net(es, e.user) && e.balance > 0
  {
    UsersSpec(es);
    forall e ensures e in CreditorsOf(es) <==> e.balance == Net(es, e.user) && e.balance > 0 {
      if !Involved(es, e.user) {
        UninvolvedNetZero(es, e.user);
      }
    }
  }

  /** The two lists meet what the matching loop needs: signs, one entry per user, no user on both. */
  lemma {:induction false} PlanInput(es: seq<Expense>)
    ensures GreedyInput(DebtorsOf(es), CreditorsOf(es))
  {
    var d, c := DebtorsOf(es), CreditorsOf(es);
    DebtorsOfSpec(es);
    CreditorsOfSpec(es);
    assert forall k :: 0 <= k < |d| ==> d[k] in d;
    assert forall k :: 0 <= k < |c| ==> c[k] in c;
  }

  /**
   * What the saved settlements promise about the group's balances: transfers
   * go from users who owe to users who are owed, nobody pays or receives more
   * than their balance, one side is settled in full, the total moved is the
   * smaller of total debt and total credit, and there are fewer transfers
   * than debtors and creditors together.
   */
  ghost predicate SettlesBalances(es: seq<Expense>, ts: seq<Transfer>)
  {
    && (forall k :: 0 <= k < |ts| ==> ts[k].amount > 0 && Net(es, ts[k].from) < 0 && Net(es, ts[k].to) > 0)
    && (forall u :: Net(es, u) < 0 ==> Outflow(ts, u) <= -Net(es, u))
    && (forall u :: Net(es, u) > 0 ==> Inflow(ts, u) <= Net(es, u))
    && (forall u :: Net(es, u) >= 0 ==> Outflow(ts, u) == 0)
    && (forall u :: Net(es, u) <= 0 ==> Inflow(ts, u) == 0)
    && ((forall u :: Net(es, u) < 0 ==> Outflow(ts, u) == -Net(es, u)) ||
        (forall u :: Net(es, u) > 0 ==> Inflow(ts, u) == Net(es, u)))
    && Settled(ts) == Min(TotalDebt(DebtorsOf(es)), TotalCredit(CreditorsOf(es)))
    && (DebtorsOf(es) == [] || CreditorsOf(es) == [] ==> ts == [])
    && (ts != [] ==> |ts| <= |DebtorsOf(es)| + |CreditorsOf(es)| - 1)
  }

  /** A user who sends none of the transfers pays nothing. */
  lemma {:induction false} OutflowOfNonSender(ts: seq<Transfer>, u: UserId)
    requires forall k :: 0 <= k < |ts| ==> ts[k].from != u
    ensures Outflow(ts, u) == 0
  {
    if ts != [] {
      OutflowOfNonSender(ts[..|ts| - 1], u);
    }
  }

  /** A user who receives none of the transfers gets nothing. */
  lemma {:induction false} InflowOfNonReceiver(ts: seq<Transfer>, u: UserId)
    requires forall k :: 0 <= k < |ts| ==> ts[k].to != u
    ensures Inflow(ts, u) == 0
  {
    if ts != [] {
      InflowOfNonReceiver(ts[..|ts| - 1], u);
    }
  }

  /** Each transfer of the loop goes from a user who owes to a user who is owed. */
  lemma {:induction false} TransferEnds(es: seq<Expense>, ts: seq<Transfer>)
    requires ValidTransfers(DebtorsOf(es), CreditorsOf(es), ts)
    ensures forall k :: 0 <= k < |ts| ==> ts[k].amount > 0 && Net(es, ts[k].from) < 0 && Net(es, ts[k].to) > 0
  {
    var d, c := DebtorsOf(es), CreditorsOf(es);
    DebtorsOfSpec(es);
    CreditorsOfSpec(es);
    forall k | 0 <= k < |ts| ensures Net(es, ts[k].from) < 0 && Net(es, ts[k].to) > 0 {
      var a :| 0 <= a < |d| && d[a].user == ts[k].from;
      var b :| 0 <= b < |c| && c[b].user == ts[k].to;
      assert d[a] in d && c[b] in c;
    }
  }

  /** The per-debtor guarantees of the loop, restated per user. */
  lemma {:induction false} DebtorFlows(es: seq<Expense>, ts: seq<Transfer>)
    requires forall k :: 0 <= k < |ts| ==> Net(es, ts[k].from) < 0
    requires var d := DebtorsOf(es); forall k :: 0 <= k < |d| ==> Outflow(ts, d[k].user) <= -d[k].balance
    ensures forall u :: Net(es, u) < 0 ==> Outflow(ts, u) <= -Net(es, u)
    ensures forall u :: Net(es, u) >= 0 ==> Outflow(ts, u) == 0
    ensures (forall k :: 0 <= k < |DebtorsOf(es)| ==> Outflow(ts, DebtorsOf(es)[k].user) == -DebtorsOf(es)[k].balance) ==>
            forall u :: Net(es, u) < 0 ==> Outflow(ts, u) == -Net(es, u)
  {
    var d := DebtorsOf(es);
    DebtorsOfSpec(es);
    forall u | Net(es, u) < 0
      ensures Outflow(ts, u) <= -Net(es, u)
      ensures (forall k :: 0 <= k < |d| ==> Outflow(ts, d[k].user) == -d[k].balance) ==> Outflow(ts, u) == -Net(es, u)
    {
      assert Entry(u, Net(es, u)) in d;
      var k :| 0 <= k < |d| && d[k] == Entry(u, Net(es, u));
    }
    forall u | Net(es, u) >= 0 ensures Outflow(ts, u) == 0 {
      OutflowOfNonSender(ts, u);
    }
  }

  /** The per-creditor guarantees of the loop, restated per user. */
  lemma {:induction false} CreditorFlows(es: seq<Expense>, ts: seq<Transfer>)
    requires forall k :: 0 <= k < |ts| ==> Net(es, ts[k].to) > 0
    requires var c := CreditorsOf(es); forall k :: 0 <= k < |c| ==> Inflow(ts, c[k].user) <= c[k].balance
    ensures forall u :: Net(es, u) > 0 ==> Inflow(ts, u) <= Net(es, u)
    ensures forall u :: Net(es, u) <= 0 ==> Inflow(ts, u) == 0
    ensures (forall k :: 0 <= k < |CreditorsOf(es)| ==> Inflow(ts, CreditorsOf(es)[k].user) == CreditorsOf(es)[k].balance) ==>
            forall u :: Net(es, u) > 0 ==> Inflow(ts, u) == Net(es, u)
  {
    var c := CreditorsOf(es);
    CreditorsOfSpec(es);
    forall u | Net(es, u) > 0
      ensures Inflow(ts, u) <= Net(es, u)
      ensures (forall k :: 0 <= k < |c| ==> Inflow(ts, c[k].user) == c[k].balance) ==> Inflow(ts, u) == Net(es, u)
    {
      assert Entry(u, Net(es, u)) in c;
      var k :| 0 <= k < |c| && c[k] == Entry(u, Net(es, u));
    }
    forall u | Net(es, u) <= 0 ensures Inflow(ts, u) == 0 {
      InflowOfNonReceiver(ts, u);
    }
  }

  /** The matching loop's guarantees over the two lists give the user-level plan. */
  lemma {:induction false} PlanSpec(es: seq<Expense>, ts: seq<Transfer>)
    requires var d, c := DebtorsOf(es), CreditorsOf(es);
      && ValidTransfers(d, c, ts)
      && (|d| == 0 || |c| == 0 ==> ts == [])
      && (|d| > 0 && |c| > 0 ==> |ts| <= |d| + |c| - 1)
      && (forall k :: 0 <= k < |d| ==> Outflow(ts, d[k].user) <= -d[k].balance)
      && (forall k :: 0 <= k < |c| ==> Inflow(ts, c[k].user) <= c[k].balance)
      && ((forall k :: 0 <= k < |d| ==> Outflow(ts, d[k].user) == -d[k].balance) ||
          (forall k :: 0 <= k < |c| ==> Inflow(ts, c[k].user) == c[k].balance))
      && Settled(ts) == Min(TotalDebt(d), TotalCredit(c))
    ensures SettlesBalances(es, ts)
  {
    TransferEnds(es, ts);
    DebtorFlows(es, ts);
    CreditorFlows(es, ts);
  }

  // ---------------------------------------------------------------------
  // The stored settlements.
  // ---------------------------------------------------------------------

  /** The transfers a list of settlements records. */
  function TransfersOf(ss: seq<Settlement>): (ts: seq<Transfer>)
    ensures |ts| == |ss|
    ensures forall k :: 0 <= k < |ss| ==>
      ts[k].from == ss[k].fromUser && ts[k].to == ss[k].toUser && ts[k].amount == ss[k].amount
  {
    seq(|ss|, k requires 0 <= k < |ss| => Transfer(ss[k].fromUser, ss[k].toUser, ss[k].amount))
  }

  /** Replacing a group's settlements by new ones with ids from the counter on keeps the tables consistent. */
  lemma {:induction false} ReplaceKeepsConsistent(users: seq<User>, groups: seq<Group>, memberships: seq<Membership>,
                                                 expenses: seq<Expense>, stored: seq<Settlement>, nextId: int,
                                                 g: GroupId, added: seq<Settlement>)
    requires Consistent(users, groups, memberships, expenses, stored, nextId)
    requires forall k :: 0 <= k < |added| ==> added[k].id == nextId + k
    ensures Consistent(users, groups, memberships, expenses,
                       Filter(stored, SettlementNotInGroup(g)) + added, nextId + |added|)
  {
    var kept := Filter(stored, SettlementNotInGroup(g));
    FilterKeepsKeysDistinct(stored, SettlementNotInGroup(g), SettlementKey);
    assert forall k :: 0 <= k < |kept| ==> kept[k].id < nextId;
    var all := kept + added;
    forall a, b | 0 <= a < b < |all| ensures SettlementKey(all[a]) != SettlementKey(all[b]) {
      if b < |kept| {
        assert all[a] == kept[a] && all[b] == kept[b];
      } else if a < |kept| {
        assert all[a] == kept[a] && all[b] == added[b - |kept|];
      } else {
        assert all[a] == added[a - |kept|] && all[b] == added[b - |kept|];
      }
    }
  }

  /**
   * After the replacement, the group's stored settlements are exactly the
   * added list, and every other group's are what they were.
   */
  lemma {:induction false} ReplaceGroupSettlements(stored: seq<Settlement>, g: GroupId, added: seq<Settlement>, h: GroupId)
    requires forall k :: 0 <= k < |added| ==> added[k].group == g
    ensures h == g ==> Filter(Filter(stored, SettlementNotInGroup(g)) + added, SettlementInGroup(h)) == added
    ensures h != g ==> Filter(Filter(stored, SettlementNotInGroup(g)) + added, SettlementInGroup(h)) ==
                       Filter(stored, SettlementInGroup(h))
  {
    var kept := Filter(stored, SettlementNotInGroup(g));
    FilterAppend(kept, added, SettlementInGroup(h));
    FilterAllOrNone(kept, SettlementInGroup(h));
    FilterAllOrNone(added, SettlementInGroup(h));
    if h != g {
      FilterFilter(stored, SettlementNotInGroup(g), SettlementInGroup(h));
    }
  }

  /** Every settlement a user with these expenses' balances would be shown exists as a stored user. */
  lemma {:induction false} TransferUsersExist(users: seq<User>, expenses: seq<Expense>, es: seq<Expense>, u: UserId)
    requires ExpensesResolve(users, expenses)
    requires forall k :: 0 <= k < |es| ==> es[k] in expenses
    requires Net(es, u) != 0
    ensures UserExists(users, u)
  {
    if !Involved(es, u) {
      UninvolvedNetZero(es, u);
    }
    var k :| 0 <= k < |es| && (es[k].paidBy == u || InParticipants(es[k].participants, u));
    var m :| 0 <= m < |expenses| && expenses[m] == es[k];
    assert ExpenseResolves(users, expenses[m]);
  }

  // ---------------------------------------------------------------------
  // The service operations.
  // ---------------------------------------------------------------------

  /** The settlements saved for a group's transfers: fresh ids from `first` on, unpaid. */
  function Recorded(ts: seq<Transfer>, g: GroupId, first: int): (r: seq<Settlement>)
    ensures TransfersOf(r) == ts
    ensures forall k :: 0 <= k < |r| ==> r[k].id == first + k && r[k].group == g && !r[k].paid
  {
    var r := seq(|ts|, k requires 0 <= k < |ts| => Settlement(first + k, ts[k].from, ts[k].to, ts[k].amount, g, false));
    assert TransfersOf(r) == ts;
    r
  }

  /** Every user a plan moves money between exists: the `findById(...).get()` lookups succeed. */
  lemma {:induction false} PlanUsersExist(users: seq<User>, expenses: seq<Expense>, es: seq<Expense>, ts: seq<Transfer>)
    requires ExpensesResolve(users, expenses)
    requires forall k :: 0 <= k < |es| ==> es[k] in expenses
    requires SettlesBalances(es, ts)
    ensures forall k :: 0 <= k < |ts| ==> UserExists(users, ts[k].from) && UserExists(users, ts[k].to)
  {
    forall k | 0 <= k < |ts| ensures UserExists(users, ts[k].from) && UserExists(users, ts[k].to) {
      TransferUsersExist(users, expenses, es, ts[k].from);
      TransferUsersExist(users, expenses, es, ts[k].to);
    }
  }

  /**
   * The computing half of `calculateSettlements`: fold the expenses into
   * balances, split them into sorted debtors and creditors, and match them.
   */
  method PlanTransfers(expenses: seq<Expense>) returns (ts: seq<Transfer>)
    ensures SettlesBalances(expenses, ts)
  {
    var net, order := NetBalances(expenses);
    UsersSpec(expenses);
    var positive := Creditors(order, net);
    var negative := Debtors(order, net);
    PlanInput(expenses);
    ts := Greedy(negative, positive);
    PlanSpec(expenses, ts);
  }

  /**
   * The storing half of `calculateSettlements`: delete the group's stored
   * settlements, then save one new unpaid settlement per transfer.
   */
  method SaveGroupSettlements(db: Database, groupId: GroupId, ts: seq<Transfer>) returns (saved: seq<Settlement>)
    requires db.Valid()
    modifies db
    ensures db.Valid()
    ensures db.users == old(db.users) && db.groups == old(db.groups) &&
            db.memberships == old(db.memberships) && db.expenses == old(db.expenses)
    ensures saved == Recorded(ts, groupId, old(db.nextId))
    ensures db.settlements == Filter(old(db.settlements), SettlementNotInGroup(groupId)) + saved
    ensures db.nextId == old(db.nextId) + |saved|
  {
    saved := Recorded(ts, groupId, db.nextId);
    ghost var stored, first := db.settlements, db.nextId;
    db.settlements := Filter(db.settlements, SettlementNotInGroup(groupId));
    db.settlements := db.settlements + saved;
    db.nextId := db.nextId + |saved|;
    ReplaceKeepsConsistent(db.users, db.groups, db.memberships, db.expenses, stored, first, groupId, saved);
  }

  /**
   * `calculateSettlements(groupId)`: an unknown group fails with "Group not
   * found" and changes nothing; otherwise the group's expenses are netted,
   * matched, and the group's stored settlements are replaced by the result.
   */
  method CalculateSettlements(db: Database, groupId: GroupId) returns (r: Result<seq<Settlement>, Exception>)
    requires db.Valid()
    modifies db
    ensures db.Valid()
    ensures db.users == old(db.users) && db.groups == old(db.groups) &&
            db.memberships == old(db.memberships) && db.expenses == old(db.expenses)
    ensures r.Err? <==> FindFirst(db.groups, GroupIdIs(groupId)).None?
    ensures r.Err? ==> r.error == Runtime("Group not found") &&
                       db.settlements == old(db.settlements) && db.nextId == old(db.nextId)
    ensures r.Ok? ==> SettlesBalances(ExpensesOfGroup(db.expenses, groupId), TransfersOf(r.value))
    ensures r.Ok? ==> forall k :: 0 <= k < |r.value| ==>
                        r.value[k].id == old(db.nextId) + k && r.value[k].group == groupId && !r.value[k].paid &&
                        UserExists(db.users, r.value[k].fromUser) && UserExists(db.users, r.value[k].toUser)
    ensures r.Ok? ==> db.settlements == Filter(old(db.settlements), SettlementNotInGroup(groupId)) + r.value &&
                      db.nextId == old(db.nextId) + |r.value|
  {
    var group := FindFirst(db.groups, GroupIdIs(groupId));
    if group.None? {
      return Err(Runtime("Group not found"));
    }
    var expenses := ExpensesOfGroup(db.expenses, groupId);
    var ts := PlanTransfers(expenses);
    PlanUsersExist(db.users, db.expenses, expenses, ts);
    var saved := SaveGroupSettlements(db, groupId, ts);
    r := Ok(saved);
  }

  /** A settlement `getSettlementsForUser` may report: it involves the user, in a group they belong to that has an expense. */
  predicate Reportable(memberships: seq<Membership>, expenses: seq<Expense>, u: UserId, s: Settlement)
  {
    SettlementInvolves(u)(s) && IsMember(memberships, u, s.group) && ExpensesOfGroup(expenses, s.group) != []
  }

  /** One of the first `i` memberships names the group. */
  predicate AmongFirst(mine: seq<Membership>, i: int, g: GroupId)
  {
    exists m :: 0 <= m < i && m < |mine| && mine[m].group == g
  }

  /**
   * The loop's invariant once the first `i` memberships are processed: the
   * collected settlements are reportable, stored, and from those groups; and
   * every stored reportable settlement of those groups has been collected.
   */
  ghost predicate Collected(stored: seq<Settlement>, memberships: seq<Membership>, expenses: seq<Expense>,
                            u: UserId, mine: seq<Membership>, i: int, all: seq<Settlement>)
  {
    && (forall k :: 0 <= k < |all| ==>
          Reportable(memberships, expenses, u, all[k]) && all[k] in stored && AmongFirst(mine, i, all[k].group))
    && (forall s :: s in stored && Reportable(memberships, expenses, u, s) && AmongFirst(mine, i, s.group) ==> s in all)
  }

  /** The user's memberships, in table order, naming distinct groups. */
  ghost predicate MembershipsOf(memberships: seq<Membership>, u: UserId, mine: seq<Membership>)
  {
    && mine == Filter(memberships, MembershipOfUser(u))
    && (forall a, b :: 0 <= a < b < |mine| ==> mine[a].group != mine[b].group)
  }

  /** The user's memberships name distinct groups. */
  lemma {:induction false} MembershipGroupsDistinct(memberships: seq<Membership>, u: UserId)
    requires NoDuplicateMemberships(memberships)
    ensures MembershipsOf(memberships, u, Filter(memberships, MembershipOfUser(u)))
  {
    var mine := Filter(memberships, MembershipOfUser(u));
    FilterKeepsKeysDistinct(memberships, MembershipOfUser(u), MembershipKey);
    forall a, b | 0 <= a < b < |mine| ensures mine[a].group != mine[b].group {
      assert MembershipKey(mine[a]) != MembershipKey(mine[b]);
    }
  }

  /** A group without expenses is skipped: nothing of it is reportable. */
  lemma {:induction false} CollectSkipped(stored: seq<Settlement>, memberships: seq<Membership>, expenses: seq<Expense>,
                                          u: UserId, mine: seq<Membership>, i: int, all: seq<Settlement>)
    requires 0 <= i < |mine|
    requires Collected(stored, memberships, expenses, u, mine, i, all)
    requires ExpensesOfGroup(expenses, mine[i].group) == []
    ensures Collected(stored, memberships, expenses, u, mine, i + 1, all)
  {
    forall s | s in stored && Reportable(memberships, expenses, u, s) && AmongFirst(mine, i + 1, s.group)
      ensures s in all
    {
      assert AmongFirst(mine, i, s.group);
    }
  }

  /**
   * A group with expenses is recalculated: its stored settlements are
   * replaced by `added`, and those involving the user are collected.
   */
  lemma {:induction false} CollectRecalculated(stored: seq<Settlement>, memberships: seq<Membership>, expenses: seq<Expense>,
                                               u: UserId, mine: seq<Membership>, i: int, all: seq<Settlement>,
                                               added: seq<Settlement>, stored': seq<Settlement>, all': seq<Settlement>)
    requires MembershipsOf(memberships, u, mine) && 0 <= i < |mine|
    requires Collected(stored, memberships, expenses, u, mine, i, all)
    requires ExpensesOfGroup(expenses, mine[i].group) != []
    requires forall k :: 0 <= k < |added| ==> added[k].group == mine[i].group
    requires stored' == Filter(stored, SettlementNotInGroup(mine[i].group)) + added
    requires all' == all + Filter(Filter(stored', SettlementInvolves(u)), SettlementInGroup(mine[i].group))
    ensures Collected(stored', memberships, expenses, u, mine, i + 1, all')
  {
    var g := mine[i].group;
    var kept := Filter(stored, SettlementNotInGroup(g));
    var picked := Filter(Filter(stored', SettlementInvolves(u)), SettlementInGroup(g));
    assert mine[i] in memberships;
    var mi :| 0 <= mi < |memberships| && memberships[mi] == mine[i];
    assert IsMember(memberships, u, g);
    forall k | 0 <= k < |all'|
      ensures Reportable(memberships, expenses, u, all'[k]) && all'[k] in stored' && AmongFirst(mine, i + 1, all'[k].group)
    {
      if k < |all| {
        var x := all[k];
        assert all'[k] == x;
        var m :| 0 <= m < i && m < |mine| && mine[m].group == x.group;
        assert x.group != g;
        assert x in kept;
      } else {
        var x := picked[k - |all|];
        assert all'[k] == x;
        assert x in Filter(stored', SettlementInvolves(u));
        assert x.group == g;
      }
    }
    forall x | x in stored' && Reportable(memberships, expenses, u, x) && AmongFirst(mine, i + 1, x.group)
      ensures x in all'
    {
      if x.group == g {
        assert x in Filter(stored', SettlementInvolves(u));
        assert x in picked;
      } else {
        var m :| 0 <= m < i + 1 && m < |mine| && mine[m].group == x.group;
        assert m < i;
        assert x in stored;
        assert x in all;
      }
    }
  }

  /** Every reportable settlement's group is named by one of the user's memberships. */
  lemma {:induction false} ReportableAmongMine(memberships: seq<Membership>, expenses: seq<Expense>, u: UserId,
                                               mine: seq<Membership>, s: Settlement)
    requires mine == Filter(memberships, MembershipOfUser(u))
    requires Reportable(memberships, expenses, u, s)
    ensures AmongFirst(mine, |mine|, s.group)
  {
    var k :| 0 <= k < |memberships| && memberships[k].user == u && memberships[k].group == s.group;
    assert memberships[k] in mine;
    var m :| 0 <= m < |mine| && mine[m] == memberships[k];
  }

  /** A member of the group is named by one of the user's memberships. */
  lemma {:induction false} MemberAmongMine(memberships: seq<Membership>, u: UserId, mine: seq<Membership>, g: GroupId)
    requires mine == Filter(memberships, MembershipOfUser(u))
    requires IsMember(memberships, u, g)
    ensures AmongFirst(mine, |mine|, g)
  {
    var k :| 0 <= k < |memberships| && memberships[k].user == u && memberships[k].group == g;
    assert memberships[k] in mine;
    var m :| 0 <= m < |mine| && mine[m] == memberships[k];
  }

  /**
   * The settlements a recalculation leaves for a group: a plan for its
   * expenses, every one unpaid and with an id no earlier row had.
   */
  ghost predicate Replanned(es: seq<Expense>, gs: seq<Settlement>, first: int)
  {
    SettlesBalances(es, TransfersOf(gs)) && forall k :: 0 <= k < |gs| ==> !gs[k].paid && gs[k].id >= first
  }

  /** A settlement whose group `getSettlementsForUser` does not recalculate for this user. */
  function Untouched(memberships: seq<Membership>, expenses: seq<Expense>, u: UserId): Settlement -> bool
  {
    (s: Settlement) => !(IsMember(memberships, u, s.group) && ExpensesOfGroup(expenses, s.group) != [])
  }

  /** What one membership adds to the result: the group's settlements involving the user, if it has an expense. */
  function GroupListing(stored: seq<Settlement>, expenses: seq<Expense>, u: UserId, g: GroupId): seq<Settlement>
  {
    if ExpensesOfGroup(expenses, g) != [] then Filter(Filter(stored, SettlementInvolves(u)), SettlementInGroup(g))
    else []
  }

  /** The result over these memberships, group after group in membership order. */
  function Listed(stored: seq<Settlement>, expenses: seq<Expense>, u: UserId, mine: seq<Membership>): seq<Settlement>
    decreases |mine|
  {
    if mine == [] then []
    else Listed(stored, expenses, u, mine[..|mine| - 1]) + GroupListing(stored, expenses, u, mine[|mine| - 1].group)
  }

  /** The listing depends on the table only through the rows of the listed groups. */
  lemma {:induction false} ListedFrame(a: seq<Settlement>, b: seq<Settlement>, expenses: seq<Expense>, u: UserId,
                                       mine: seq<Membership>)
    requires forall j :: 0 <= j < |mine| ==>
               Filter(a, SettlementInGroup(mine[j].group)) == Filter(b, SettlementInGroup(mine[j].group))
    ensures Listed(a, expenses, u, mine) == Listed(b, expenses, u, mine)
    decreases |mine|
  {
    if mine != [] {
      var init, g := mine[..|mine| - 1], mine[|mine| - 1].group;
      assert forall j :: 0 <= j < |init| ==> init[j] == mine[j];
      ListedFrame(a, b, expenses, u, init);
      FilterCommute(a, SettlementInvolves(u), SettlementInGroup(g));
      FilterCommute(b, SettlementInvolves(u), SettlementInGroup(g));
    }
  }

  /**
   * The table's state once the first `i` memberships are processed: each of
   * those groups with an expense holds a fresh plan, and the rows of groups
   * that are not recalculated at all are the rows there were, in order.
   */
  ghost predicate Refreshed(before: seq<Settlement>, first: int, stored: seq<Settlement>, memberships: seq<Membership>,
                            expenses: seq<Expense>, u: UserId, mine: seq<Membership>, i: int)
  {
    && (forall g :: AmongFirst(mine, i, g) && ExpensesOfGroup(expenses, g) != [] ==>
          Replanned(ExpensesOfGroup(expenses, g), Filter(stored, SettlementInGroup(g)), first))
    && Filter(stored, Untouched(memberships, expenses, u)) == Filter(before, Untouched(memberships, expenses, u))
  }

  /** Skipping a group without expenses keeps the table's state and adds nothing to the listing. */
  lemma {:induction false} RefreshSkipped(before: seq<Settlement>, first: int, stored: seq<Settlement>,
                                          memberships: seq<Membership>, expenses: seq<Expense>, u: UserId,
                                          mine: seq<Membership>, i: int)
    requires 0 <= i < |mine|
    requires Refreshed(before, first, stored, memberships, expenses, u, mine, i)
    requires ExpensesOfGroup(expenses, mine[i].group) == []
    ensures Refreshed(before, first, stored, memberships, expenses, u, mine, i + 1)
    ensures Listed(stored, expenses, u, mine[..i + 1]) == Listed(stored, expenses, u, mine[..i])
  {
    assert mine[..i + 1][..i] == mine[..i];
    forall g | AmongFirst(mine, i + 1, g) && ExpensesOfGroup(expenses, g) != []
      ensures AmongFirst(mine, i, g)
    {
      var m :| 0 <= m < i + 1 && m < |mine| && mine[m].group == g;
    }
  }

  /** Replacing group `g`'s rows leaves the rows of every other group as they were. */
  lemma {:induction false} OtherGroupKept(stored: seq<Settlement>, g: GroupId, added: seq<Settlement>, h: GroupId)
    requires forall k :: 0 <= k < |added| ==> added[k].group == g
    requires h != g
    ensures Filter(Filter(stored, SettlementNotInGroup(g)) + added, SettlementInGroup(h)) ==
            Filter(stored, SettlementInGroup(h))
  {
    ReplaceGroupSettlements(stored, g, added, h);
  }

  /** Recalculating the `i`-th group gives it a fresh plan and keeps the plans of the groups before it. */
  lemma {:induction false} RecalculatedPlans(first: int, stored: seq<Settlement>, expenses: seq<Expense>,
                                             mine: seq<Membership>, i: int, added: seq<Settlement>,
                                             stored': seq<Settlement>)
    requires 0 <= i < |mine|
    requires forall g :: AmongFirst(mine, i, g) && ExpensesOfGroup(expenses, g) != [] ==>
               Replanned(ExpensesOfGroup(expenses, g), Filter(stored, SettlementInGroup(g)), first)
    requires forall k :: 0 <= k < |added| ==> added[k].group == mine[i].group
    requires Replanned(ExpensesOfGroup(expenses, mine[i].group), added, first)
    requires stored' == Filter(stored, SettlementNotInGroup(mine[i].group)) + added
    ensures forall g :: AmongFirst(mine, i + 1, g) && ExpensesOfGroup(expenses, g) != [] ==>
              Replanned(ExpensesOfGroup(expenses, g), Filter(stored', SettlementInGroup(g)), first)
  {
    var g := mine[i].group;
    forall h | AmongFirst(mine, i + 1, h) && ExpensesOfGroup(expenses, h) != []
      ensures Replanned(ExpensesOfGroup(expenses, h), Filter(stored', SettlementInGroup(h)), first)
    {
      if h == g {
        ReplaceGroupSettlements(stored, g, added, g);
      } else {
        var m :| 0 <= m < i + 1 && m < |mine| && mine[m].group == h;
        assert AmongFirst(mine, i, h);
        OtherGroupKept(stored, g, added, h);
      }
    }
  }

  /** Recalculating a group the user belongs to, which has an expense, keeps the untouched rows. */
  lemma {:induction false} RecalculatedUntouched(stored: seq<Settlement>, memberships: seq<Membership>,
                                                 expenses: seq<Expense>, u: UserId, g: GroupId, added: seq<Settlement>)
    requires IsMember(memberships, u, g) && ExpensesOfGroup(expenses, g) != []
    requires forall k :: 0 <= k < |added| ==> added[k].group == g
    ensures Filter(Filter(stored, SettlementNotInGroup(g)) + added, Untouched(memberships, expenses, u)) ==
            Filter(stored, Untouched(memberships, expenses, u))
  {
    var keep := Untouched(memberships, expenses, u);
    FilterAppend(Filter(stored, SettlementNotInGroup(g)), added, keep);
    FilterAllOrNone(added, keep);
    FilterFilter(stored, SettlementNotInGroup(g), keep);
  }

  /** Recalculating the `i`-th group leaves the listing of the groups before it as it was. */
  lemma {:induction false} RecalculatedListing(stored: seq<Settlement>, expenses: seq<Expense>, u: UserId,
                                               memberships: seq<Membership>, mine: seq<Membership>, i: int,
                                               added: seq<Settlement>, stored': seq<Settlement>)
    requires MembershipsOf(memberships, u, mine) && 0 <= i < |mine|
    requires forall k :: 0 <= k < |added| ==> added[k].group == mine[i].group
    requires stored' == Filter(stored, SettlementNotInGroup(mine[i].group)) + added
    ensures Listed(stored', expenses, u, mine[..i + 1]) ==
            Listed(stored, expenses, u, mine[..i]) + GroupListing(stored', expenses, u, mine[i].group)
  {
    var g := mine[i].group;
    var init := mine[..i];
    assert mine[..i + 1][..i] == init;
    forall j | 0 <= j < |init|
      ensures Filter(stored', SettlementInGroup(init[j].group)) == Filter(stored, SettlementInGroup(init[j].group))
    {
      assert init[j] == mine[j] && mine[j].group != g;
      OtherGroupKept(stored, g, added, init[j].group);
    }
    ListedFrame(stored', stored, expenses, u, init);
  }

  /**
   * Recalculating the next group gives it a fresh plan, keeps the plans of
   * the groups before it and the untouched rows, and the listing grows by
   * the group's rows that involve the user.
   */
  lemma {:induction false} RefreshRecalculated(before: seq<Settlement>, first: int, stored: seq<Settlement>,
                                               memberships: seq<Membership>, expenses: seq<Expense>, u: UserId,
                                               mine: seq<Membership>, i: int, added: seq<Settlement>,
                                               stored': seq<Settlement>)
    requires MembershipsOf(memberships, u, mine) && 0 <= i < |mine|
    requires Refreshed(before, first, stored, memberships, expenses, u, mine, i)
    requires ExpensesOfGroup(expenses, mine[i].group) != []
    requires forall k :: 0 <= k < |added| ==> added[k].group == mine[i].group
    requires Replanned(ExpensesOfGroup(expenses, mine[i].group), added, first)
    requires stored' == Filter(stored, SettlementNotInGroup(mine[i].group)) + added
    ensures Refreshed(before, first, stored', memberships, expenses, u, mine, i + 1)
    ensures Listed(stored', expenses, u, mine[..i + 1]) ==
            Listed(stored, expenses, u, mine[..i]) + GroupListing(stored', expenses, u, mine[i].group)
  {
    assert mine[i] in memberships;
    var mi :| 0 <= mi < |memberships| && memberships[mi] == mine[i];
    RecalculatedPlans(first, stored, expenses, mine, i, added, stored');
    RecalculatedUntouched(stored, memberships, expenses, u, mine[i].group, added);
    RecalculatedListing(stored, expenses, u, memberships, mine, i, added, stored');
  }

  /**
   * One round of `getSettlementsForUser`'s loop, for the user's `i`-th
   * membership: a group with expenses is recalculated and its rows that
   * involve the user are appended; a group without is skipped.
   */
  method CollectGroup(db: Database, userId: UserId, mine: seq<Membership>, i: nat, all: seq<Settlement>,
                      ghost before: seq<Settlement>, ghost first: int) returns (all': seq<Settlement>)
    requires db.Valid() && MembershipsOf(db.memberships, userId, mine) && i < |mine|
    requires db.nextId >= first
    requires Collected(db.settlements, db.memberships, db.expenses, userId, mine, i, all)
    requires Refreshed(before, first, db.settlements, db.memberships, db.expenses, userId, mine, i)
    requires all == Listed(db.settlements, db.expenses, userId, mine[..i])
    modifies db
    ensures db.Valid()
    ensures db.users == old(db.users) && db.groups == old(db.groups) &&
            db.memberships == old(db.memberships) && db.expenses == old(db.expenses)
    ensures db.nextId >= first
    ensures Collected(db.settlements, db.memberships, db.expenses, userId, mine, i + 1, all')
    ensures Refreshed(before, first, db.settlements, db.memberships, db.expenses, userId, mine, i + 1)
    ensures all' == Listed(db.settlements, db.expenses, userId, mine[..i + 1])
  {
    ghost var stored := db.settlements;
    var groupId := mine[i].group;
    var groupExpenses := ExpensesOfGroup(db.expenses, groupId);
    if groupExpenses != [] {
      assert mine[i] in db.memberships;
      GroupOfMembershipExists(db.groups, db.memberships, mine[i]);
      var r := CalculateSettlements(db, groupId);
      var groupSettlements := Filter(Filter(db.settlements, SettlementInvolves(userId)), SettlementInGroup(groupId));
      all' := all + groupSettlements;
      CollectRecalculated(stored, db.memberships, db.expenses, userId, mine, i, all, r.value, db.settlements, all');
      RefreshRecalculated(before, first, stored, db.memberships, db.expenses, userId, mine, i, r.value, db.settlements);
    } else {
      all' := all;
      CollectSkipped(stored, db.memberships, db.expenses, userId, mine, i, all);
      RefreshSkipped(before, first, stored, db.memberships, db.expenses, userId, mine, i);
    }
  }

  /**
   * `getSettlementsForUser(userId)`: for each group the user belongs to that
   * has an expense, recalculate its settlements, then collect the group's
   * stored settlements that involve the user. The recalculation replaces
   * each such group's rows by a fresh unpaid plan, so a fetch forgets which
   * of them were marked paid; the rows of every other group are kept.
   */
  method GetSettlementsForUser(db: Database, userId: UserId) returns (all: seq<Settlement>)
    requires db.Valid()
    modifies db
    ensures db.Valid()
    ensures db.users == old(db.users) && db.groups == old(db.groups) &&
            db.memberships == old(db.memberships) && db.expenses == old(db.expenses)
    ensures db.nextId >= old(db.nextId)
    ensures all == Listed(db.settlements, db.expenses, userId, Filter(db.memberships, MembershipOfUser(userId)))
    ensures forall k :: 0 <= k < |all| ==>
              Reportable(db.memberships, db.expenses, userId, all[k]) && all[k] in db.settlements
    ensures forall s :: s in db.settlements && Reportable(db.memberships, db.expenses, userId, s) ==> s in all
    ensures forall g :: IsMember(db.memberships, userId, g) && ExpensesOfGroup(db.expenses, g) != [] ==>
              Replanned(ExpensesOfGroup(db.expenses, g), Filter(db.settlements, SettlementInGroup(g)), old(db.nextId))
    ensures Filter(db.settlements, Untouched(db.memberships, db.expenses, userId)) ==
            Filter(old(db.settlements), Untouched(db.memberships, db.expenses, userId))
  {
    var mine := Filter(db.memberships, MembershipOfUser(userId));
    MembershipGroupsDistinct(db.memberships, userId);
    all := [];
    var i := 0;
    while i < |mine|
      invariant 0 <= i <= |mine|
      invariant db.Valid()
      invariant db.users == old(db.users) && db.groups == old(db.groups) &&
                db.memberships == old(db.memberships) && db.expenses == old(db.expenses)
      invariant db.nextId >= old(db.nextId)
      invariant Collected(db.settlements, db.memberships, db.expenses, userId, mine, i, all)
      invariant Refreshed(old(db.settlements), old(db.nextId), db.settlements, db.memberships, db.expenses,
                          userId, mine, i)
      invariant all == Listed(db.settlements, db.expenses, userId, mine[..i])
    {
      all := CollectGroup(db, userId, mine, i, all, old(db.settlements), old(db.nextId));
      i := i + 1;
    }
    assert mine[..i] == mine;
    forall s | s in db.settlements && Reportable(db.memberships, db.expenses, userId, s) ensures s in all {
      ReportableAmongMine(db.memberships, db.expenses, userId, mine, s);
    }
    forall g | IsMember(db.memberships, userId, g) && ExpensesOfGroup(db.expenses, g) != []
      ensures Replanned(ExpensesOfGroup(db.expenses, g), Filter(db.settlements, SettlementInGroup(g)), old(db.nextId))
    {
      MemberAmongMine(db.memberships, userId, mine, g);
    }
  }

  /** The table after `markSettlementAsPaid(id)`: the settlement with that id is paid, nothing else differs. */
  function MarkPaid(ss: seq<Settlement>, id: int): (r: seq<Settlement>)
    ensures |r| == |ss|
    ensures forall k :: 0 <= k < |ss| ==> r[k].paid == (ss[k].paid || ss[k].id == id)
    ensures forall k :: 0 <= k < |ss| ==> r[k].(paid := ss[k].paid) == ss[k]
  {
    seq(|ss|, k requires 0 <= k < |ss| => if ss[k].id == id then ss[k].(paid := true) else ss[k])
  }

  /** Marking a settlement paid twice is the same as marking it once. */
  lemma {:induction false} MarkPaidIdempotent(ss: seq<Settlement>, id: int)
    ensures MarkPaid(MarkPaid(ss, id), id) == MarkPaid(ss, id)
  {
    var once, twice := MarkPaid(ss, id), MarkPaid(MarkPaid(ss, id), id);
    forall k | 0 <= k < |ss| ensures twice[k] == once[k] {
      assert twice[k].(paid := once[k].paid) == once[k];
    }
  }

  /**
   * `markSettlementAsPaid(id)`: an unknown id fails with "Settlement not
   * found" and changes nothing; otherwise that settlement becomes paid.
   */
  method MarkSettlementAsPaid(db: Database, id: int) returns (r: Result<Done, Exception>)
    requires db.Valid()
    modifies db
    ensures db.Valid()
    ensures db.users == old(db.users) && db.groups == old(db.groups) && db.memberships == old(db.memberships) &&
            db.expenses == old(db.expenses) && db.nextId == old(db.nextId)
    ensures r.Err? <==> FindFirst(old(db.settlements), SettlementIdIs(id)).None?
    ensures r.Err? ==> r.error == Runtime("Settlement not found") && db.settlements == old(db.settlements)
    ensures r.Ok? ==> db.settlements == MarkPaid(old(db.settlements), id)
  {
    var found := FirstIndex(db.settlements, SettlementIdIs(id));
    if found.None? {
      return Err(Runtime("Settlement not found"));
    }
    var k := found.value;
    var settlement := db.settlements[k];
    ghost var before := db.settlements;
    db.settlements := db.settlements[k := settlement.(paid := true)];
    forall m | 0 <= m < |before| ensures db.settlements[m] == MarkPaid(before, id)[m] {
      if m != k {
        assert SettlementKey(before[m]) != SettlementKey(before[k]);
      }
    }
    assert SettlementKey(before[k]) == id;
    forall a, b | 0 <= a < b < |db.settlements|
      ensures SettlementKey(db.settlements[a]) != SettlementKey(db.settlements[b])
    {
      assert SettlementKey(before[a]) != SettlementKey(before[b]);
    }
    r := Ok(Done);
  }
}
