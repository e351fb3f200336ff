/**
 * Debt netting inside `calculateSettlements`: the fold of a group's expenses
 * into per-user net balances, the split of those balances into sorted
 * creditor and debtor lists, and the greedy two-index matching loop that
 * turns them into transfers. Amounts are integer cents.
 */
module Netting {
  import opened Domain
  import opened Seqs

  // ---------------------------------------------------------------------
  // What a user's net balance is, stated over a list of expenses.
  // Every fold is written from the back, so that extending a prefix by one
  // expense is one unfolding.
  // ---------------------------------------------------------------------

  /** Total the user paid: the amounts of the expenses they paid for. */
  function Paid(es: seq<Expense>, u: UserId): int
  {
    if es == [] then 0
    else Paid(es[..|es| - 1], u) + (if es[|es| - 1].paidBy == u then es[|es| - 1].amount else 0)
  }

  /** The shares a list of participant records assigns to the user. */
  function SharesOf(ps: seq<Participant>, u: UserId): int
  {
    if ps == [] then 0
    else SharesOf(ps[..|ps| - 1], u) + (if ps[|ps| - 1].user == u then ps[|ps| - 1].share else 0)
  }

  /** Total the user owes: their shares over every expense. */
  function Owed(es: seq<Expense>, u: UserId): int
  {
    if es == [] then 0
    else Owed(es[..|es| - 1], u) + SharesOf(es[|es| - 1].participants, u)
  }

  /** Net balance: positive when the user is owed money, negative when they owe. */
  function Net(es: seq<Expense>, u: UserId): int
  {
    Paid(es, u) - Owed(es, u)
  }

  predicate InParticipants(ps: seq<Participant>, u: UserId)
  {
    exists k :: 0 <= k < |ps| && ps[k].user == u
  }

  /** The user paid for, or takes part in, one of the expenses. */
  predicate Involved(es: seq<Expense>, u: UserId)
  {
    exists k :: 0 <= k < |es| && (es[k].paidBy == u || InParticipants(es[k].participants, u))
  }

  /** `put` into the balance map appends a key the first time it is seen. */
  function AddKey(order: seq<UserId>, u: UserId): seq<UserId>
  {
    if u in order then order else order + [u]
  }

  function AddParticipantKeys(order: seq<UserId>, ps: seq<Participant>): seq<UserId>
  {
    if ps == [] then order
    else AddKey(AddParticipantKeys(order, ps[..|ps| - 1]), ps[|ps| - 1].user)
  }

  /**
   * The users of the balance map in the order their keys are first put:
   * per expense, its participants in order, then its payer.
   */
  function Users(es: seq<Expense>): seq<UserId>
  {
    if es == [] then []
    else AddKey(AddParticipantKeys(Users(es[..|es| - 1]), es[|es| - 1].participants), es[|es| - 1].paidBy)
  }

  /** The balance map the fold builds, as a function of the expenses. */
  ghost function NetTable(es: seq<Expense>): map<UserId, int>
  {
    map u | u in Users(es) :: Net(es, u)
  }

  lemma {:induction false} AddParticipantKeysSpec(order: seq<UserId>, ps: seq<Participant>)
    requires NoDuplicates(order)
    ensures NoDuplicates(AddParticipantKeys(order, ps))
    ensures forall u :: u in AddParticipantKeys(order, ps) <==> u in order || InParticipants(ps, u)
  {
    if ps != [] {
      var init := ps[..|ps| - 1];
      AddParticipantKeysSpec(order, init);
      forall u ensures InParticipants(ps, u) <==> InParticipants(init, u) || ps[|ps| - 1].user == u {
        if InParticipants(ps, u) {
          var k :| 0 <= k < |ps| && ps[k].user == u;
          if k < |ps| - 1 { assert init[k] == ps[k]; }
        }
        if InParticipants(init, u) {
          var k :| 0 <= k < |init| && init[k].user == u;
          assert ps[k] == init[k];
        }
      }
    }
  }

  /** The fold's keys are duplicate-free and are exactly the involved users. */
  lemma {:induction false} UsersSpec(es: seq<Expense>)
    ensures NoDuplicates(Users(es))
    ensures forall u :: u in Users(es) <==> Involved(es, u)
  {
    if es != [] {
      var init, e := es[..|es| - 1], es[|es| - 1];
      UsersSpec(init);
      AddParticipantKeysSpec(Users(init), e.participants);
      forall u ensures Involved(es, u) <==> Involved(init, u) || e.paidBy == u || InParticipants(e.participants, u) {
        if Involved(es, u) {
          var k :| 0 <= k < |es| && (es[k].paidBy == u || InParticipants(es[k].participants, u));
          if k < |es| - 1 { assert init[k] == es[k]; }
        }
        if Involved(init, u) {
          var k :| 0 <= k < |init| && (init[k].paidBy == u || InParticipants(init[k].participants, u));
          assert es[k] == init[k];
        }
      }
    }
  }

  /** Users who take part in no expense have a zero balance. */
  lemma {:induction false} UninvolvedNetZero(es: seq<Expense>, u: UserId)
    requires !Involved(es, u)
    ensures Net(es, u) == 0
  {
    if es != [] {
      var init, e := es[..|es| - 1], es[|es| - 1];
      UninvolvedNetZero(init, u);
      NotParticipantNoShare(e.participants, u);
    }
  }

  lemma {:induction false} NotParticipantNoShare(ps: seq<Participant>, u: UserId)
    requires !InParticipants(ps, u)
    ensures SharesOf(ps, u) == 0
  {
    if ps != [] {
      NotParticipantNoShare(ps[..|ps| - 1], u);
    }
  }

  // ---------------------------------------------------------------------
  // The fold itself.
  // ---------------------------------------------------------------------

  function GetOrZero(m: map<UserId, int>, u: UserId): int
  {
    if u in m then m[u] else 0
  }

  /**
   * Folds the expenses into the balance map: each participant's share is
   * subtracted, then the payer's amount is added. `order` is the order in
   * which keys entered the map.
   */
  method NetBalances(es: seq<Expense>) returns (net: map<UserId, int>, order: seq<UserId>)
    ensures order == Users(es)
    ensures net == NetTable(es)
  {
    net, order := map[], [];
    for k := 0 to |es|
      invariant order == Users(es[..k])
      invariant forall u :: u in net <==> u in order
      invariant forall u :: GetOrZero(net, u) == Net(es[..k], u)
    {
      var e := es[k];
      assert es[..k + 1][..k] == es[..k];
      ghost var before := net;
      var ps := e.participants;
      for m := 0 to |ps|
        invariant order == AddParticipantKeys(Users(es[..k]), ps[..m])
        invariant forall u :: u in net <==> u in order
        invariant forall u :: GetOrZero(net, u) == Net(es[..k], u) - SharesOf(ps[..m], u)
      {
        assert ps[..m + 1][..m] == ps[..m];
        var participantId := ps[m].user;
        net := net[participantId := GetOrZero(net, participantId) - ps[m].share];
        order := AddKey(order, participantId);
      }
      assert ps[..|ps|] == ps;
      net := net[e.paidBy := GetOrZero(net, e.paidBy) + e.amount];
      order := AddKey(order, e.paidBy);
    }
    assert es[..|es|] == es;
    NetTableFromTotals(es, net);
  }

  /** A map whose keys are the fold's users and whose values are the balances is the table. */
  lemma NetTableFromTotals(es: seq<Expense>, net: map<UserId, int>)
    requires forall u :: u in net <==> u in Users(es)
    requires forall u :: GetOrZero(net, u) == Net(es, u)
    ensures net == NetTable(es)
  {
    var table := NetTable(es);
    forall u ensures u in net <==> u in table {
    }
    forall u | u in net ensures net[u] == table[u] {
      assert GetOrZero(net, u) == Net(es, u);
    }
  }

  // ---------------------------------------------------------------------
  // Creditor and debtor lists.
  // ---------------------------------------------------------------------

  /** One `Map.Entry<Long, BigDecimal>` of the balance map. */
  datatype Entry = Entry(user: UserId, balance: int)

  predicate InOrder(a: Entry, b: Entry, descending: bool)
  {
    if descending then a.balance >= b.balance else a.balance <= b.balance
  }

  /** Each entry is in order with the next one. */
  predicate SortedBy(s: seq<Entry>, descending: bool)
  {
    forall k :: 0 < k < |s| ==> InOrder(s[k - 1], s[k], descending)
  }

  predicate DistinctUsers(s: seq<Entry>)
  {
    forall a, b :: 0 <= a < b < |s| ==> s[a].user != s[b].user
  }

  /** Adjacent order is order between any two positions. */
  lemma {:induction false} SortedByPairwise(s: seq<Entry>, descending: bool, a: int, b: int)
    requires SortedBy(s, descending) && 0 <= a < b < |s|
    ensures InOrder(s[a], s[b], descending)
    decreases b - a
  {
    if a + 1 < b { SortedByPairwise(s, descending, a + 1, b); }
  }

  function Insert(x: Entry, s: seq<Entry>, descending: bool): (r: seq<Entry>)
    requires SortedBy(s, descending)
    ensures SortedBy(r, descending)
    ensures multiset(r) == multiset(s) + multiset{x}
    ensures |r| == |s| + 1 && (r[0] == x || (|s| > 0 && r[0] == s[0]))
  {
    if s == [] || InOrder(x, s[0], descending) then
      [x] + s
    else
      var rest := Insert(x, s[1..], descending);
      assert s == [s[0]] + s[1..];
      [s[0]] + rest
  }

  /** A stable sort on the balance, ascending or descending. */
  function Sort(s: seq<Entry>, descending: bool): (r: seq<Entry>)
    ensures SortedBy(r, descending)
    ensures multiset(r) == multiset(s)
  {
    if s == [] then []
    else
      assert s == [s[0]] + s[1..];
      Insert(s[0], Sort(s[1..], descending), descending)
  }

  /** Every key of the order is a key of the map. */
  predicate KeysIn(order: seq<UserId>, net: map<UserId, int>)
  {
    forall k :: 0 <= k < |order| ==> order[k] in net
  }

  /** The balance map's entries, in key order. */
  function Entries(order: seq<UserId>, net: map<UserId, int>): (r: seq<Entry>)
    requires KeysIn(order, net)
    ensures |r| == |order|
    ensures forall k :: 0 <= k < |r| ==> r[k] == Entry(order[k], net[order[k]])
  {
    seq(|order|, k requires 0 <= k < |order| => Entry(order[k], net[order[k]]))
  }

  predicate IsCredit(e: Entry) { e.balance > 0 }
  predicate IsDebit(e: Entry) { e.balance < 0 }

  /** `positive`: strictly positive balances, largest first. */
  function Creditors(order: seq<UserId>, net: map<UserId, int>): (r: seq<Entry>)
    requires KeysIn(order, net) && NoDuplicates(order)
    ensures SortedBy(r, true) && DistinctUsers(r)
    ensures forall e :: e in r <==> e.user in order && e.user in net && e.balance == net[e.user] && e.balance > 0
  {
    var r := Sort(Filter(Entries(order, net), IsCredit), true);
    SelectionSpec(order, net, IsCredit, r);
    r
  }

  /** `negative`: strictly negative balances, most negative first. */
  function Debtors(order: seq<UserId>, net: map<UserId, int>): (r: seq<Entry>)
    requires KeysIn(order, net) && NoDuplicates(order)
    ensures SortedBy(r, false) && DistinctUsers(r)
    ensures forall e :: e in r <==> e.user in order && e.user in net && e.balance == net[e.user] && e.balance < 0
  {
    var r := Sort(Filter(Entries(order, net), IsDebit), false);
    SelectionSpec(order, net, IsDebit, r);
    r
  }

  /** Entries of a duplicate-free key order are duplicate-free. */
  lemma EntriesNoDuplicates(order: seq<UserId>, net: map<UserId, int>)
    requires KeysIn(order, net) && NoDuplicates(order)
    ensures NoDuplicates(Entries(order, net))
  {
    var all := Entries(order, net);
    forall a, b | 0 <= a < b < |all| ensures all[a] != all[b] {
      assert all[a].user == order[a] && all[b].user == order[b];
    }
  }

  /** The entries are exactly the pairs of a key and its balance. */
  lemma EntriesMembers(order: seq<UserId>, net: map<UserId, int>, e: Entry)
    requires KeysIn(order, net)
    ensures e in Entries(order, net) <==> e.user in order && e.user in net && e.balance == net[e.user]
  {
    var all := Entries(order, net);
    if e.user in order && e.user in net && e.balance == net[e.user] {
      var k :| 0 <= k < |order| && order[k] == e.user;
      assert all[k] == e;
    }
  }

  /** Two lists with the same multiset have the same members. */
  lemma SameMembers<T>(r: seq<T>, f: seq<T>)
    requires multiset(r) == multiset(f)
    ensures forall e :: e in r <==> e in f
  {
    forall e ensures e in r <==> e in f {
      assert e in r <==> e in multiset(r);
      assert e in f <==> e in multiset(f);
    }
  }

  lemma SelectionSpec(order: seq<UserId>, net: map<UserId, int>, p: Entry -> bool, r: seq<Entry>)
    requires KeysIn(order, net) && NoDuplicates(order)
    requires multiset(r) == multiset(Filter(Entries(order, net), p))
    ensures DistinctUsers(r)
    ensures forall e :: e in r <==> e.user in order && e.user in net && e.balance == net[e.user] && p(e)
  {
    var all := Entries(order, net);
    var f := Filter(all, p);
    SameMembers(r, f);
    forall e ensures e in r <==> e.user in order && e.user in net && e.balance == net[e.user] && p(e) {
      EntriesMembers(order, net, e);
    }
    EntriesNoDuplicates(order, net);
    FilterNoDuplicates(all, p);
    NoDuplicatesMultiset(f);
    NoDuplicatesMultiset(r);
    forall a, b | 0 <= a < b < |r| ensures r[a].user != r[b].user {
      assert r[a] in r && r[b] in r;
    }
  }

  // ---------------------------------------------------------------------
  // The greedy matching loop.
  // ---------------------------------------------------------------------

  /** A settlement before it is saved: `from` pays `amount` to `to`. */
  datatype Transfer = Transfer(from: UserId, to: UserId, amount: int)

  /** What the user pays over a list of transfers. */
  function Outflow(ts: seq<Transfer>, u: UserId): int
  {
    if ts == [] then 0
    else Outflow(ts[..|ts| - 1], u) + (if ts[|ts| - 1].from == u then ts[|ts| - 1].amount else 0)
  }

  /** What the user receives over a list of transfers. */
  function Inflow(ts: seq<Transfer>, u: UserId): int
  {
    if ts == [] then 0
    else Inflow(ts[..|ts| - 1], u) + (if ts[|ts| - 1].to == u then ts[|ts| - 1].amount else 0)
  }

  /** The total moved by a list of transfers. */
  function Settled(ts: seq<Transfer>): int
  {
    if ts == [] then 0 else Settled(ts[..|ts| - 1]) + ts[|ts| - 1].amount
  }

  /** What a list of debtors owes in total. */
  function TotalDebt(debtors: seq<Entry>): int
  {
    if debtors == [] then 0 else TotalDebt(debtors[..|debtors| - 1]) - debtors[|debtors| - 1].balance
  }

  /** What a list of creditors is owed in total. */
  function TotalCredit(creditors: seq<Entry>): int
  {
    if creditors == [] then 0 else TotalCredit(creditors[..|creditors| - 1]) + creditors[|creditors| - 1].balance
  }

  predicate HasUser(s: seq<Entry>, u: UserId)
  {
    exists k :: 0 <= k < |s| && s[k].user == u
  }

  function Min(a: int, b: int): int { if a <= b then a else b }

  /** A prefix of the creditors plus part of the next one is owed no more than all of them. */
  lemma {:induction false} CreditPrefixBound(creditors: seq<Entry>, j: int, x: int)
    requires forall k :: 0 <= k < |creditors| ==> creditors[k].balance > 0
    requires 0 <= j < |creditors| && 0 <= x <= creditors[j].balance
    ensures TotalCredit(creditors[..j]) + x <= TotalCredit(creditors)
  {
    var n := |creditors| - 1;
    assert creditors[..n][..j] == creditors[..j];
    if j < n {
      CreditPrefixBound(creditors[..n], j, x);
    }
  }

  /** A prefix of the debtors plus part of the next one owes no more than all of them. */
  lemma {:induction false} DebtPrefixBound(debtors: seq<Entry>, i: int, x: int)
    requires forall k :: 0 <= k < |debtors| ==> debtors[k].balance < 0
    requires 0 <= i < |debtors| && 0 <= x <= -debtors[i].balance
    ensures TotalDebt(debtors[..i]) + x <= TotalDebt(debtors)
  {
    var n := |debtors| - 1;
    assert debtors[..n][..i] == debtors[..i];
    if i < n {
      DebtPrefixBound(debtors[..n], i, x);
    }
  }

  /**
   * What the debtor at `k` has paid so far, read off the loop's state: all of
   * its debt before `i`, the part already covered at `i`, nothing after.
   */
  function DebtorPaid(debtors: seq<Entry>, negative: seq<Entry>, i: int, k: int): int
    requires 0 <= k < |debtors| == |negative|
  {
    if k < i then -debtors[k].balance
    else if k == i then negative[i].balance - debtors[i].balance
    else 0
  }

  /** What the creditor at `k` has received so far. */
  function CreditorReceived(creditors: seq<Entry>, positive: seq<Entry>, j: int, k: int): int
    requires 0 <= k < |creditors| == |positive|
  {
    if k < j then creditors[k].balance
    else if k == j then creditors[j].balance - positive[j].balance
    else 0
  }

  /** The working list keeps the users of the sorted list and differs from it only at `i`. */
  predicate DebtorsShape(debtors: seq<Entry>, negative: seq<Entry>, i: int)
  {
    && |negative| == |debtors| && 0 <= i <= |debtors|
    && (forall k :: 0 <= k < |debtors| ==> debtors[k].balance < 0 && negative[k].user == debtors[k].user)
    && (forall k :: i < k < |debtors| ==> negative[k] == debtors[k])
    && (i < |debtors| ==> debtors[i].balance <= negative[i].balance < 0)
  }

  /** The working list keeps the users of the sorted list and differs from it only at `j`. */
  predicate CreditorsShape(creditors: seq<Entry>, positive: seq<Entry>, j: int)
  {
    && |positive| == |creditors| && 0 <= j <= |creditors|
    && (forall k :: 0 <= k < |creditors| ==> creditors[k].balance > 0 && positive[k].user == creditors[k].user)
    && (forall k :: j < k < |creditors| ==> positive[k] == creditors[k])
    && (j < |creditors| ==> 0 < positive[j].balance <= creditors[j].balance)
  }

  /**
   * The debtor side of the matching loop's invariant: each debtor has paid
   * what the state says, and the transfers add up to the debts settled so far.
   */
  ghost predicate DebtorsInvariant(debtors: seq<Entry>, negative: seq<Entry>, i: int, ts: seq<Transfer>)
  {
    && DebtorsShape(debtors, negative, i)
    && (forall k :: 0 <= k < |debtors| ==> Outflow(ts, debtors[k].user) == DebtorPaid(debtors, negative, i, k))
    && Settled(ts) == TotalDebt(debtors[..i]) + (if i < |debtors| then negative[i].balance - debtors[i].balance else 0)
  }

  /** The creditor side of the matching loop's invariant, symmetric to the debtor side. */
  ghost predicate CreditorsInvariant(creditors: seq<Entry>, positive: seq<Entry>, j: int, ts: seq<Transfer>)
  {
    && CreditorsShape(creditors, positive, j)
    && (forall k :: 0 <= k < |creditors| ==> Inflow(ts, creditors[k].user) == CreditorReceived(creditors, positive, j, k))
    && Settled(ts) == TotalCredit(creditors[..j]) + (if j < |creditors| then creditors[j].balance - positive[j].balance else 0)
  }

  /** Appending a transfer changes the flows of its two users only. */
  lemma FlowsStep(ts: seq<Transfer>, t: Transfer, u: UserId)
    ensures Outflow(ts + [t], u) == Outflow(ts, u) + (if t.from == u then t.amount else 0)
    ensures Inflow(ts + [t], u) == Inflow(ts, u) + (if t.to == u then t.amount else 0)
    ensures Settled(ts + [t]) == Settled(ts) + t.amount
  {
    var ts' := ts + [t];
    assert ts'[..|ts'| - 1] == ts;
  }

  lemma DebtorsStep(debtors: seq<Entry>, negative: seq<Entry>, i: int, ts: seq<Transfer>, t: Transfer,
                    negative': seq<Entry>, i': int)
    requires DebtorsInvariant(debtors, negative, i, ts) && DistinctUsers(debtors)
    requires i < |debtors| && t.from == negative[i].user && 0 < t.amount <= -negative[i].balance
    requires var left := -negative[i].balance - t.amount;
             && negative' == (if left == 0 then negative else negative[i := Entry(negative[i].user, -left)])
             && i' == (if left == 0 then i + 1 else i)
    ensures DebtorsInvariant(debtors, negative', i', ts + [t])
  {
    FlowsStep(ts, t, t.from);
    forall k | 0 <= k < |debtors|
      ensures Outflow(ts + [t], debtors[k].user) == DebtorPaid(debtors, negative', i', k)
    {
      FlowsStep(ts, t, debtors[k].user);
    }
    assert debtors[..i + 1][..i] == debtors[..i];
  }

  lemma CreditorsStep(creditors: seq<Entry>, positive: seq<Entry>, j: int, ts: seq<Transfer>, t: Transfer,
                      positive': seq<Entry>, j': int)
    requires CreditorsInvariant(creditors, positive, j, ts) && DistinctUsers(creditors)
    requires j < |creditors| && t.to == positive[j].user && 0 < t.amount <= positive[j].balance
    requires var left := positive[j].balance - t.amount;
             && positive' == (if left == 0 then positive else positive[j := Entry(positive[j].user, left)])
             && j' == (if left == 0 then j + 1 else j)
    ensures CreditorsInvariant(creditors, positive', j', ts + [t])
  {
    FlowsStep(ts, t, t.to);
    forall k | 0 <= k < |creditors|
      ensures Inflow(ts + [t], creditors[k].user) == CreditorReceived(creditors, positive', j', k)
    {
      FlowsStep(ts, t, creditors[k].user);
    }
    assert creditors[..j + 1][..j] == creditors[..j];
  }

  /** What the matching loop needs of its two lists. */
  predicate GreedyInput(debtors: seq<Entry>, creditors: seq<Entry>)
  {
    && (forall k :: 0 <= k < |debtors| ==> debtors[k].balance < 0)
    && (forall k :: 0 <= k < |creditors| ==> creditors[k].balance > 0)
    && DistinctUsers(debtors) && DistinctUsers(creditors)
    && (forall a, b :: 0 <= a < |debtors| && 0 <= b < |creditors| ==> debtors[a].user != creditors[b].user)
  }

  /** Every transfer moves a positive amount from a debtor to a different creditor. */
  predicate ValidTransfers(debtors: seq<Entry>, creditors: seq<Entry>, ts: seq<Transfer>)
  {
    forall k :: 0 <= k < |ts| ==>
      ts[k].amount > 0 && ts[k].from != ts[k].to &&
      HasUser(debtors, ts[k].from) && HasUser(creditors, ts[k].to)
  }

  /** The whole invariant of the matching loop. */
  ghost predicate GreedyInvariant(debtors: seq<Entry>, creditors: seq<Entry>,
                                  negative: seq<Entry>, positive: seq<Entry>, i: int, j: int, ts: seq<Transfer>)
  {
    && DebtorsInvariant(debtors, negative, i, ts)
    && CreditorsInvariant(creditors, positive, j, ts)
    && ValidTransfers(debtors, creditors, ts)
    && (|debtors| == 0 || |creditors| == 0 ==> ts == [])
    && |ts| <= i + j
    && (i == |debtors| && j == |creditors| && |ts| > 0 ==> |ts| <= i + j - 1)
  }

  /** The invariant holds before the first round. */
  lemma GreedyInit(debtors: seq<Entry>, creditors: seq<Entry>)
    requires GreedyInput(debtors, creditors)
    ensures GreedyInvariant(debtors, creditors, debtors, creditors, 0, 0, [])
  {
  }

  /** One round of the loop keeps the invariant and advances at least one index. */
  lemma GreedyStep(debtors: seq<Entry>, creditors: seq<Entry>,
                   negative: seq<Entry>, positive: seq<Entry>, i: int, j: int, ts: seq<Transfer>, t: Transfer,
                   negative': seq<Entry>, positive': seq<Entry>, i': int, j': int)
    requires GreedyInput(debtors, creditors)
    requires GreedyInvariant(debtors, creditors, negative, positive, i, j, ts)
    requires i < |negative| && j < |positive|
    requires t == Transfer(negative[i].user, positive[j].user,
                           Min(Abs(negative[i].balance), positive[j].balance))
    requires var leftD := Abs(negative[i].balance) - t.amount;
             && negative' == (if leftD == 0 then negative else negative[i := Entry(negative[i].user, -leftD)])
             && i' == (if leftD == 0 then i + 1 else i)
    requires var leftC := positive[j].balance - t.amount;
             && positive' == (if leftC == 0 then positive else positive[j := Entry(positive[j].user, leftC)])
             && j' == (if leftC == 0 then j + 1 else j)
    ensures GreedyInvariant(debtors, creditors, negative', positive', i', j', ts + [t])
    ensures i' + j' > i + j
  {
    DebtorsStep(debtors, negative, i, ts, t, negative', i');
    CreditorsStep(creditors, positive, j, ts, t, positive', j');
    var ts' := ts + [t];
    assert HasUser(debtors, t.from) by { assert debtors[i].user == t.from; }
    assert HasUser(creditors, t.to) by { assert creditors[j].user == t.to; }
    assert ValidTransfers(debtors, creditors, ts') by {
      forall k | 0 <= k < |ts'|
        ensures ts'[k].amount > 0 && ts'[k].from != ts'[k].to &&
                HasUser(debtors, ts'[k].from) && HasUser(creditors, ts'[k].to)
      {
        if k == |ts| {
          assert ts'[k] == t;
        } else {
          assert ts'[k] == ts[k];
        }
      }
    }
  }

  /** When the loop stops, one side is paid off and nothing was overpaid. */
  lemma GreedyExit(debtors: seq<Entry>, creditors: seq<Entry>,
                   negative: seq<Entry>, positive: seq<Entry>, i: int, j: int, ts: seq<Transfer>)
    requires GreedyInput(debtors, creditors)
    requires GreedyInvariant(debtors, creditors, negative, positive, i, j, ts)
    requires !(i < |negative| && j < |positive|)
    ensures |debtors| > 0 && |creditors| > 0 ==> |ts| <= |debtors| + |creditors| - 1
    ensures forall k :: 0 <= k < |debtors| ==> Outflow(ts, debtors[k].user) <= -debtors[k].balance
    ensures forall k :: 0 <= k < |creditors| ==> Inflow(ts, creditors[k].user) <= creditors[k].balance
    ensures (forall k :: 0 <= k < |debtors| ==> Outflow(ts, debtors[k].user) == -debtors[k].balance) ||
            (forall k :: 0 <= k < |creditors| ==> Inflow(ts, creditors[k].user) == creditors[k].balance)
    ensures Settled(ts) == Min(TotalDebt(debtors), TotalCredit(creditors))
  {
    if i == |debtors| {
      assert debtors[..i] == debtors;
      if j < |creditors| {
        CreditPrefixBound(creditors, j, creditors[j].balance - positive[j].balance);
      } else {
        assert creditors[..j] == creditors;
      }
    } else {
      assert creditors[..j] == creditors;
      DebtPrefixBound(debtors, i, negative[i].balance - debtors[i].balance);
    }
  }

  /**
   * The matching loop: the debtor at `i` pays the creditor at `j` the smaller
   * of what the one owes and the other is owed; whoever is settled in full
   * is passed over, the other keeps the remainder.
   */
  method Greedy(debtors: seq<Entry>, creditors: seq<Entry>) returns (ts: seq<Transfer>)
    requires GreedyInput(debtors, creditors)
    ensures ValidTransfers(debtors, creditors, ts)
    ensures |debtors| == 0 || |creditors| == 0 ==> ts == []
    ensures |debtors| > 0 && |creditors| > 0 ==> |ts| <= |debtors| + |creditors| - 1
    ensures forall k :: 0 <= k < |debtors| ==> Outflow(ts, debtors[k].user) <= -debtors[k].balance
    ensures forall k :: 0 <= k < |creditors| ==> Inflow(ts, creditors[k].user) <= creditors[k].balance
    ensures (forall k :: 0 <= k < |debtors| ==> Outflow(ts, debtors[k].user) == -debtors[k].balance) ||
            (forall k :: 0 <= k < |creditors| ==> Inflow(ts, creditors[k].user) == creditors[k].balance)
    ensures Settled(ts) == Min(TotalDebt(debtors), TotalCredit(creditors))
  {
    var negative, positive := debtors, creditors;
    var i, j := 0, 0;
    ts := [];
    GreedyInit(debtors, creditors);
    while i < |negative| && j < |positive|
      invariant GreedyInvariant(debtors, creditors, negative, positive, i, j, ts)
      decreases |debtors| + |creditors| - i - j
    {
      ghost var negative0, positive0, i0, j0, ts0 := negative, positive, i, j, ts;
      var debtor, creditor := negative[i], positive[j];
      var debit := Abs(debtor.balance);
      var credit := creditor.balance;
      var settleAmount := Min(debit, credit);
      var t := Transfer(debtor.user, creditor.user, settleAmount);
      ts := ts + [t];

      var updatedDebtor := debit - settleAmount;
      var updatedCreditor := credit - settleAmount;
      if updatedDebtor == 0 {
        i := i + 1;
      } else {
        negative := negative[i := Entry(debtor.user, -updatedDebtor)];
      }
      if updatedCreditor == 0 {
        j := j + 1;
      } else {
        positive := positive[j := Entry(creditor.user, updatedCreditor)];
      }
      GreedyStep(debtors, creditors, negative0, positive0, i0, j0, ts0, t, negative, positive, i, j);
    }
    GreedyExit(debtors, creditors, negative, positive, i, j, ts);
  }
}
