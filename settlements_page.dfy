/**
 * The settlements page: which settlements are owed to the signed-in user,
 * the per-group totals owed and to receive, and the grouping of the user's
 * settlements under the user's groups.
 */
module SettlementsPage {
  import opened Wrappers
  import opened Seqs

  /**
   * A settlement as the page receives it. A missing `fromUser`, `toUser` or
   * `group` object is `None`; amounts are in cents.
   */
  datatype SettlementView = SettlementView(id: int, fromUser: Option<int>, toUser: Option<int>,
                                           amount: int, group: Option<int>)

  datatype GroupView = GroupView(id: int, groupName: string)

  /** One card of the grouped view: a group and its settlements. */
  datatype GroupItem = GroupItem(group: GroupView, settlements: seq<SettlementView>)

  /** `settlement.toUser?.id === currentUserId`: a missing recipient is never the user. */
  predicate IsOwed(s: SettlementView, me: int)
  {
    s.toUser == Some(me)
  }

  /** What a settlement card shows: whether it is owed to the user, the settle button, the amount. */
  datatype Card = Card(owed: bool, settleButton: bool, shownAmount: nat)

  function SettlementCard(s: SettlementView, me: int): (c: Card)
    ensures c.settleButton <==> !IsOwed(s, me)
    ensures c.owed <==> s.toUser == Some(me)
    ensures c.shownAmount == Abs(s.amount) && (c.shownAmount == 0 <==> s.amount == 0)
  {
    Card(IsOwed(s, me), !IsOwed(s, me), Abs(s.amount))
  }

  /** `reduce((sum, s) => sum + Math.abs(s.amount), 0)`. */
  function SumAbs(ss: seq<SettlementView>): nat
  {
    if ss == [] then 0 else Abs(ss[0].amount) + SumAbs(ss[1..])
  }

  function FromUserIs(me: int): SettlementView -> bool { (s: SettlementView) => s.fromUser == Some(me) }
  function ToUserIs(me: int): SettlementView -> bool { (s: SettlementView) => s.toUser == Some(me) }

  /**
   * `totalOwed`: what the user pays, over the settlements the user pays. It
   * is at most the whole list's total, all of it when the user pays every
   * settlement, and nothing when the user pays none.
   */
  function TotalOwed(ss: seq<SettlementView>, me: int): (r: nat)
    ensures r <= SumAbs(ss)
    ensures (forall k :: 0 <= k < |ss| ==> ss[k].fromUser == Some(me)) ==> r == SumAbs(ss)
    ensures (forall k :: 0 <= k < |ss| ==> ss[k].fromUser != Some(me)) ==> r == 0
  {
    SumAbsFilter(ss, FromUserIs(me));
    FilterAllOrNone(ss, FromUserIs(me));
    SumAbs(Filter(ss, FromUserIs(me)))
  }

  /**
   * `totalToReceive`: what the user is paid, over the settlements paid to the
   * user; bounded in the same way.
   */
  function TotalToReceive(ss: seq<SettlementView>, me: int): (r: nat)
    ensures r <= SumAbs(ss)
    ensures (forall k :: 0 <= k < |ss| ==> ss[k].toUser == Some(me)) ==> r == SumAbs(ss)
    ensures (forall k :: 0 <= k < |ss| ==> ss[k].toUser != Some(me)) ==> r == 0
  {
    SumAbsFilter(ss, ToUserIs(me));
    FilterAllOrNone(ss, ToUserIs(me));
    SumAbs(Filter(ss, ToUserIs(me)))
  }

  /** Dropping settlements never raises the total. */
  lemma {:induction false} SumAbsFilter(ss: seq<SettlementView>, p: SettlementView -> bool)
    ensures SumAbs(Filter(ss, p)) <= SumAbs(ss)
  {
    if ss != [] {
      SumAbsFilter(ss[1..], p);
      var rest := Filter(ss[1..], p);
      if p(ss[0]) {
        assert ([ss[0]] + rest)[1..] == rest;
      }
    }
  }

  /** The fold adds up piecewise: a total over two lists is the sum of their totals. */
  lemma {:induction false} SumAbsAppend(a: seq<SettlementView>, b: seq<SettlementView>)
    ensures SumAbs(a + b) == SumAbs(a) + SumAbs(b)
  {
    if a == [] {
      assert a + b == b;
    } else {
      SumAbsAppend(a[1..], b);
      assert (a + b)[0] == a[0] && (a + b)[1..] == a[1..] + b;
    }
  }

  /** The user owes something exactly when some settlement the user pays has a non-zero amount. */
  lemma {:induction false} TotalOwedPositive(ss: seq<SettlementView>, me: int)
    ensures TotalOwed(ss, me) > 0 <==> exists k :: 0 <= k < |ss| && ss[k].fromUser == Some(me) && ss[k].amount != 0
  {
    if ss != [] {
      var tail := ss[1..];
      TotalOwedPositive(tail, me);
      var rest := Filter(tail, FromUserIs(me));
      if FromUserIs(me)(ss[0]) {
        assert Filter(ss, FromUserIs(me)) == [ss[0]] + rest;
        assert ([ss[0]] + rest)[1..] == rest;
      }
      if exists k :: 0 <= k < |tail| && tail[k].fromUser == Some(me) && tail[k].amount != 0 {
        var k :| 0 <= k < |tail| && tail[k].fromUser == Some(me) && tail[k].amount != 0;
        assert ss[k + 1] == tail[k];
      }
      if exists k :: 0 <= k < |ss| && ss[k].fromUser == Some(me) && ss[k].amount != 0 {
        var k :| 0 <= k < |ss| && ss[k].fromUser == Some(me) && ss[k].amount != 0;
        if k > 0 {
          assert tail[k - 1] == ss[k];
        }
      }
    }
  }

  /**
   * When the user never pays themself, what the user owes and is owed
   * together never exceed the whole list's total: no settlement is counted
   * twice.
   */
  lemma {:induction false} TotalsBounded(ss: seq<SettlementView>, me: int)
    requires forall k :: 0 <= k < |ss| ==> !(ss[k].fromUser == Some(me) && ss[k].toUser == Some(me))
    ensures TotalOwed(ss, me) + TotalToReceive(ss, me) <= SumAbs(ss)
  {
    if ss != [] {
      var tail := ss[1..];
      assert forall k :: 0 <= k < |tail| ==> tail[k] == ss[k + 1];
      TotalsBounded(tail, me);
      var owes, gets := Filter(tail, FromUserIs(me)), Filter(tail, ToUserIs(me));
      if FromUserIs(me)(ss[0]) {
        assert Filter(ss, FromUserIs(me)) == [ss[0]] + owes;
        assert ([ss[0]] + owes)[1..] == owes;
      }
      if ToUserIs(me)(ss[0]) {
        assert Filter(ss, ToUserIs(me)) == [ss[0]] + gets;
        assert ([ss[0]] + gets)[1..] == gets;
      }
    }
  }

  function InGroup(id: int): SettlementView -> bool { (s: SettlementView) => s.group == Some(id) }

  function HasSettlements(item: GroupItem): bool { item.settlements != [] }

  /** `groups.map(group => ({ group, settlements: ... }))`, before empty items are dropped. */
  function Items(groups: seq<GroupView>, ss: seq<SettlementView>): (items: seq<GroupItem>)
    ensures |items| == |groups|
    ensures forall k :: 0 <= k < |groups| ==> items[k] == GroupItem(groups[k], Filter(ss, InGroup(groups[k].id)))
  {
    seq(|groups|, k requires 0 <= k < |groups| => GroupItem(groups[k], Filter(ss, InGroup(groups[k].id))))
  }

  /**
   * `groupedSettlements`: the user's groups in order, each with the
   * settlements of that group, keeping only groups that have one.
   */
  function GroupedSettlements(groups: seq<GroupView>, ss: seq<SettlementView>): (r: seq<GroupItem>)
    ensures forall i :: 0 <= i < |r| ==>
              && r[i].settlements != [] && r[i].group in groups
              && r[i].settlements == Filter(ss, InGroup(r[i].group.id))
    ensures forall i, j :: 0 <= i < |r| && 0 <= j < |r[i].settlements| ==>
              r[i].settlements[j] in ss && r[i].settlements[j].group == Some(r[i].group.id)
  {
    var items := Items(groups, ss);
    var r := Filter(items, HasSettlements);
    assert forall i :: 0 <= i < |r| ==> r[i] in items;
    r
  }

  /** Every group of the list that has a settlement gets its card. */
  lemma GroupWithSettlementsListed(groups: seq<GroupView>, ss: seq<SettlementView>, k: nat)
    requires k < |groups| && exists s :: s in ss && s.group == Some(groups[k].id)
    ensures GroupItem(groups[k], Filter(ss, InGroup(groups[k].id))) in GroupedSettlements(groups, ss)
  {
    var s :| s in ss && s.group == Some(groups[k].id);
    var j :| 0 <= j < |ss| && ss[j] == s;
    var m := KeptAt(ss, InGroup(groups[k].id), j);
    var items := Items(groups, ss);
    var n := KeptAt(items, HasSettlements, k);
  }

  /** The cards keep the order of the group list. */
  lemma GroupedInOrder(groups: seq<GroupView>, ss: seq<SettlementView>)
    ensures IsSubsequence(CardGroups(GroupedSettlements(groups, ss)), groups)
  {
    var items := Items(groups, ss);
    FilterSubsequence(items, HasSettlements);
    MapGroupsSubsequence(Filter(items, HasSettlements), items);
    assert CardGroups(items) == groups;
  }

  function CardGroups(items: seq<GroupItem>): (gs: seq<GroupView>)
    ensures |gs| == |items| && forall k :: 0 <= k < |items| ==> gs[k] == items[k].group
  {
    seq(|items|, k requires 0 <= k < |items| => items[k].group)
  }

  lemma {:induction false} MapGroupsSubsequence(sub: seq<GroupItem>, items: seq<GroupItem>)
    requires IsSubsequence(sub, items)
    ensures IsSubsequence(CardGroups(sub), CardGroups(items))
    decreases |items|
  {
    if sub != [] {
      var gs, gi := CardGroups(sub), CardGroups(items);
      assert gi[1..] == CardGroups(items[1..]);
      if sub[0] == items[0] && IsSubsequence(sub[1..], items[1..]) {
        MapGroupsSubsequence(sub[1..], items[1..]);
        assert gs[1..] == CardGroups(sub[1..]);
      } else {
        MapGroupsSubsequence(sub, items[1..]);
      }
    }
  }

  /**
   * With distinct group ids a settlement sits under at most one card, and a
   * settlement whose group matches none of the user's groups under none.
   */
  lemma SettlementListedOnce(groups: seq<GroupView>, ss: seq<SettlementView>, s: SettlementView)
    requires KeysDistinct(groups, GroupKey)
    ensures var r := GroupedSettlements(groups, ss);
            forall i, j :: 0 <= i < j < |r| && s in r[i].settlements ==> s !in r[j].settlements
    ensures (forall g :: g in groups ==> s.group != Some(g.id)) ==>
              var r := GroupedSettlements(groups, ss);
              forall i :: 0 <= i < |r| ==> s !in r[i].settlements
  {
    var r := GroupedSettlements(groups, ss);
    var items := Items(groups, ss);
    assert KeysDistinct(items, ItemKey) by {
      forall a, b | 0 <= a < b < |items| ensures ItemKey(items[a]) != ItemKey(items[b]) {
        assert GroupKey(groups[a]) != GroupKey(groups[b]);
      }
    }
    FilterKeepsKeysDistinct(items, HasSettlements, ItemKey);
    forall i, j | 0 <= i < j < |r| && s in r[i].settlements ensures s !in r[j].settlements {
      assert ItemKey(r[i]) != ItemKey(r[j]);
    }
  }

  function ItemKey(item: GroupItem): int { item.group.id }
  function GroupKey(g: GroupView): int { g.id }
}
