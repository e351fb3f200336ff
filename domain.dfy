/**
 * The server's entities (users, groups, memberships, expenses with their
 * participant records, settlements), the exceptions its services throw, and
 * the repositories they read and write. Amounts are integer cents: the
 * entities store money as decimals with two fractional digits.
 */
module Domain {
  import opened Wrappers
  import opened Seqs

  type UserId = int
  type GroupId = int

  datatype User = User(id: UserId, email: string, username: string)

  datatype Group = Group(id: GroupId, groupName: string, createdBy: UserId)

  /** One row of the membership relation. */
  datatype Membership = Membership(id: int, user: UserId, group: GroupId)

  /** The share one participant owes for one expense, in cents. */
  datatype Participant = Participant(user: UserId, share: int)

  datatype Expense = Expense(id: int, title: string, amount: int, paidBy: UserId,
                             group: GroupId, participants: seq<Participant>)

  datatype Settlement = Settlement(id: int, fromUser: UserId, toUser: UserId, amount: int,
                                   group: GroupId, paid: bool)

  /** What a service call throws, by Java exception class. */
  datatype Exception =
    | Runtime(message: string)           // RuntimeException
    | IllegalArgument(message: string)   // IllegalArgumentException
    | Security(message: string)          // SecurityException
    | Arithmetic(message: string)        // ArithmeticException
    | Checked(message: string)           // an Exception that is not a RuntimeException

  /**
   * The text of the `ArithmeticException` that `BigDecimal.divide` throws for
   * a zero divisor. The JDK chooses it and this model leaves it unspecified.
   */
  const DivisionByZeroMessage: string

  /** A service call that returns nothing on success (`void`). */
  datatype Done = Done

  /** The lookup keys of the repositories' `findById` and `findByEmail`. */
  function UserIdIs(id: UserId): User -> bool { (u: User) => u.id == id }
  function UserEmailIs(email: string): User -> bool { (u: User) => u.email == email }
  function GroupIdIs(id: GroupId): Group -> bool { (g: Group) => g.id == id }

  /** `findByGroupId` and `group.getExpenses()`: the group's expenses, in table order. */
  function ExpensesOfGroup(expenses: seq<Expense>, g: GroupId): seq<Expense>
  {
    Filter(expenses, ExpenseInGroup(g))
  }

  function ExpenseInGroup(g: GroupId): Expense -> bool { (e: Expense) => e.group == g }
  function ExpenseIdIs(id: int): Expense -> bool { (e: Expense) => e.id == id }
  function ExpenseIdIsNot(id: int): Expense -> bool { (e: Expense) => e.id != id }

  function SettlementInGroup(g: GroupId): Settlement -> bool { (s: Settlement) => s.group == g }
  function SettlementNotInGroup(g: GroupId): Settlement -> bool { (s: Settlement) => s.group != g }
  function SettlementIdIs(id: int): Settlement -> bool { (s: Settlement) => s.id == id }

  /** `findByFromUserIdOrToUserId(u, u)`. */
  function SettlementInvolves(u: UserId): Settlement -> bool { (s: Settlement) => s.fromUser == u || s.toUser == u }

  /** `findByUserId` on the membership table. */
  function MembershipOfUser(u: UserId): Membership -> bool { (m: Membership) => m.user == u }

  /** `existsByUserIdAndGroupId`. */
  predicate IsMember(memberships: seq<Membership>, user: UserId, group: GroupId)
  {
    exists k :: 0 <= k < |memberships| && memberships[k].user == user && memberships[k].group == group
  }

  /** Every membership names a group that exists (the foreign key). */
  predicate MembershipsResolve(groups: seq<Group>, memberships: seq<Membership>)
  {
    forall k :: 0 <= k < |memberships| ==> FindFirst(groups, GroupIdIs(memberships[k].group)).Some?
  }

  /** No (user, group) pair occurs twice in the membership relation. */
  predicate NoDuplicateMemberships(memberships: seq<Membership>)
  {
    KeysDistinct(memberships, MembershipKey)
  }

  function MembershipKey(m: Membership): (UserId, GroupId) { (m.user, m.group) }

  /** `userRepository.findById(id).isPresent()`. */
  predicate UserExists(users: seq<User>, id: UserId)
  {
    exists k :: 0 <= k < |users| && users[k].id == id
  }

  /** The payer and every participant of the expense are stored users (the foreign keys). */
  predicate ExpenseResolves(users: seq<User>, e: Expense)
  {
    UserExists(users, e.paidBy) &&
    forall p :: 0 <= p < |e.participants| ==> UserExists(users, e.participants[p].user)
  }

  predicate ExpensesResolve(users: seq<User>, expenses: seq<Expense>)
  {
    forall k :: 0 <= k < |expenses| ==> ExpenseResolves(users, expenses[k])
  }

  /** The primary keys of the tables. */
  function GroupKey(g: Group): int { g.id }
  function ExpenseKey(e: Expense): int { e.id }
  function SettlementKey(s: Settlement): int { s.id }

  /**
   * What the tables keep true between calls: ids below the counter, unique
   * primary keys, foreign keys that resolve, no repeated membership.
   */
  ghost predicate Consistent(users: seq<User>, groups: seq<Group>, memberships: seq<Membership>,
                             expenses: seq<Expense>, settlements: seq<Settlement>, nextId: int)
  {
    && (forall k :: 0 <= k < |groups| ==> groups[k].id < nextId)
    && (forall k :: 0 <= k < |memberships| ==> memberships[k].id < nextId)
    && (forall k :: 0 <= k < |expenses| ==> expenses[k].id < nextId)
    && (forall k :: 0 <= k < |settlements| ==> settlements[k].id < nextId)
    && KeysDistinct(groups, GroupKey)
    && KeysDistinct(expenses, ExpenseKey)
    && KeysDistinct(settlements, SettlementKey)
    && ExpensesResolve(users, expenses)
    && MembershipsResolve(groups, memberships)
    && NoDuplicateMemberships(memberships)
  }

  /** A stored membership's group is found by `groupRepository.findById`. */
  lemma GroupOfMembershipExists(groups: seq<Group>, memberships: seq<Membership>, m: Membership)
    requires MembershipsResolve(groups, memberships) && m in memberships
    ensures FindFirst(groups, GroupIdIs(m.group)).Some?
  {
    var k :| 0 <= k < |memberships| && memberships[k] == m;
  }

  /** The repositories: one table per entity, in id order, and the id generator. */
  class Database {
    var users: seq<User>
    var groups: seq<Group>
    var memberships: seq<Membership>
    var expenses: seq<Expense>
    var settlements: seq<Settlement>
    /** The next generated id; every stored id is below it. */
    var nextId: int

    ghost predicate Valid()
      reads this
    {
      Consistent(users, groups, memberships, expenses, settlements, nextId)
    }

    constructor (users: seq<User>)
      ensures Valid()
      ensures this.users == users && groups == [] && memberships == [] && expenses == [] && settlements == []
    {
      this.users := users;
      groups, memberships, expenses, settlements := [], [], [], [];
      nextId := 1;
    }
  }
}
