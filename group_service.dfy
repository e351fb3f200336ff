/**
 * `GroupServiceImpl`: creating a group (its creator becomes its first
 * member), adding a member under the permission rule, and the two group
 * lookups.
 */
module GroupService {
  import opened Wrappers
  import opened Seqs
  import opened Domain

  /** `groupRepository.findById(id)`, failing with "Group not found". */
  function GroupById(groups: seq<Group>, id: GroupId): (r: Result<Group, Exception>)
    ensures r.Err? <==> forall k :: 0 <= k < |groups| ==> groups[k].id != id
    ensures r.Err? ==> r.error == Runtime("Group not found")
    ensures r.Ok? ==> r.value in groups && r.value.id == id
  {
    match FindFirst(groups, GroupIdIs(id))
    case None => Err(Runtime("Group not found"))
    case Some(g) => Ok(g)
  }

  /** With unique group ids the lookup returns the one group with that id. */
  lemma {:induction false} GroupByIdUnique(groups: seq<Group>, k: int)
    requires KeysDistinct(groups, GroupKey) && 0 <= k < |groups|
    ensures GroupById(groups, groups[k].id) == Ok(groups[k])
  {
    var i := FirstIndex(groups, GroupIdIs(groups[k].id)).value;
    assert GroupKey(groups[i]) == GroupKey(groups[k]);
  }

  /**
   * `getGroupsByUser(userId)`: the group of each of the user's memberships,
   * in membership order.
   */
  function GroupsOfUser(groups: seq<Group>, memberships: seq<Membership>, u: UserId): (r: seq<Group>)
    requires MembershipsResolve(groups, memberships)
    ensures var mine := Filter(memberships, MembershipOfUser(u));
            |r| == |mine| && forall k :: 0 <= k < |r| ==> r[k] in groups && r[k].id == mine[k].group
  {
    var mine := Filter(memberships, MembershipOfUser(u));
    seq(|mine|, k requires 0 <= k < |mine| =>
      GroupOfMembershipExists(groups, memberships, mine[k]);
      FindFirst(groups, GroupIdIs(mine[k].group)).value)
  }

  /**
   * A group is listed for a user exactly when it is stored and the user is
   * a member of it, and no group is listed twice.
   */
  lemma {:induction false} GroupsOfUserSpec(groups: seq<Group>, memberships: seq<Membership>, u: UserId)
    requires KeysDistinct(groups, GroupKey) && MembershipsResolve(groups, memberships)
    requires NoDuplicateMemberships(memberships)
    ensures var r := GroupsOfUser(groups, memberships, u);
            && (forall g :: g in r <==> g in groups && IsMember(memberships, u, g.id))
            && KeysDistinct(r, GroupKey)
  {
    var r := GroupsOfUser(groups, memberships, u);
    forall g ensures g in r <==> g in groups && IsMember(memberships, u, g.id) {
      if g in r {
        ListedGroupIsJoined(groups, memberships, u, g);
      }
      if g in groups && IsMember(memberships, u, g.id) {
        JoinedGroupIsListed(groups, memberships, u, g);
      }
    }
    ListedGroupsDistinct(groups, memberships, u);
  }

  lemma {:induction false} ListedGroupIsJoined(groups: seq<Group>, memberships: seq<Membership>, u: UserId, g: Group)
    requires MembershipsResolve(groups, memberships) && g in GroupsOfUser(groups, memberships, u)
    ensures g in groups && IsMember(memberships, u, g.id)
  {
    var mine := Filter(memberships, MembershipOfUser(u));
    var r := GroupsOfUser(groups, memberships, u);
    var k :| 0 <= k < |r| && r[k] == g;
    var m :| 0 <= m < |memberships| && memberships[m] == mine[k];
  }

  lemma {:induction false} JoinedGroupIsListed(groups: seq<Group>, memberships: seq<Membership>, u: UserId, g: Group)
    requires KeysDistinct(groups, GroupKey) && MembershipsResolve(groups, memberships)
    requires g in groups && IsMember(memberships, u, g.id)
    ensures g in GroupsOfUser(groups, memberships, u)
  {
    var mine := Filter(memberships, MembershipOfUser(u));
    var r := GroupsOfUser(groups, memberships, u);
    var m :| 0 <= m < |memberships| && memberships[m].user == u && memberships[m].group == g.id;
    var k := KeptAt(memberships, MembershipOfUser(u), m);
    var i :| 0 <= i < |groups| && groups[i] == g;
    var j :| 0 <= j < |groups| && groups[j] == r[k];
    assert GroupKey(groups[i]) == GroupKey(groups[j]);
  }

  lemma {:induction false} ListedGroupsDistinct(groups: seq<Group>, memberships: seq<Membership>, u: UserId)
    requires MembershipsResolve(groups, memberships) && NoDuplicateMemberships(memberships)
    ensures KeysDistinct(GroupsOfUser(groups, memberships, u), GroupKey)
  {
    var mine := Filter(memberships, MembershipOfUser(u));
    var r := GroupsOfUser(groups, memberships, u);
    FilterKeepsKeysDistinct(memberships, MembershipOfUser(u), MembershipKey);
    forall a, b | 0 <= a < b < |r| ensures GroupKey(r[a]) != GroupKey(r[b]) {
      assert MembershipKey(mine[a]) != MembershipKey(mine[b]);
    }
  }

  /** Saving a new group and its creator's membership keeps the tables consistent. */
  lemma {:induction false} CreateKeepsConsistent(users: seq<User>, groups: seq<Group>, memberships: seq<Membership>,
                                                expenses: seq<Expense>, settlements: seq<Settlement>, nextId: int,
                                                g: Group, m: Membership)
    requires Consistent(users, groups, memberships, expenses, settlements, nextId)
    requires g.id == nextId && m == Membership(nextId + 1, g.createdBy, g.id)
    ensures Consistent(users, groups + [g], memberships + [m], expenses, settlements, nextId + 2)
  {
    var gs, ms := groups + [g], memberships + [m];
    forall a, b | 0 <= a < b < |gs| ensures GroupKey(gs[a]) != GroupKey(gs[b]) {
      assert gs[a] == groups[a];
    }
    forall k | 0 <= k < |ms| ensures FindFirst(gs, GroupIdIs(ms[k].group)).Some? {
      if k < |memberships| {
        var i := FirstIndex(groups, GroupIdIs(memberships[k].group)).value;
        assert gs[i] == groups[i];
      } else {
        assert gs[|groups|] == g;
      }
    }
    forall a, b | 0 <= a < b < |ms| ensures MembershipKey(ms[a]) != MembershipKey(ms[b]) {
      assert ms[a] == memberships[a];
      if b == |memberships| {
        var i := FirstIndex(groups, GroupIdIs(memberships[a].group)).value;
      }
    }
  }

  /**
   * `createGroup(group, creatorId)`: an unknown creator fails with "Creator
   * not found" and saves nothing; otherwise the group is saved with a new id
   * and the creator as `createdBy`, and the creator's membership is saved
   * after it.
   */
  method CreateGroup(db: Database, groupName: string, creatorId: UserId) returns (r: Result<Group, Exception>)
    requires db.Valid()
    modifies db
    ensures db.Valid()
    ensures db.users == old(db.users) && db.expenses == old(db.expenses) && db.settlements == old(db.settlements)
    ensures r.Err? <==> !UserExists(db.users, creatorId)
    ensures r.Err? ==> r.error == Runtime("Creator not found") && db.groups == old(db.groups) &&
                       db.memberships == old(db.memberships) && db.nextId == old(db.nextId)
    ensures r.Ok? ==>
              && r.value == Group(old(db.nextId), groupName, creatorId)
              && db.groups == old(db.groups) + [r.value]
              && db.memberships == old(db.memberships) + [Membership(old(db.nextId) + 1, creatorId, r.value.id)]
              && db.nextId == old(db.nextId) + 2
              && GroupById(db.groups, r.value.id) == Ok(r.value)
              && IsMember(db.memberships, creatorId, r.value.id)
  {
    var creator := FindFirst(db.users, UserIdIs(creatorId));
    if creator.None? {
      return Err(Runtime("Creator not found"));
    }
    var saved := Group(db.nextId, groupName, creator.value.id);
    var member := Membership(db.nextId + 1, creator.value.id, saved.id);
    ghost var groups, memberships, first := db.groups, db.memberships, db.nextId;
    db.groups := db.groups + [saved];
    db.memberships := db.memberships + [member];
    db.nextId := db.nextId + 2;
    CreateKeepsConsistent(db.users, groups, memberships, db.expenses, db.settlements, first, saved, member);
    GroupByIdUnique(db.groups, |groups|);
    assert db.memberships[|memberships|] == member;
    r := Ok(saved);
  }

  /** Who may add members to a group: its creator and its members. */
  predicate MayAddMembers(memberships: seq<Membership>, group: Group, requester: UserId)
  {
    group.createdBy == requester || IsMember(memberships, requester, group.id)
  }

  /** Saving a membership for a stored group and a pair not yet related keeps the tables consistent. */
  lemma {:induction false} JoinKeepsConsistent(users: seq<User>, groups: seq<Group>, memberships: seq<Membership>,
                                              expenses: seq<Expense>, settlements: seq<Settlement>, nextId: int,
                                              m: Membership)
    requires Consistent(users, groups, memberships, expenses, settlements, nextId)
    requires m.id == nextId && FindFirst(groups, GroupIdIs(m.group)).Some? && !IsMember(memberships, m.user, m.group)
    ensures Consistent(users, groups, memberships + [m], expenses, settlements, nextId + 1)
  {
    var ms := memberships + [m];
    forall a, b | 0 <= a < b < |ms| ensures MembershipKey(ms[a]) != MembershipKey(ms[b]) {
      assert ms[a] == memberships[a];
    }
    forall k | 0 <= k < |ms| ensures FindFirst(groups, GroupIdIs(ms[k].group)).Some? {
      if k < |memberships| {
        assert ms[k] == memberships[k];
      }
    }
  }

  /** Everything the checks of `addUserToGroup` can throw. */
  const AdmissionErrors: set<Exception> := {
    Runtime("Current user not found"), Runtime("User not found"), Runtime("Group not found"),
    Security("You don't have permission to add members to this group"),
    IllegalArgument("User is already a member of this group")
  }

  /**
   * The checks of `addUserToGroup(groupId, userId, currentUserEmail)`, in
   * order: the requester (by email) exists, the user to add exists, the group
   * exists, the requester is its creator or a member, the user is not yet a
   * member. The first failing check decides the error.
   */
  function Admission(users: seq<User>, groups: seq<Group>, memberships: seq<Membership>,
                     groupId: GroupId, userId: UserId, currentUserEmail: string): (r: Result<Done, Exception>)
    ensures FindFirst(users, UserEmailIs(currentUserEmail)).None? ==> r == Err(Runtime("Current user not found"))
    ensures FindFirst(users, UserEmailIs(currentUserEmail)).Some? && !UserExists(users, userId) ==>
              r == Err(Runtime("User not found"))
    ensures (FindFirst(users, UserEmailIs(currentUserEmail)).Some? && UserExists(users, userId) &&
             GroupById(groups, groupId).Err?) ==> r == Err(Runtime("Group not found"))
    ensures (FindFirst(users, UserEmailIs(currentUserEmail)).Some? && UserExists(users, userId) &&
             GroupById(groups, groupId).Ok?) ==>
              var requester := FindFirst(users, UserEmailIs(currentUserEmail)).value.id;
              var group := GroupById(groups, groupId).value;
              && (!MayAddMembers(memberships, group, requester) ==>
                    r == Err(Security("You don't have permission to add members to this group")))
              && (MayAddMembers(memberships, group, requester) && IsMember(memberships, userId, groupId) ==>
                    r == Err(IllegalArgument("User is already a member of this group")))
              && (MayAddMembers(memberships, group, requester) && !IsMember(memberships, userId, groupId) ==>
                    r.Ok?)
    ensures r.Err? ==> r.error in AdmissionErrors
    ensures r.Ok? ==> !IsMember(memberships, userId, groupId) && UserExists(users, userId) && FindFirst(groups, GroupIdIs(groupId)).Some?
  {
    match FindFirst(users, UserEmailIs(currentUserEmail))
    case None => Err(Runtime("Current user not found"))
    case Some(currentUser) =>
      match FindFirst(users, UserIdIs(userId))
      case None => Err(Runtime("User not found"))
      case Some(_) =>
        match GroupById(groups, groupId)
        case Err(e) => Err(e)
        case Ok(group) =>
          var isCreator := group.createdBy == currentUser.id;
          var isExistingMember := IsMember(memberships, currentUser.id, groupId);
          if !isCreator && !isExistingMember then Err(Security("You don't have permission to add members to this group"))
          else if IsMember(memberships, userId, groupId) then Err(IllegalArgument("User is already a member of this group"))
          else Ok(Done)
  }

  /**
   * `addUserToGroup(groupId, userId, currentUserEmail)`: when a check fails
   * its error is returned and nothing is saved; otherwise exactly the
   * membership (userId, groupId) is added, with a new id.
   */
  method AddUserToGroup(db: Database, groupId: GroupId, userId: UserId, currentUserEmail: string)
    returns (r: Result<Done, Exception>)
    requires db.Valid()
    modifies db
    ensures db.Valid()
    ensures db.users == old(db.users) && db.groups == old(db.groups) &&
            db.expenses == old(db.expenses) && db.settlements == old(db.settlements)
    ensures var check := Admission(db.users, db.groups, old(db.memberships), groupId, userId, currentUserEmail);
            && (r.Ok? <==> check.Ok?)
            && (r.Err? ==> r.error == check.error && db.memberships == old(db.memberships) && db.nextId == old(db.nextId))
    ensures r.Ok? ==> db.memberships == old(db.memberships) + [Membership(old(db.nextId), userId, groupId)] &&
                      db.nextId == old(db.nextId) + 1
  {
    var check := Admission(db.users, db.groups, db.memberships, groupId, userId, currentUserEmail);
    if check.Err? {
      return Err(check.error);
    }
    var member := Membership(db.nextId, userId, groupId);
    ghost var memberships, first := db.memberships, db.nextId;
    db.memberships := db.memberships + [member];
    db.nextId := db.nextId + 1;
    JoinKeepsConsistent(db.users, db.groups, memberships, db.expenses, db.settlements, first, member);
    r := Ok(Done);
  }

  /** A successful add makes the user a member, so the same request repeated fails with the membership error. */
  lemma {:induction false} AddedUserIsMember(memberships: seq<Membership>, id: int, userId: UserId, groupId: GroupId)
    ensures IsMember(memberships + [Membership(id, userId, groupId)], userId, groupId)
    ensures forall u, g :: IsMember(memberships, u, g) ==> IsMember(memberships + [Membership(id, userId, groupId)], u, g)
  {
    var ms := memberships + [Membership(id, userId, groupId)];
    assert ms[|memberships|] == Membership(id, userId, groupId);
    forall u, g | IsMember(memberships, u, g) ensures IsMember(ms, u, g) {
      var k :| 0 <= k < |memberships| && memberships[k].user == u && memberships[k].group == g;
      assert ms[k] == memberships[k];
    }
  }
}
