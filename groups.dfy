/** Chat groups: a name and an ordered member list, created, renamed,
    re-membered, joined one user at a time, deleted, and looked up by member. */
module Groups {
  import opened Common

  datatype Group = Group(id: nat, name: string, members: seq<string>, createdAt: int, updatedAt: Option<int>)

  /** The key of the group table. */
  function GroupId(g: Group): nat {
    g.id
  }

  /** The member list after `addUserToGroup`: pushed at the end unless the
      user is already a member (`members.includes(userId)`). */
  function AddMember(members: seq<string>, userId: string): seq<string> {
    if userId in members then members else members + [userId]
  }

  /** No user appears twice in the list. */
  predicate Distinct(members: seq<string>) {
    forall i, j :: 0 <= i < j < |members| ==> members[i] != members[j]
  }

  /** After the add the user is a member; the old list is kept, in order, as
      a prefix, and at most the user is appended. */
  lemma AddMemberAppends(members: seq<string>, userId: string)
    ensures userId in AddMember(members, userId)
    ensures |AddMember(members, userId)| <= |members| + 1
    ensures AddMember(members, userId)[..|members|] == members
    ensures forall u :: u in AddMember(members, userId) <==> u in members || u == userId
  {
  }

  /** Adding a member who is already in the list changes nothing, so adding
      twice is adding once. */
  lemma AddMemberIdempotent(members: seq<string>, userId: string)
    ensures userId in members ==> AddMember(members, userId) == members
    ensures AddMember(AddMember(members, userId), userId) == AddMember(members, userId)
  {
  }

  /** Adding never introduces a duplicate. */
  lemma AddMemberKeepsDistinct(members: seq<string>, userId: string)
    requires Distinct(members)
    ensures Distinct(AddMember(members, userId))
  {
  }

  /** `getGroupsByUserId` (`find({ members: userId })`): exactly the groups
      whose member list contains the user. */
  function GroupsOf(gs: seq<Group>, userId: string): (r: seq<Group>)
    ensures forall i :: 0 <= i < |r| ==> r[i] in gs && userId in r[i].members
    ensures forall i :: 0 <= i < |gs| && userId in gs[i].members ==> gs[i] in r
    ensures forall x :: multiset(r)[x] == if userId in x.members then multiset(gs)[x] else 0
  {
    Filter(gs, (g: Group) => userId in g.members)
  }

  /** `findById`: the index of the group with the given id. */
  function GroupIndex(gs: seq<Group>, id: nat): (r: Option<nat>)
    ensures r.Some? ==> r.value < |gs| && gs[r.value].id == id
    ensures r.None? <==> forall j :: 0 <= j < |gs| ==> gs[j].id != id
  {
    FirstIndex(gs, (g: Group) => g.id == id)
  }

  /** The answers of the group handlers: `createGroup` answers 201 with the
      new group, `updateGroup` and `addUserToGroup` a plain 200 with the group. */
  datatype GroupOutcome = NameRequired | GroupNotFound | GroupSaved(group: Group) | GroupUpdated(group: Group) | GroupDeleted {
    function Status(): int {
      match this
      case NameRequired => 400
      case GroupNotFound => 404
      case GroupSaved(_) => 201
      case GroupUpdated(_) => 200
      case GroupDeleted => 200
    }
  }

  /** The group table; `nextId` stands for the store's id generator. */
  class GroupStore {
    var groups: seq<Group>
    var nextId: nat

    /** Ids are unique and every id was handed out before `nextId`. */
    ghost predicate Valid()
      reads this
    {
      UniqueKeys(groups, GroupId) && forall i :: 0 <= i < |groups| ==> groups[i].id < nextId
    }

    constructor ()
      ensures Valid() && groups == []
    {
      groups := [];
      nextId := 0;
    }

    /** `createGroup`: a falsy name is refused with 400 and nothing is stored;
        otherwise one group is added, its members defaulting to the empty list. */
    method CreateGroup(name: Option<string>, members: Option<seq<string>>, now: int) returns (out: GroupOutcome)
      requires Valid()
      modifies this
      ensures Valid()
      ensures out.NameRequired? <==> !Present(name)
      ensures out.NameRequired? ==> groups == old(groups) && nextId == old(nextId)
      ensures out.GroupSaved? ==>
        && out.group == Group(old(nextId), name.value, if members.Some? then members.value else [], now, None)
        && groups == old(groups) + [out.group]
      ensures out.NameRequired? || out.GroupSaved?
      ensures out.Status() == (if out.NameRequired? then 400 else 201)
    {
      if !Present(name) {
        return NameRequired;
      }
      var g := Group(nextId, name.value, if members.Some? then members.value else [], now, None);
      groups := groups + [g];
      nextId := nextId + 1;
      out := GroupSaved(g);
    }

    /** `deleteGroup`: 404 when no group has the id; otherwise exactly that
        group is deleted. */
    method DeleteGroup(id: nat) returns (out: GroupOutcome)
      requires Valid()
      modifies this
      ensures Valid() && nextId == old(nextId)
      ensures out.GroupNotFound? <==> old(GroupIndex(groups, id)).None?
      ensures out.GroupNotFound? ==> groups == old(groups)
      ensures out.GroupNotFound? || out.GroupDeleted?
      ensures out.Status() == (if out.GroupNotFound? then 404 else 200)
      ensures out.GroupDeleted? ==>
        var i := old(GroupIndex(groups, id)).value;
        groups == old(groups)[..i] + old(groups)[i + 1..]
      ensures forall g :: g in groups <==> g in old(groups) && g.id != id
    {
      match GroupIndex(groups, id)
      case None =>
        out := GroupNotFound;
      case Some(i) =>
        RemoveAtKey(groups, GroupId, i);
        groups := groups[..i] + groups[i + 1..];
        out := GroupDeleted;
    }

    /** `updateGroup`: 404 when no group has the id. Otherwise the name is
        replaced unless the new one is falsy, the members are replaced
        whenever a list is given (an empty list is truthy), and `updatedAt`
        is set; no other group changes. */
    method UpdateGroup(id: nat, name: Option<string>, members: Option<seq<string>>, now: int) returns (out: GroupOutcome)
      requires Valid()
      modifies this
      ensures Valid() && nextId == old(nextId)
      ensures out.GroupNotFound? <==> old(GroupIndex(groups, id)).None?
      ensures out.GroupNotFound? ==> groups == old(groups)
      ensures out.GroupNotFound? || out.GroupUpdated?
      ensures out.Status() == (if out.GroupNotFound? then 404 else 200)
      ensures out.GroupUpdated? ==>
        var i := old(GroupIndex(groups, id)).value;
        var before := old(groups)[i];
        && out.group == before.(name := OrElse(name, before.name),
                                members := if members.Some? then members.value else before.members,
                                updatedAt := Some(now))
        && groups == old(groups)[i := out.group]
    {
      match GroupIndex(groups, id)
      case None =>
        out := GroupNotFound;
      case Some(i) =>
        var g := groups[i];
        g := g.(name := OrElse(name, g.name));
        g := g.(members := if members.Some? then members.value else g.members);
        g := g.(updatedAt := Some(now));
        ReplaceAtKey(groups, GroupId, i, g);
        groups := groups[i := g];
        out := GroupUpdated(g);
    }

    /** `addUserToGroup`: 404 when no group has the id. Otherwise the user is
        appended to the members unless already there; a group that already
        has the user is left exactly as it was. */
    method AddUserToGroup(groupId: nat, userId: string, now: int) returns (out: GroupOutcome)
      requires Valid()
      modifies this
      ensures Valid() && nextId == old(nextId)
      ensures out.GroupNotFound? <==> old(GroupIndex(groups, groupId)).None?
      ensures out.GroupNotFound? ==> groups == old(groups)
      ensures out.GroupNotFound? || out.GroupUpdated?
      ensures out.Status() == (if out.GroupNotFound? then 404 else 200)
      ensures out.GroupUpdated? ==>
        var i := old(GroupIndex(groups, groupId)).value;
        var before := old(groups)[i];
        && userId in out.group.members
        && out.group.members == AddMember(before.members, userId)
        && (userId in before.members ==> out.group == before && groups == old(groups))
        && (userId !in before.members ==> out.group == before.(members := before.members + [userId], updatedAt := Some(now)))
        && groups == old(groups)[i := out.group]
    {
      match GroupIndex(groups, groupId)
      case None =>
        out := GroupNotFound;
      case Some(i) =>
        var g := groups[i];
        if userId !in g.members {
          g := g.(members := g.members + [userId], updatedAt := Some(now));
          ReplaceAtKey(groups, GroupId, i, g);
          groups := groups[i := g];
        }
        out := GroupUpdated(g);
    }
  }
}
