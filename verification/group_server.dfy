/** The group handlers as code over the tables and the cache: each is one step of the group machine. */
module GroupServer {
  import opened Common
  import opened Groups
  import opened Members

  class Handlers {
    var rows: seq<Row>  // the database tables, changed only by transactions
    var groups: map<Conversation, JoinRule>
    var invites: seq<Petition>
    var requests: seq<Petition>
    const members: MemberCache

    ghost function View(): World
      reads this, members
    {
      World(rows, groups, invites, requests, members.data)
    }

    ghost predicate Valid()
      reads this, members
    {
      Inv(View())
    }

    constructor (cache: MemberCache)
      requires cache.data == map[]
      ensures Valid() && View() == EMPTY && members == cache
    {
      rows, groups, invites, requests, members := [], map[], [], [], cache;
    }

    /** What a handler owes: it did one enabled step of the machine and answered as the machine does. */
    ghost predicate Did(before: World, c: Call, reply: Reply, told: Option<seq<Account>>)
      reads this, members
    {
      Enabled(before, c) && Handle(before, c) == Outcome(View(), reply, told) && Inv(View())
    }

    // Some cached conversation, when there is one.
    ghost function Cached(): (g: Conversation)
      reads this, members
      ensures members.data != map[] ==> g in members.data
    {
      if members.data == map[] then "" else assert members.data.Keys != {}; var g :| g in members.data; g
    }

    /** The actor's role, if it may act on the group at all. */
    method GroupRole(actor: Account, group: Conversation, admin: bool) returns (role: Option<Role>)
      ensures role == if !admin || Runs(RoleOf(rows, group, actor)) then RoleOf(rows, group, actor) else None
    {
      role := RoleOf(rows, group, actor);
      if role.Some? && admin && role != Some(Owner) && role != Some(Admin) {
        role := None;
      }
    }

    method PublishConversation(group: Conversation, ghost hint: Conversation)
      returns (told: seq<Account>, ghost victim: Conversation)
      requires |members.data| <= MAX_CACHED
      modifies members
      ensures (View(), told) == Read(old(View()), group, victim)
      ensures victim == hint || victim in old(members.data)
      ensures group !in old(members.data) && |old(members.data)| >= MAX_CACHED ==> victim in old(members.data)
    {
      victim := hint;
      var known := members.Get(group);
      if known.Some? {
        return known.value, victim;
      }
      told := MembersOf(rows, group);
      victim := members.Set(group, told, hint);
    }

    // Drops the cached list, then publishes to one read afresh.
    method Refresh(group: Conversation, ghost hint: Conversation)
      returns (told: Option<seq<Account>>, ghost victim: Conversation)
      requires |members.data| <= MAX_CACHED && (|members.data| >= MAX_CACHED ==> hint in members.data)
      modifies members
      ensures Outcome(View(), Done, told) == Refreshed(old(View()), rows, group, victim)
      ensures |old(members.data)| >= MAX_CACHED ==> victim in old(members.data)
    {
      ghost var before := members.data;
      members.Delete(group);
      assert members.data.Keys == before.Keys - {group};
      assert |members.data.Keys| <= |before.Keys|;
      var list;
      list, victim := PublishConversation(group, hint);
      told := Some(list);
    }

    // Publishes after a change that keeps the membership.
    method Announce(group: Conversation, ghost hint: Conversation)
      returns (told: Option<seq<Account>>, ghost victim: Conversation)
      requires |members.data| <= MAX_CACHED && (|members.data| >= MAX_CACHED ==> hint in members.data)
      modifies members
      ensures Outcome(View(), Done, told) == Published(old(View()), group, victim)
      ensures |old(members.data)| >= MAX_CACHED ==> victim in old(members.data)
    {
      var list;
      list, victim := PublishConversation(group, hint);
      told := Some(list);
    }

    method AddMember(group: Conversation, account: Account)
      modifies this`rows
      ensures rows == Added(old(rows), group, account)
    {
      if RoleOf(rows, group, account).None? {
        rows := rows + [Row(account, group, Member, true)];
      }
    }

    method RequestToJoin(group: Conversation, account: Account) returns (reply: Reply)
      modifies this`requests
      ensures requests == Petitioned(old(requests), group, account, account)
      ensures reply == Created(PendingAt(old(requests), group, account))
    {
      var id := PendingAt(requests, group, account);
      if id == |requests| {
        requests := requests + [Petition(group, account, account, Pending)];
      }
      reply := Created(id);
    }

    method CreateGroup(actor: Account, group: Conversation, rule: JoinRule)
      returns (reply: Reply, told: Option<seq<Account>>, ghost victim: Conversation)
      requires Valid()
      modifies this, members
      ensures Did(old(View()), Call(actor, group, Create(rule), victim), reply, told)
    {
      hide RowsOk, PetitionsOk, Grounded, Lists;
      victim := Cached();
      if group in groups {
        return Refused(GroupExists), None, victim;
      }
      rows, groups := rows + [Row(actor, group, Owner, true)], groups[group := rule];
      victim := members.Set(group, [actor], victim);
      reply, told := Done, Some([actor]);
      CreateKeepsInv(old(View()), Call(actor, group, Create(rule), victim), rule);
    }

    method JoinGroup(actor: Account, group: Conversation, passwordOk: bool)
      returns (reply: Reply, told: Option<seq<Account>>, ghost victim: Conversation)
      requires Valid()
      modifies this, members
      ensures Did(old(View()), Call(actor, group, Join(passwordOk), victim), reply, told)
    {
      hide RowsOk, PetitionsOk, Grounded, Lists;
      reply, told, victim := Done, None, Cached();
      if group !in groups {
        reply := Refused(GroupNotFound);
      } else if RoleOf(rows, group, actor).None? {
        var rule := groups[group];
        if rule.InviteOnly? {
          reply := Refused(InviteRequired);
        } else if rule.Approval? {
          reply := RequestToJoin(group, actor);
        } else if rule.Password? && !passwordOk {
          reply := Refused(InvalidPassword);
        } else {
          AddMember(group, actor);
          told, victim := Refresh(group, victim);
        }
      }
      JoinKeepsInv(old(View()), Call(actor, group, Join(passwordOk), victim), passwordOk);
    }

    method LeaveGroup(actor: Account, group: Conversation)
      returns (reply: Reply, told: Option<seq<Account>>, ghost victim: Conversation)
      requires Valid()
      modifies this, members
      ensures Did(old(View()), Call(actor, group, Leave, victim), reply, told)
    {
      hide RowsOk, PetitionsOk, Grounded, Lists;
      told, victim := None, Cached();
      var role := GroupRole(actor, group, false);
      if role.None? {
        reply := Refused(Forbidden);
      } else if role == Some(Owner) && |OwnersOf(rows, group)| <= 1 {
        reply := Refused(OwnershipTransferRequired);
      } else {
        rows := Departed(rows, group, actor);
        told, victim := Refresh(group, victim);
        reply := Done;
      }
      LeaveKeepsInv(old(View()), Call(actor, group, Leave, victim));
    }

    method RemoveGroupMember(actor: Account, group: Conversation, target: Account)
      returns (reply: Reply, told: Option<seq<Account>>, ghost victim: Conversation)
      requires Valid()
      modifies this, members
      ensures Did(old(View()), Call(actor, group, Remove(target), victim), reply, told)
    {
      hide RowsOk, PetitionsOk, Grounded, Lists;
      told, victim := None, Cached();
      var role := GroupRole(actor, group, true);
      var targetRole := RoleOf(rows, group, target);
      if role.None? {
        reply := Refused(Forbidden);
      } else if target == actor {
        reply := Refused(InvalidUser);
      } else if targetRole.None? {
        reply := Refused(MemberNotFound);
      } else if targetRole == Some(Owner) || (role == Some(Admin) && targetRole == Some(Admin)) {
        reply := Refused(Forbidden);
      } else {
        rows := Departed(rows, group, target);
        told, victim := Refresh(group, victim);
        reply := Done;
      }
      RemoveKeepsInv(old(View()), Call(actor, group, Remove(target), victim), target);
    }

    method TransferGroupOwnership(actor: Account, group: Conversation, target: Account)
      returns (reply: Reply, told: Option<seq<Account>>, ghost victim: Conversation)
      requires Valid()
      modifies this, members
      ensures Did(old(View()), Call(actor, group, Transfer(target), victim), reply, told)
    {
      hide RowsOk, PetitionsOk, Grounded, Lists;
      told, victim := None, Cached();
      var role := GroupRole(actor, group, false);
      if role != Some(Owner) {
        reply := Refused(Forbidden);
      } else if target == actor {
        reply := Refused(InvalidUser);
      } else if RoleOf(rows, group, target).None? {
        reply := Refused(MemberNotFound);
      } else {
        rows := HandedOver(rows, group, actor, target);
        told, victim := Announce(group, victim);
        reply := Done;
      }
      TransferKeepsInv(old(View()), Call(actor, group, Transfer(target), victim), target);
    }

    method ChangeGroupRole(actor: Account, group: Conversation, target: Account, newRole: Role)
      returns (reply: Reply, told: Option<seq<Account>>, ghost victim: Conversation)
      requires Valid()
      modifies this, members
      ensures Did(old(View()), Call(actor, group, ChangeRole(target, newRole), victim), reply, told)
    {
      hide RowsOk, PetitionsOk, Grounded, Lists;
      told, victim := None, Cached();
      var role := GroupRole(actor, group, false);
      var targetRole := RoleOf(rows, group, target);
      if role != Some(Owner) {
        reply := Refused(Forbidden);
      } else if newRole != Admin && newRole != Member {
        reply := Refused(InvalidRole);
      } else if target == actor {
        reply := Refused(InvalidRole);
      } else if targetRole.None? {
        reply := Refused(MemberNotFound);
      } else if targetRole == Some(Owner) {
        reply := Refused(Forbidden);
      } else {
        rows := Promoted(rows, group, target, newRole);
        told, victim := Announce(group, victim);
        reply := Done;
      }
      ChangeRoleKeepsInv(old(View()), Call(actor, group, ChangeRole(target, newRole), victim), target, newRole);
    }

    /** Any change of name, description, image or access; only a change of join rule matters to membership. */
    method UpdateGroup(actor: Account, group: Conversation, change: Option<JoinRule>)
      returns (reply: Reply, told: Option<seq<Account>>, ghost victim: Conversation)
      requires Valid()
      modifies this, members
      ensures Did(old(View()), Call(actor, group, Update(change), victim), reply, told)
    {
      hide RowsOk, PetitionsOk, Grounded, Lists;
      told, victim := None, Cached();
      var role := GroupRole(actor, group, true);
      if role.None? {
        reply := Refused(Forbidden);
      } else {
        if change.Some? && group in groups {
          groups := groups[group := change.value];
        }
        told, victim := Announce(group, victim);
        reply := Done;
      }
      UpdateKeepsInv(old(View()), Call(actor, group, Update(change), victim), change);
    }

    method SendGroupInvitation(actor: Account, group: Conversation, target: Account, blocked: bool)
      returns (reply: Reply, ghost victim: Conversation)
      requires Valid()
      modifies this`invites
      ensures Did(old(View()), Call(actor, group, Invite(target, blocked), victim), reply, None)
    {
      hide RowsOk, PetitionsOk, Grounded, Lists;
      victim := Cached();
      var role := GroupRole(actor, group, true);
      if role.None? {
        reply := Refused(Forbidden);
      } else if target == actor {
        reply := Refused(InvalidUser);
      } else if blocked {
        reply := Refused(Blocked);
      } else if RoleOf(rows, group, target).Some? {
        reply := Refused(AlreadyMember);
      } else {
        var id := PendingAt(invites, group, target);
        if id == |invites| {
          invites := invites + [Petition(group, actor, target, Pending)];
        }
        reply := Created(id);
      }
      InviteKeepsInv(old(View()), Call(actor, group, Invite(target, blocked), victim), target, blocked);
    }

    method RespondGroupInvitation(actor: Account, group: Conversation, id: nat, answer: Answer)
      returns (reply: Reply, told: Option<seq<Account>>, ghost victim: Conversation)
      requires Valid()
      modifies this, members
      ensures Did(old(View()), Call(actor, group, AnswerInvite(id, answer), victim), reply, told)
    {
      hide RowsOk, PetitionsOk, Grounded, Lists;
      reply, told, victim := Done, None, Cached();
      var found := id < |invites| && invites[id].group == group && invites[id].status == Pending;
      if answer.Cancel? {
        var role := GroupRole(actor, group, true);
        if role.None? {
          reply := Refused(Forbidden);
        } else if found && invites[id].sender == actor {
          invites := Settled(invites, id, Cancelled);
        }
      } else if !found || invites[id].account != actor {
        reply := Refused(InvitationNotFound);
      } else {
        if answer.Accept? {
          AddMember(group, actor);
        }
        invites := Settled(invites, id, if answer.Accept? then Accepted else Rejected);
        told, victim := Refresh(group, victim);
      }
      AnswerInviteKeepsInv(old(View()), Call(actor, group, AnswerInvite(id, answer), victim), id, answer);
    }

    method SendGroupJoinRequest(actor: Account, group: Conversation) returns (reply: Reply, ghost victim: Conversation)
      requires Valid()
      modifies this`requests
      ensures Did(old(View()), Call(actor, group, Ask, victim), reply, None)
    {
      hide RowsOk, PetitionsOk, Grounded, Lists;
      reply, victim := Done, Cached();
      if group !in groups {
        reply := Refused(GroupNotFound);
      } else if groups[group] != Approval {
        reply := Refused(JoinRequestNotAllowed);
      } else if RoleOf(rows, group, actor).None? {
        reply := RequestToJoin(group, actor);
      }
      AskKeepsInv(old(View()), Call(actor, group, Ask, victim));
    }

    method RespondGroupJoinRequest(actor: Account, group: Conversation, id: nat, answer: Answer)
      returns (reply: Reply, told: Option<seq<Account>>, ghost victim: Conversation)
      requires Valid()
      modifies this, members
      ensures Did(old(View()), Call(actor, group, AnswerAsk(id, answer), victim), reply, told)
    {
      hide RowsOk, PetitionsOk, Grounded, Lists;
      reply, told, victim := Done, None, Cached();
      var found := id < |requests| && requests[id].group == group && requests[id].status == Pending;
      if answer.Cancel? {
        if found && requests[id].account == actor {
          requests := Settled(requests, id, Cancelled);
        }
      } else {
        var role := GroupRole(actor, group, true);
        if role.None? {
          reply := Refused(Forbidden);
        } else if !found {
          reply := Refused(JoinRequestNotFound);
        } else {
          if answer.Accept? {
            AddMember(group, requests[id].account);
          }
          requests := Settled(requests, id, if answer.Accept? then Accepted else Rejected);
          told, victim := Refresh(group, victim);
        }
      }
      AnswerAskKeepsInv(old(View()), Call(actor, group, AnswerAsk(id, answer), victim), id, answer);
    }

    /** The member list as every other handler reads it: exactly the active members, cached or not. */
    method GetMembersCached(group: Conversation) returns (list: seq<Account>, ghost victim: Conversation)
      requires Valid()
      modifies members
      ensures Valid() && View() == Next(old(View()), Call("", group, ReadMembers, victim))
      ensures Lists(list, rows, group)
    {
      ReadKeepsCache(View(), group, Cached());
      list, victim := PublishConversation(group, Cached());
      ReadKeepsCache(old(View()), group, victim);
    }

    /** Blocking, unfriending and account deletion drop every cached list. */
    method ForgetMembers()
      requires Valid()
      modifies members
      ensures Valid() && View() == Next(old(View()), Call("", "", ClearCache, ""))
    {
      members.Clear();
    }
  }
}
