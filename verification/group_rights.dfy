/** What follows for whole runs of the group handlers: who may change what, and what a stale check would break. */
module GroupRights {
  import opened Common
  import opened Groups

  // ---- who may change a role ----

  function Rank(role: Option<Role>): nat {
    if role.None? then 0 else match role.value case Member => 1 case Admin => 2 case Owner => 3
  }

  predicate Consented(table: seq<Petition>, later: seq<Petition>, g: Conversation, a: Account) {
    exists id :: 0 <= id < |table| && IsPending(table[id], g, a)
                 && id < |later| && later[id] == table[id].(status := Accepted)
  }

  /** The rights by which a step may change an account's standing in a group. */
  ghost predicate Rightful(w: World, c: Call, g: Conversation, a: Account) {
    var was, now, actor := RoleOf(w.rows, g, a), RoleOf(Next(w, c).rows, g, a), RoleOf(w.rows, g, c.actor);
    c.group == g &&
    if g !in w.groups then c.op.Create? && a == c.actor && now == Some(Owner)
    else if was.None? then
      && now == Some(Member)
      && (|| (a == c.actor && c.op.Join? && (w.groups[g].Open? || (w.groups[g].Password? && c.op.passwordOk)))
          || (a == c.actor && Consented(w.invites, Next(w, c).invites, g, a))
          || (Rank(actor) >= 2 && Consented(w.requests, Next(w, c).requests, g, a)))
    else if now.None? then (a == c.actor && c.op.Leave? && Rank(was) < 3) || Rank(actor) > Rank(was)
    else Rank(actor) == 3
  }

  lemma CreateRightful(w: World, c: Call, g: Conversation, a: Account)
    requires Inv(w) && c.op.Create? && RoleOf(Next(w, c).rows, g, a) != RoleOf(w.rows, g, a)
    ensures Rightful(w, c, g, a)
  {
    AppendedRoles(w.rows, Row(c.actor, c.group, Owner, true), g, a);
  }

  lemma JoinRightful(w: World, c: Call, g: Conversation, a: Account)
    requires Inv(w) && c.op.Join? && RoleOf(Next(w, c).rows, g, a) != RoleOf(w.rows, g, a)
    ensures Rightful(w, c, g, a)
  {
    AddedRoles(w.rows, c.group, c.actor, g, a);
  }

  lemma AnswerInviteRightful(w: World, c: Call, g: Conversation, a: Account)
    requires Inv(w) && c.op.AnswerInvite? && RoleOf(Next(w, c).rows, g, a) != RoleOf(w.rows, g, a)
    ensures Rightful(w, c, g, a)
  {
    var id := c.op.id;
    AddedRoles(w.rows, c.group, c.actor, g, a);
    assert IsPending(w.invites[id], g, a) && Next(w, c).invites[id] == w.invites[id].(status := Accepted);
  }

  lemma AnswerAskRightful(w: World, c: Call, g: Conversation, a: Account)
    requires Inv(w) && c.op.AnswerAsk? && RoleOf(Next(w, c).rows, g, a) != RoleOf(w.rows, g, a)
    ensures Rightful(w, c, g, a)
  {
    var id := c.op.id;
    AddedRoles(w.rows, c.group, w.requests[id].account, g, a);
    assert IsPending(w.requests[id], g, a) && Next(w, c).requests[id] == w.requests[id].(status := Accepted);
  }

  lemma LeaveRightful(w: World, c: Call, g: Conversation, a: Account)
    requires Inv(w) && c.op.Leave? && RoleOf(Next(w, c).rows, g, a) != RoleOf(w.rows, g, a)
    ensures Rightful(w, c, g, a)
  {
    DepartedRoles(w.rows, c.group, c.actor, g, a);
    var o :| OwnerIs(w.rows, c.group, o);
    OwnersListed(w.rows, c.group, o);
  }

  lemma RemoveRightful(w: World, c: Call, g: Conversation, a: Account)
    requires Inv(w) && c.op.Remove? && RoleOf(Next(w, c).rows, g, a) != RoleOf(w.rows, g, a)
    ensures Rightful(w, c, g, a)
  {
    DepartedRoles(w.rows, c.group, c.op.target, g, a);
  }

  lemma TransferRightful(w: World, c: Call, g: Conversation, a: Account)
    requires Inv(w) && c.op.Transfer? && RoleOf(Next(w, c).rows, g, a) != RoleOf(w.rows, g, a)
    ensures Rightful(w, c, g, a)
    ensures RoleOf(Next(w, c).rows, g, a) == Some(Owner) ==> c.op.target == a
  {
    HandedOverRoles(w.rows, c.group, c.actor, c.op.target, g, a);
  }

  lemma ChangeRoleRightful(w: World, c: Call, g: Conversation, a: Account)
    requires Inv(w) && c.op.ChangeRole? && RoleOf(Next(w, c).rows, g, a) != RoleOf(w.rows, g, a)
    ensures Rightful(w, c, g, a) && RoleOf(Next(w, c).rows, g, a) != Some(Owner)
  {
    PromotedRoles(w.rows, c.group, c.op.target, c.op.role, g, a);
  }

  /**
    A step changes an account's standing only by right: a creator owns the new group; a newcomer joins as a
    plain member through an open door, a password, an invitation it accepts, or a request an admin accepts;
    members leave by themselves or are removed by someone of higher rank; and only the owner changes roles.
   */
  lemma StandingChangesByRight(w: World, c: Call, g: Conversation, a: Account)
    requires Inv(w) && RoleOf(Next(w, c).rows, g, a) != RoleOf(w.rows, g, a)
    ensures Rightful(w, c, g, a)
  {
    match c.op
    case Create(_) => CreateRightful(w, c, g, a);
    case Join(_) => JoinRightful(w, c, g, a);
    case AnswerInvite(_, _) => AnswerInviteRightful(w, c, g, a);
    case AnswerAsk(_, _) => AnswerAskRightful(w, c, g, a);
    case Leave => LeaveRightful(w, c, g, a);
    case Remove(_) => RemoveRightful(w, c, g, a);
    case Transfer(_) => TransferRightful(w, c, g, a);
    case ChangeRole(_, _) => ChangeRoleRightful(w, c, g, a);
    case _ =>
  }

  lemma OneOwnerOnly(w: World, g: Conversation, o: Account, p: Account)
    requires Inv(w) && g in w.groups && o != p && RoleOf(w.rows, g, o) == Some(Owner)
    ensures forall a :: RoleOf(w.rows, g, a) == Some(Owner) <==> a == o
  {
    var x :| OwnerIs(w.rows, g, x);
  }

  lemma JoiningMakesNoOwner(w: World, c: Call, g: Conversation, p: Account)
    requires c.op.Join? || c.op.AnswerInvite? || c.op.AnswerAsk?
    requires RoleOf(w.rows, g, p) != Some(Owner)
    ensures RoleOf(Next(w, c).rows, g, p) != Some(Owner)
  {
    match c.op
    case Join(_) => AddedRoles(w.rows, c.group, c.actor, g, p);
    case AnswerInvite(_, _) => AddedRoles(w.rows, c.group, c.actor, g, p);
    case AnswerAsk(id, _) =>
      if id < |w.requests| { AddedRoles(w.rows, c.group, w.requests[id].account, g, p); }
  }

  lemma LeavingMakesNoOwner(w: World, c: Call, g: Conversation, p: Account)
    requires c.op.Leave? || c.op.Remove?
    requires RoleOf(w.rows, g, p) != Some(Owner)
    ensures RoleOf(Next(w, c).rows, g, p) != Some(Owner)
  {
    match c.op
    case Leave => DepartedRoles(w.rows, c.group, c.actor, g, p);
    case Remove(target) => DepartedRoles(w.rows, c.group, target, g, p);
  }

  lemma OnlyTransferMakesOwner(w: World, c: Call, g: Conversation, p: Account)
    requires Inv(w) && g in w.groups
    requires RoleOf(w.rows, g, p) != Some(Owner) && RoleOf(Next(w, c).rows, g, p) == Some(Owner)
    ensures c.op == Transfer(p) && c.group == g
  {
    hide Inv, Rightful, RoleOf;
    match c.op
    case Create(_) => AppendedRoles(w.rows, Row(c.actor, c.group, Owner, true), g, p);
    case Transfer(_) => TransferRightful(w, c, g, p);
    case ChangeRole(_, _) => ChangeRoleRightful(w, c, g, p);
    case Leave => LeavingMakesNoOwner(w, c, g, p);
    case Remove(_) => LeavingMakesNoOwner(w, c, g, p);
    case Join(_) => JoiningMakesNoOwner(w, c, g, p);
    case AnswerInvite(_, _) => JoiningMakesNoOwner(w, c, g, p);
    case AnswerAsk(_, _) => JoiningMakesNoOwner(w, c, g, p);
    case _ =>
  }

  /** A group changes hands only when its owner transfers it, and then to the account named. */
  lemma OwnerMovesOnlyByTransfer(w: World, c: Call, g: Conversation, o: Account, p: Account)
    requires Inv(w) && g in w.groups && o != p
    requires RoleOf(w.rows, g, o) == Some(Owner) && RoleOf(Next(w, c).rows, g, p) == Some(Owner)
    ensures c.op == Transfer(p) && c.actor == o && c.group == g
  {
    hide Inv, Next;
    OneOwnerOnly(w, g, o, p);
    OnlyTransferMakesOwner(w, c, g, p);
    StandingChangesByRight(w, c, g, p);
  }

  // ---- petitions are answered once ----

  ghost predicate Extends(table: seq<Petition>, later: seq<Petition>) {
    && |table| <= |later|
    && forall i :: 0 <= i < |table| ==>
         later[i].group == table[i].group && later[i].account == table[i].account
         && (!table[i].status.Pending? ==> later[i] == table[i])
  }

  // What a step may do to a table of petitions.
  predicate Touched(table: seq<Petition>, later: seq<Petition>) {
    || later == table
    || (|later| == |table| + 1 && later[..|table|] == table)
    || (|later| == |table| && exists id :: 0 <= id < |table| && SettledAt(table, later, id))
  }

  predicate SettledAt(table: seq<Petition>, later: seq<Petition>, id: nat) {
    id < |table| && table[id].status.Pending? && |later| > id && later == Settled(table, id, later[id].status)
  }

  lemma InvitesTouched(w: World, c: Call)
    ensures Touched(w.invites, Next(w, c).invites)
  {
    if c.op.AnswerInvite? && Found(w.invites, c.op.id, c.group) && Next(w, c).invites != w.invites {
      assert SettledAt(w.invites, Next(w, c).invites, c.op.id);
    }
  }

  lemma RequestsTouched(w: World, c: Call)
    ensures Touched(w.requests, Next(w, c).requests)
  {
    if c.op.AnswerAsk? && Found(w.requests, c.op.id, c.group) && Next(w, c).requests != w.requests {
      assert SettledAt(w.requests, Next(w, c).requests, c.op.id);
    }
  }

  lemma StepExtends(w: World, c: Call)
    ensures Extends(w.invites, Next(w, c).invites) && Extends(w.requests, Next(w, c).requests)
  {
    InvitesTouched(w, c);
    RequestsTouched(w, c);
  }

  /** Petitions are never lost, and once answered or withdrawn they stay as they are. */
  lemma {:induction false} PetitionsAreFinal(w: World, cs: seq<Call>)
    ensures Extends(w.invites, Run(w, cs).invites) && Extends(w.requests, Run(w, cs).requests)
    decreases |cs|
  {
    if cs != [] {
      StepExtends(w, cs[0]);
      PetitionsAreFinal(Next(w, cs[0]), cs[1..]);
    }
  }

  // A petition of the account for the group was accepted since `table`.
  ghost predicate AcceptedSince(table: seq<Petition>, later: seq<Petition>, g: Conversation, a: Account) {
    exists id :: 0 <= id < |later| && later[id].group == g && later[id].account == a && later[id].status.Accepted?
                 && (id < |table| ==> !table[id].status.Accepted?)
  }

  /** Before and after every call the group admits nobody without an invitation or an accepted request. */
  ghost predicate Closed(w: World, cs: seq<Call>, g: Conversation)
    decreases |cs|
  {
    && g in w.groups && (w.groups[g].InviteOnly? || w.groups[g].Approval?)
    && (cs == [] || Closed(Next(w, cs[0]), cs[1..], g))
  }

  /** Whoever becomes a member of a closed group had an invitation or a join request accepted in the run. */
  lemma {:induction false} ClosedGroupNeedsConsent(w: World, cs: seq<Call>, g: Conversation, a: Account)
    requires Inv(w) && ValidRun(w, cs) && Closed(w, cs, g)
    requires RoleOf(w.rows, g, a).None? && RoleOf(Run(w, cs).rows, g, a).Some?
    ensures var end := Run(w, cs);
            AcceptedSince(w.invites, end.invites, g, a) || AcceptedSince(w.requests, end.requests, g, a)
    decreases |cs|
  {
    var next, end := Next(w, cs[0]), Run(w, cs);
    StepKeepsInv(w, cs[0]);
    StepExtends(w, cs[0]);
    PetitionsAreFinal(next, cs[1..]);
    if RoleOf(next.rows, g, a).None? {
      ClosedGroupNeedsConsent(next, cs[1..], g, a);
    } else {
      StandingChangesByRight(w, cs[0], g, a);
    }
    if AcceptedSince(next.invites, end.invites, g, a) || Consented(w.invites, next.invites, g, a) {
    } else {
    }
  }

  /** Inviting an account again while its invitation is pending returns the same id and changes nothing. */
  lemma InvitingAgain(w: World, c: Call, d: Call, target: Account)
    requires c.op == Invite(target, false) && d.op == c.op && d.group == c.group && d.actor == c.actor
    requires Handle(w, c).reply.Created?
    ensures Handle(Next(w, c), d) == Outcome(Next(w, c), Handle(w, c).reply, None)
  {
    var n, later := PendingAt(w.invites, c.group, target), Next(w, c).invites;
    assert n < |later| && IsPending(later[n], c.group, target);
    forall i | 0 <= i < n ensures !IsPending(later[i], c.group, target) { assert later[i] == w.invites[i]; }
  }

  // ---- what a transfer does when its check is out of date ----

  /**
    The ownership transaction taken by itself, for any two accounts: it leaves exactly one owner if and only
    if the target already owned the group, or the target is a member exactly when the sender owned it.
    Two transfers by one owner that both checked before either wrote break this.
   */
  lemma TransferKeepsOneOwnerIff(rows: seq<Row>, g: Conversation, o: Account, from: Account, to: Account)
    requires OwnerIs(rows, g, o) && from != to
    ensures OneOwner(HandedOver(rows, g, from, to), g) <==> (to == o || (RoleOf(rows, g, to).Some? <==> from == o))
  {
    var later := HandedOver(rows, g, from, to);
    forall b ensures RoleOf(later, g, b) == if (b == from || b == to) && RoleOf(rows, g, b).Some?
                                            then Some(if b == to then Owner else Admin) else RoleOf(rows, g, b) {
      HandedOverRoles(rows, g, from, to, g, b);
    }
    if to == o || (RoleOf(rows, g, to).Some? && from == o) {
      assert OwnerIs(later, g, to);
    } else if RoleOf(rows, g, to).None? && from != o {
      assert OwnerIs(later, g, o);
    } else {
      forall x ensures !OwnerIs(later, g, x) {
        assert from != o ==> RoleOf(later, g, o) == Some(Owner) && RoleOf(later, g, to) == Some(Owner);
        assert from == o ==> RoleOf(later, g, x) != Some(Owner);
      }
    }
  }

  /** Two overlapping transfers by the owner end with two owners. */
  lemma OverlappingTransfersMakeTwoOwners(rows: seq<Row>, g: Conversation, o: Account, first: Account, second: Account)
    requires OwnerIs(rows, g, o) && first != o && second != o && first != second
    requires RoleOf(rows, g, first).Some? && RoleOf(rows, g, second).Some?
    ensures var twice := HandedOver(HandedOver(rows, g, o, first), g, o, second);
            && RoleOf(twice, g, first) == Some(Owner) && RoleOf(twice, g, second) == Some(Owner)
            && RoleOf(twice, g, o) == Some(Admin) && !OneOwner(twice, g)
  {
    var once := HandedOver(rows, g, o, first);
    forall b ensures RoleOf(once, g, b) == if (b == o || b == first) && RoleOf(rows, g, b).Some?
                                           then Some(if b == first then Owner else Admin) else RoleOf(rows, g, b) {
      HandedOverRoles(rows, g, o, first, g, b);
    }
    assert OwnerIs(once, g, first);
    TransferKeepsOneOwnerIff(once, g, first, o, second);
    HandedOverRoles(once, g, o, second, g, first);
    HandedOverRoles(once, g, o, second, g, second);
    HandedOverRoles(once, g, o, second, g, o);
  }

  lemma {:induction false} OwnersIn(rows: seq<Row>, g: Conversation, a: Account)
    requires OneRowEach(rows)
    ensures a in OwnersOf(rows, g) <==> RoleOf(rows, g, a) == Some(Owner)
  {
    if rows != [] {
      OneRowTail(rows);
      OwnersIn(rows[1..], g, a);
    }
  }

  /** Of two owners either may leave, and leaves the other an owner. */
  lemma OneOfTwoOwnersMayLeave(w: World, c: Call, other: Account)
    requires OneRowEach(w.rows) && other != c.actor
    requires RoleOf(w.rows, c.group, c.actor) == Some(Owner) && RoleOf(w.rows, c.group, other) == Some(Owner)
    ensures OnLeave(w, c).reply == Done
    ensures RoleOf(OnLeave(w, c).world.rows, c.group, c.actor) == None
    ensures RoleOf(OnLeave(w, c).world.rows, c.group, other) == Some(Owner)
  {
    OwnersIn(w.rows, c.group, c.actor);
    OwnersIn(w.rows, c.group, other);
    DepartedRoles(w.rows, c.group, c.actor, c.group, c.actor);
    DepartedRoles(w.rows, c.group, c.actor, c.group, other);
  }
}
