/** What the group handlers do for those who call them by right, and why they refuse the others. */
module GroupEffects {
  import opened Common
  import opened Groups
  import opened GroupRights

  // ---- which calls are answered ----

  predicate PendingFor(table: seq<Petition>, g: Conversation, a: Account) {
    exists i :: 0 <= i < |table| && IsPending(table[i], g, a)
  }

  predicate Allowed(w: World, c: Call) {
    var g, mine := c.group, Rank(RoleOf(w.rows, c.group, c.actor));
    match c.op
    case Create(_) => g !in w.groups
    case Join(passwordOk) =>
      g in w.groups && (mine > 0 || w.groups[g].Open? || w.groups[g].Approval? || (w.groups[g].Password? && passwordOk))
    case Leave => mine == 1 || mine == 2
    case Remove(target) => mine >= 2 && mine > Rank(RoleOf(w.rows, g, target)) >= 1
    case Transfer(target) => mine == 3 && target != c.actor && Rank(RoleOf(w.rows, g, target)) >= 1
    case ChangeRole(target, role) =>
      mine == 3 && target != c.actor && Rank(RoleOf(w.rows, g, target)) >= 1 && role != Owner
    case Update(_) => mine >= 2
    case Invite(target, blocked) =>
      mine >= 2 && target != c.actor && !blocked && Rank(RoleOf(w.rows, g, target)) == 0
    case AnswerInvite(id, answer) =>
      if answer == Cancel then mine >= 2 else id < |w.invites| && IsPending(w.invites[id], g, c.actor)
    case Ask => g in w.groups && w.groups[g] == Approval
    case AnswerAsk(id, answer) =>
      answer == Cancel || (mine >= 2 && id < |w.requests| && IsPending(w.requests[id], g, w.requests[id].account))
    case ReadMembers => true
    case ClearCache => true
  }

  // The calls that leave a pending petition, or find one.
  predicate Petitioning(w: World, c: Call) {
    c.op.Invite? || ((c.op.Join? || c.op.Ask?) && RoleOf(w.rows, c.group, c.actor) == None
                     && c.group in w.groups && w.groups[c.group] == Approval)
  }

  /**
    A call is answered if and only if it is made by right, with the id of a petition if it makes one; a call that is
    refused changes and announces nothing.
   */
  lemma AnsweredIff(w: World, c: Call)
    requires Inv(w)
    ensures !Handle(w, c).reply.Refused? <==> Allowed(w, c)
    ensures Handle(w, c).reply.Created? <==> Allowed(w, c) && Petitioning(w, c)
    ensures !Allowed(w, c) ==> Next(w, c) == w && Handle(w, c).told == None
  {
    hide CacheOk, PetitionsOk, Grounded;
    if c.group in w.groups {
      var o :| OwnerIs(w.rows, c.group, o);
      OwnersListed(w.rows, c.group, o);
    }
  }

  // ---- what a call does to roles ----

  /** The role an account has after a call. */
  function Standing(w: World, c: Call, g: Conversation, a: Account): Option<Role> {
    var was := RoleOf(w.rows, g, a);
    if g != c.group || !Allowed(w, c) then was
    else match c.op
      case Create(_) => if a == c.actor then Some(Owner) else was
      case Join(_) => if a == c.actor && was == None && w.groups[g] != Approval then Some(Member) else was
      case Leave => if a == c.actor then None else was
      case Remove(target) => if a == target then None else was
      case Transfer(target) => if a == target then Some(Owner) else if a == c.actor then Some(Admin) else was
      case ChangeRole(target, role) => if a == target then Some(role) else was
      case AnswerInvite(_, answer) => if answer == Accept && a == c.actor && was == None then Some(Member) else was
      case AnswerAsk(id, answer) =>
        if answer == Accept && a == w.requests[id].account && was == None then Some(Member) else was
      case _ => was
  }

  lemma CreateStanding(w: World, c: Call, g: Conversation, a: Account)
    requires Inv(w) && c.op.Create?
    ensures RoleOf(Next(w, c).rows, g, a) == Standing(w, c, g, a)
  {
    AnsweredIff(w, c);
    hide Inv, CacheSet, MembersOf, RoleOf, Petitioned;
    if Allowed(w, c) {
      AppendedRoles(w.rows, Row(c.actor, c.group, Owner, true), g, a);
    }
  }

  lemma JoinStanding(w: World, c: Call, g: Conversation, a: Account)
    requires Inv(w) && c.op.Join?
    ensures RoleOf(Next(w, c).rows, g, a) == Standing(w, c, g, a)
  {
    AnsweredIff(w, c);
    hide Inv, CacheSet, MembersOf, RoleOf, Petitioned, Added;
    if Allowed(w, c) {
      AddedRoles(w.rows, c.group, c.actor, g, a);
    }
  }

  lemma LeaveStanding(w: World, c: Call, g: Conversation, a: Account)
    requires Inv(w) && c.op.Leave?
    ensures RoleOf(Next(w, c).rows, g, a) == Standing(w, c, g, a)
  {
    AnsweredIff(w, c);
    hide Inv, CacheSet, MembersOf, RoleOf, Petitioned, Departed;
    if Allowed(w, c) {
      DepartedRoles(w.rows, c.group, c.actor, g, a);
    }
  }

  lemma RemoveStanding(w: World, c: Call, g: Conversation, a: Account)
    requires Inv(w) && c.op.Remove?
    ensures RoleOf(Next(w, c).rows, g, a) == Standing(w, c, g, a)
  {
    AnsweredIff(w, c);
    hide Inv, CacheSet, MembersOf, RoleOf, Petitioned, Departed;
    if Allowed(w, c) {
      DepartedRoles(w.rows, c.group, c.op.target, g, a);
    }
  }

  lemma TransferStanding(w: World, c: Call, g: Conversation, a: Account)
    requires Inv(w) && c.op.Transfer?
    ensures RoleOf(Next(w, c).rows, g, a) == Standing(w, c, g, a)
  {
    AnsweredIff(w, c);
    hide Inv, CacheSet, MembersOf, RoleOf, Petitioned, HandedOver;
    if Allowed(w, c) {
      HandedOverRoles(w.rows, c.group, c.actor, c.op.target, g, a);
    }
  }

  lemma ChangeRoleStanding(w: World, c: Call, g: Conversation, a: Account)
    requires Inv(w) && c.op.ChangeRole?
    ensures RoleOf(Next(w, c).rows, g, a) == Standing(w, c, g, a)
  {
    AnsweredIff(w, c);
    hide Inv, CacheSet, MembersOf, RoleOf, Petitioned, Promoted;
    if Allowed(w, c) {
      PromotedRoles(w.rows, c.group, c.op.target, c.op.role, g, a);
    }
  }

  lemma AnswerInviteStanding(w: World, c: Call, g: Conversation, a: Account)
    requires Inv(w) && c.op.AnswerInvite?
    ensures RoleOf(Next(w, c).rows, g, a) == Standing(w, c, g, a)
  {
    AnsweredIff(w, c);
    hide Inv, CacheSet, MembersOf, RoleOf, Petitioned, Added;
    if Allowed(w, c) {
      AddedRoles(w.rows, c.group, c.actor, g, a);
    }
  }

  lemma AnswerAskStanding(w: World, c: Call, g: Conversation, a: Account)
    requires Inv(w) && c.op.AnswerAsk?
    ensures RoleOf(Next(w, c).rows, g, a) == Standing(w, c, g, a)
  {
    AnsweredIff(w, c);
    hide Inv, CacheSet, MembersOf, RoleOf, Petitioned, Added;
    if Allowed(w, c) {
      if c.op.answer != Cancel { AddedRoles(w.rows, c.group, w.requests[c.op.id].account, g, a); }
    }
  }

  /** Every call leaves every account with exactly the role it is said to give it, in every group. */
  lemma StandingIs(w: World, c: Call, g: Conversation, a: Account)
    requires Inv(w)
    ensures RoleOf(Next(w, c).rows, g, a) == Standing(w, c, g, a)
  {
    hide Inv, Allowed, RoleOf;
    match c.op
    case Create(_) => CreateStanding(w, c, g, a);
    case Join(_) => JoinStanding(w, c, g, a);
    case Leave => LeaveStanding(w, c, g, a);
    case Remove(_) => RemoveStanding(w, c, g, a);
    case Transfer(_) => TransferStanding(w, c, g, a);
    case ChangeRole(_, _) => ChangeRoleStanding(w, c, g, a);
    case AnswerInvite(_, _) => AnswerInviteStanding(w, c, g, a);
    case AnswerAsk(_, _) => AnswerAskStanding(w, c, g, a);
    case _ => AnsweredIff(w, c);
  }

  /** A join rule is what it was made or last changed to by right. */
  lemma RulesAre(w: World, c: Call)
    requires Inv(w)
    ensures Next(w, c).groups
            == match c.op
               case Create(rule) => if Allowed(w, c) then w.groups[c.group := rule] else w.groups
               case Update(Some(rule)) => if Allowed(w, c) then w.groups[c.group := rule] else w.groups
               case _ => w.groups
  {
    AnsweredIff(w, c);
    Grounds(w, c.group, c.actor);
    hide Inv, CacheSet, MembersOf, RoleOf, Petitioned, Added, Departed, Promoted, HandedOver, Settled;
  }

  lemma Grounds(w: World, g: Conversation, a: Account)
    requires Inv(w)
    ensures RoleOf(w.rows, g, a).Some? ==> g in w.groups
  {}

  // ---- what a call does to petitions ----

  /** The table after a petition: as it was if one is pending, or else with a new one at the end. */
  ghost predicate Petitions(
      table: seq<Petition>, later: seq<Petition>, g: Conversation, sender: Account, a: Account, reply: Reply)
  {
    && reply.Created? && reply.id < |later| && IsPending(later[reply.id], g, a)
    && later == (if PendingFor(table, g, a) then table else table + [Petition(g, sender, a, Pending)])
  }

  lemma PetitionsIs(table: seq<Petition>, g: Conversation, sender: Account, a: Account)
    ensures Petitions(table, Petitioned(table, g, sender, a), g, sender, a, Created(PendingAt(table, g, a)))
  {}

  // An open petition gets the answer; one that is answered, or belongs to another group, stays as it is.
  function Answered(table: seq<Petition>, id: nat, g: Conversation, answer: Answer): seq<Petition> {
    if id < |table| && table[id].status == Pending && table[id].group == g then
      table[id := Petition(g, table[id].sender, table[id].account,
                           match answer case Accept => Accepted case Reject => Rejected case Cancel => Cancelled)]
    else table
  }

  /**
    An invitation is made, or found pending, and answered as its account says or withdrawn by its sender; nothing
    else touches an invitation.
   */
  lemma InvitesAre(w: World, c: Call)
    requires Inv(w)
    ensures var later := Next(w, c).invites;
            match c.op
            case Invite(target, _) =>
              if Allowed(w, c) then Petitions(w.invites, later, c.group, c.actor, target, Handle(w, c).reply)
              else later == w.invites
            case AnswerInvite(id, answer) =>
              later == if Allowed(w, c) && (answer == Cancel ==> id < |w.invites| && w.invites[id].sender == c.actor)
                       then Answered(w.invites, id, c.group, answer) else w.invites
            case _ => later == w.invites
  {
    AnsweredIff(w, c);
    hide Inv, CacheSet, MembersOf, RoleOf, Added, Departed, Promoted, HandedOver, PendingAt, Petitioned, Petitions;
    if c.op.Invite? { PetitionsIs(w.invites, c.group, c.actor, c.op.target); }
  }

  /** The same for join requests, which their own account makes and withdraws and an admin answers. */
  lemma RequestsAre(w: World, c: Call)
    requires Inv(w)
    ensures var later, asks := Next(w, c).requests, RoleOf(w.rows, c.group, c.actor) == None && Allowed(w, c);
            match c.op
            case Join(_) =>
              if asks && w.groups[c.group] == Approval
              then Petitions(w.requests, later, c.group, c.actor, c.actor, Handle(w, c).reply)
              else later == w.requests
            case Ask =>
              if asks then Petitions(w.requests, later, c.group, c.actor, c.actor, Handle(w, c).reply)
              else later == w.requests
            case AnswerAsk(id, answer) =>
              later == if Allowed(w, c) && (answer == Cancel ==> id < |w.requests| && w.requests[id].account == c.actor)
                       then Answered(w.requests, id, c.group, answer) else w.requests
            case _ => later == w.requests
  {
    AnsweredIff(w, c);
    hide Inv, CacheSet, MembersOf, RoleOf, Added, Departed, Promoted, HandedOver, PendingAt, Petitioned, Petitions;
    if c.op.Join? || c.op.Ask? { PetitionsIs(w.requests, c.group, c.actor, c.actor); }
  }

  // ---- replies ----

  /** Whether a call announces the group's conversation to its members. */
  predicate Announces(w: World, c: Call) {
    match c.op
    case Join(_) => RoleOf(w.rows, c.group, c.actor) == None && c.group in w.groups && w.groups[c.group] != Approval
    case Invite(_, _) => false
    case AnswerInvite(_, answer) => answer != Cancel
    case Ask => false
    case AnswerAsk(_, answer) => answer != Cancel
    case ReadMembers => false
    case ClearCache => false
    case _ => true
  }

  /** An answered call is announced exactly when it may have changed the group, to the members it leaves. */
  lemma AnnouncedIff(w: World, c: Call)
    requires Inv(w) && Enabled(w, c)
    ensures Handle(w, c).told.Some? <==> Allowed(w, c) && Announces(w, c)
    ensures Handle(w, c).told.Some? ==> Lists(Handle(w, c).told.value, Next(w, c).rows, c.group)
  {
    AnsweredIff(w, c);
    Groups.StepKeepsInv(w, c);
    hide Inv, CacheSet, MembersOf, RoleOf, Petitioned, Added, Departed, Promoted, HandedOver, Settled, Lists;
  }

  lemma PublishedCaches(w: World, g: Conversation, victim: Conversation)
    ensures var o := Published(w, g, victim);
            o.told.Some? && g in o.world.cache && o.world.cache[g] == o.told.value
  {}

  lemma ReadCaches(w: World, g: Conversation, victim: Conversation)
    ensures var later := Read(w, g, victim).0;
            && g in later.cache && (g in w.cache ==> later.cache == w.cache)
            && (g !in w.cache ==> later.cache[g] == MembersOf(w.rows, g))
  {}

  // An announced call ends by publishing.
  lemma AnnouncedByPublishing(w: World, c: Call)
    ensures Handle(w, c).told.Some? && !c.op.Create? ==>
              exists x :: Handle(w, c) == Published(x, c.group, c.victim)
  {
    hide Published, Read, MembersOf, RoleOf, Petitioned, Added, Departed, Promoted, HandedOver, Settled, CacheSet;
  }

  /** A list that is announced to or read is remembered; apart from a clearing, nothing else touches the cache. */
  lemma CacheIs(w: World, c: Call)
    ensures var o := Handle(w, c);
            && (o.told.Some? ==> c.group in o.world.cache && o.world.cache[c.group] == o.told.value)
            && (c.op.ReadMembers? ==>
                  c.group in o.world.cache && (c.group in w.cache ==> o.world.cache == w.cache)
                  && (c.group !in w.cache ==> o.world.cache[c.group] == MembersOf(w.rows, c.group)))
            && (c.op.ClearCache? ==> o.world.cache == map[])
            && (o.told == None && !c.op.ReadMembers? && !c.op.ClearCache? ==> o.world.cache == w.cache)
  {
    hide Inv, MembersOf, RoleOf, Petitioned, Added, Departed, Promoted, HandedOver, Settled, Read, Published;
    ReadCaches(w, c.group, c.victim);
    AnnouncedByPublishing(w, c);
    if Handle(w, c).told.Some? && !c.op.Create? {
      var x :| Handle(w, c) == Published(x, c.group, c.victim);
      PublishedCaches(x, c.group, c.victim);
    }
    QuietUnpublished(w, c);
  }

  lemma QuietUnpublished(w: World, c: Call)
    ensures var o := Handle(w, c);
            o.told == None && !c.op.ReadMembers? && !c.op.ClearCache? ==> o.world.cache == w.cache
  {
    hide Read, MembersOf, RoleOf, Petitioned, Added, Departed, Promoted, HandedOver, Settled, CacheSet;
  }

  // The actor's rank is too low for the operation, or for its target.
  predicate LacksRank(w: World, c: Call, mine: nat) {
    match c.op
    case Leave => mine == 0
    case Remove(target) => mine < 2 || (target != c.actor && Rank(RoleOf(w.rows, c.group, target)) >= mine)
    case Transfer(_) => mine < 3
    case ChangeRole(target, _) => mine < 3 || (target != c.actor && Rank(RoleOf(w.rows, c.group, target)) == 3)
    case Update(_) => mine < 2
    case Invite(_, _) => mine < 2
    case AnswerInvite(_, answer) => answer == Cancel && mine < 2
    case AnswerAsk(_, answer) => answer != Cancel && mine < 2
    case _ => false
  }

  /** What a refusal says about the call. */
  predicate Explains(w: World, c: Call, reason: Refusal) {
    var g, mine := c.group, Rank(RoleOf(w.rows, c.group, c.actor));
    match reason
    case Forbidden => LacksRank(w, c, mine)
    case GroupNotFound => g !in w.groups
    case GroupExists => c.op.Create? && g in w.groups
    case OwnershipTransferRequired => c.op.Leave? && mine == 3
    case InvalidUser => (c.op.Remove? || c.op.Transfer? || c.op.Invite?) && c.op.target == c.actor
    case InvalidRole => c.op.ChangeRole? && (c.op.role == Owner || c.op.target == c.actor)
    case MemberNotFound =>
      (c.op.Remove? || c.op.Transfer? || c.op.ChangeRole?) && RoleOf(w.rows, g, c.op.target) == None
    case Blocked => c.op.Invite? && c.op.blocked
    case AlreadyMember => c.op.Invite? && c.op.target != c.actor && RoleOf(w.rows, g, c.op.target) != None
    case InviteRequired => c.op.Join? && g in w.groups && w.groups[g] == InviteOnly
    case InvalidPassword => c.op.Join? && g in w.groups && w.groups[g] == Password && !c.op.passwordOk
    case InvitationNotFound =>
      c.op.AnswerInvite? && !(c.op.id < |w.invites| && IsPending(w.invites[c.op.id], g, c.actor))
    case JoinRequestNotAllowed => c.op.Ask? && g in w.groups && w.groups[g] != Approval
    case JoinRequestNotFound =>
      c.op.AnswerAsk? && !(c.op.id < |w.requests| && IsPending(w.requests[c.op.id], g, w.requests[c.op.id].account))
  }

  /** The reason given for a refusal is true of the call, in any state at all. */
  lemma RefusalsAreTrue(w: World, c: Call)
    requires Handle(w, c).reply.Refused?
    ensures Explains(w, c, Handle(w, c).reply.reason)
  {
    hide CacheSet, MembersOf, RoleOf, Petitioned, Added, Departed, Promoted, HandedOver, Settled;
  }
}
