/**
  Group membership: the handlers that create, join, leave, run and hand over a group, each taken as one
  step over the membership rows, the invitation and join-request tables and the cache of member lists.
 */
module Groups {
  import opened Common

  const MAX_CACHED: nat := 10000

  datatype Role = Owner | Admin | Member

  // One membership record; leaving keeps the record and makes it inactive.
  datatype Row = Row(account: Account, group: Conversation, role: Role, active: bool)

  datatype JoinRule = Open | InviteOnly | Approval | Password

  datatype Status = Pending | Accepted | Rejected | Cancelled

  // An invitation, or a join request (whose sender is the account itself). Its id is its place in the table.
  datatype Petition = Petition(group: Conversation, sender: Account, account: Account, status: Status)

  type Cache = map<Conversation, seq<Account>>

  datatype World = World(
    rows: seq<Row>,
    groups: map<Conversation, JoinRule>,
    invites: seq<Petition>,
    requests: seq<Petition>,
    cache: Cache)

  datatype Answer = Accept | Reject | Cancel

  datatype Op =
    | Create(rule: JoinRule)
    | Join(passwordOk: bool)
    | Leave
    | Remove(target: Account)
    | Transfer(target: Account)
    | ChangeRole(target: Account, role: Role)
    | Update(change: Option<JoinRule>)
    | Invite(target: Account, blocked: bool)
    | AnswerInvite(id: nat, answer: Answer)
    | Ask
    | AnswerAsk(id: nat, answer: Answer)
    | ReadMembers
    | ClearCache

  // `victim` is the cached conversation that gives way when the cache is full.
  datatype Call = Call(actor: Account, group: Conversation, op: Op, victim: Conversation)

  datatype Refusal =
    | Forbidden | GroupNotFound | GroupExists | OwnershipTransferRequired | InvalidUser | InvalidRole
    | MemberNotFound | Blocked | AlreadyMember | InviteRequired | InvalidPassword
    | InvitationNotFound | JoinRequestNotAllowed | JoinRequestNotFound

  // `told` is the list of accounts an event was published to, if one was.
  datatype Outcome = Outcome(world: World, reply: Reply, told: Option<seq<Account>>)

  datatype Reply = Done | Created(id: nat) | Refused(reason: Refusal)

  // ---- the database queries ----

  predicate Is(row: Row, g: Conversation, a: Account) {
    row.active && row.group == g && row.account == a
  }

  function RoleOf(rows: seq<Row>, g: Conversation, a: Account): Option<Role> {
    if rows == [] then None else if Is(rows[0], g, a) then Some(rows[0].role) else RoleOf(rows[1..], g, a)
  }

  function MembersOf(rows: seq<Row>, g: Conversation): seq<Account> {
    if rows == [] then []
    else (if rows[0].active && rows[0].group == g then [rows[0].account] else []) + MembersOf(rows[1..], g)
  }

  function OwnersOf(rows: seq<Row>, g: Conversation): seq<Account> {
    if rows == [] then []
    else (if rows[0].active && rows[0].group == g && rows[0].role.Owner? then [rows[0].account] else [])
         + OwnersOf(rows[1..], g)
  }

  function Departed(rows: seq<Row>, g: Conversation, a: Account): (r: seq<Row>)
    ensures |r| == |rows|
    ensures forall i :: 0 <= i < |r| ==> r[i] == if Is(rows[i], g, a) then rows[i].(active := false) else rows[i]
  {
    if rows == [] then []
    else [if Is(rows[0], g, a) then rows[0].(active := false) else rows[0]] + Departed(rows[1..], g, a)
  }

  function Promoted(rows: seq<Row>, g: Conversation, a: Account, role: Role): (r: seq<Row>)
    ensures |r| == |rows|
    ensures forall i :: 0 <= i < |r| ==> r[i] == if Is(rows[i], g, a) then rows[i].(role := role) else rows[i]
  {
    if rows == [] then []
    else [if Is(rows[0], g, a) then rows[0].(role := role) else rows[0]] + Promoted(rows[1..], g, a, role)
  }

  function Added(rows: seq<Row>, g: Conversation, a: Account): seq<Row> {
    if RoleOf(rows, g, a).None? then rows + [Row(a, g, Member, true)] else rows
  }

  // The ownership transaction: the target becomes owner, then the old owner becomes an admin.
  function HandedOver(rows: seq<Row>, g: Conversation, from: Account, to: Account): seq<Row> {
    Promoted(Promoted(rows, g, to, Owner), g, from, Admin)
  }

  predicate IsPending(p: Petition, g: Conversation, a: Account) {
    p.status.Pending? && p.group == g && p.account == a
  }

  // The place of the first pending petition of an account for a group, or the table's length.
  function PendingAt(table: seq<Petition>, g: Conversation, a: Account): (id: nat)
    ensures id <= |table|
    ensures id < |table| ==> IsPending(table[id], g, a)
    ensures forall i :: 0 <= i < id ==> !IsPending(table[i], g, a)
  {
    if table == [] || IsPending(table[0], g, a) then 0 else 1 + PendingAt(table[1..], g, a)
  }

  function Petitioned(table: seq<Petition>, g: Conversation, sender: Account, a: Account): seq<Petition> {
    if PendingAt(table, g, a) < |table| then table else table + [Petition(g, sender, a, Pending)]
  }

  function Settled(table: seq<Petition>, id: nat, status: Status): seq<Petition>
    requires id < |table|
  {
    table[id := table[id].(status := status)]
  }

  predicate Found(table: seq<Petition>, id: nat, g: Conversation) {
    id < |table| && table[id].group == g && table[id].status.Pending?
  }

  // ---- the cache ----

  function CacheSet(cache: Cache, g: Conversation, members: seq<Account>, victim: Conversation): Cache {
    (if g !in cache && |cache| >= MAX_CACHED then cache - {victim} else cache)[g := members]
  }

  /** The member list from the cache, or else from the database and remembered. */
  function Read(w: World, g: Conversation, victim: Conversation): (World, seq<Account>) {
    if g in w.cache then (w, w.cache[g])
    else (w.(cache := CacheSet(w.cache, g, MembersOf(w.rows, g), victim)), MembersOf(w.rows, g))
  }

  function Published(w: World, g: Conversation, victim: Conversation): Outcome {
    Outcome(Read(w, g, victim).0, Done, Some(Read(w, g, victim).1))
  }

  // After a change of membership the cached list is dropped and the event goes out to a list read afresh.
  function Refreshed(w: World, rows: seq<Row>, g: Conversation, victim: Conversation): Outcome {
    Published(w.(rows := rows, cache := w.cache - {g}), g, victim)
  }

  // ---- the handlers ----

  function Denied(w: World, reason: Refusal): Outcome {
    Outcome(w, Refused(reason), None)
  }

  predicate Runs(role: Option<Role>) {
    role.Some? && !role.value.Member?
  }

  function OnCreate(w: World, c: Call, rule: JoinRule): Outcome {
    if c.group in w.groups then Denied(w, GroupExists)
    else
      Outcome(w.(rows := w.rows + [Row(c.actor, c.group, Owner, true)], groups := w.groups[c.group := rule],
                 cache := CacheSet(w.cache, c.group, [c.actor], c.victim)), Done, Some([c.actor]))
  }

  function Requested(w: World, c: Call): Outcome {
    Outcome(w.(requests := Petitioned(w.requests, c.group, c.actor, c.actor)),
            Created(PendingAt(w.requests, c.group, c.actor)), None)
  }

  function OnJoin(w: World, c: Call, passwordOk: bool): Outcome {
    if c.group !in w.groups then Denied(w, GroupNotFound)
    else if RoleOf(w.rows, c.group, c.actor).Some? then Outcome(w, Done, None)
    else match w.groups[c.group]
      case InviteOnly => Denied(w, InviteRequired)
      case Approval => Requested(w, c)
      case Password =>
        if !passwordOk then Denied(w, InvalidPassword)
        else Refreshed(w, Added(w.rows, c.group, c.actor), c.group, c.victim)
      case Open => Refreshed(w, Added(w.rows, c.group, c.actor), c.group, c.victim)
  }

  function OnLeave(w: World, c: Call): Outcome {
    var role := RoleOf(w.rows, c.group, c.actor);
    if role.None? then Denied(w, Forbidden)
    else if role.value.Owner? && |OwnersOf(w.rows, c.group)| <= 1 then Denied(w, OwnershipTransferRequired)
    else Refreshed(w, Departed(w.rows, c.group, c.actor), c.group, c.victim)
  }

  function OnRemove(w: World, c: Call, target: Account): Outcome {
    var role, targetRole := RoleOf(w.rows, c.group, c.actor), RoleOf(w.rows, c.group, target);
    if !Runs(role) then Denied(w, Forbidden)
    else if target == c.actor then Denied(w, InvalidUser)
    else if targetRole.None? then Denied(w, MemberNotFound)
    else if targetRole.value.Owner? || (role.value.Admin? && targetRole.value.Admin?) then Denied(w, Forbidden)
    else Refreshed(w, Departed(w.rows, c.group, target), c.group, c.victim)
  }

  function OnTransfer(w: World, c: Call, target: Account): Outcome {
    var role := RoleOf(w.rows, c.group, c.actor);
    if role.None? || !role.value.Owner? then Denied(w, Forbidden)
    else if target == c.actor then Denied(w, InvalidUser)
    else if RoleOf(w.rows, c.group, target).None? then Denied(w, MemberNotFound)
    else Published(w.(rows := HandedOver(w.rows, c.group, c.actor, target)), c.group, c.victim)
  }

  function OnChangeRole(w: World, c: Call, target: Account, newRole: Role): Outcome {
    var role, targetRole := RoleOf(w.rows, c.group, c.actor), RoleOf(w.rows, c.group, target);
    if role.None? || !role.value.Owner? then Denied(w, Forbidden)
    else if newRole.Owner? || target == c.actor then Denied(w, InvalidRole)
    else if targetRole.None? then Denied(w, MemberNotFound)
    else if targetRole.value.Owner? then Denied(w, Forbidden)
    else Published(w.(rows := Promoted(w.rows, c.group, target, newRole)), c.group, c.victim)
  }

  function OnUpdate(w: World, c: Call, rule: Option<JoinRule>): Outcome {
    if !Runs(RoleOf(w.rows, c.group, c.actor)) then Denied(w, Forbidden)
    else if rule.Some? && c.group in w.groups then
      Published(w.(groups := w.groups[c.group := rule.value]), c.group, c.victim)
    else Published(w, c.group, c.victim)
  }

  function OnInvite(w: World, c: Call, target: Account, blocked: bool): Outcome {
    if !Runs(RoleOf(w.rows, c.group, c.actor)) then Denied(w, Forbidden)
    else if target == c.actor then Denied(w, InvalidUser)
    else if blocked then Denied(w, Blocked)
    else if RoleOf(w.rows, c.group, target).Some? then Denied(w, AlreadyMember)
    else
      Outcome(w.(invites := Petitioned(w.invites, c.group, c.actor, target)),
              Created(PendingAt(w.invites, c.group, target)), None)
  }

  function OnAnswerInvite(w: World, c: Call, id: nat, answer: Answer): Outcome {
    var found := Found(w.invites, id, c.group);
    if answer.Cancel? then
      if !Runs(RoleOf(w.rows, c.group, c.actor)) then Denied(w, Forbidden)
      else if found && w.invites[id].sender == c.actor then
        Outcome(w.(invites := Settled(w.invites, id, Cancelled)), Done, None)
      else Outcome(w, Done, None)
    else if !found || w.invites[id].account != c.actor then Denied(w, InvitationNotFound)
    else
      var rows := if answer.Accept? then Added(w.rows, c.group, c.actor) else w.rows;
      var invites := Settled(w.invites, id, if answer.Accept? then Accepted else Rejected);
      Refreshed(w.(invites := invites), rows, c.group, c.victim)
  }

  function OnAsk(w: World, c: Call): Outcome {
    if c.group !in w.groups then Denied(w, GroupNotFound)
    else if !w.groups[c.group].Approval? then Denied(w, JoinRequestNotAllowed)
    else if RoleOf(w.rows, c.group, c.actor).Some? then Outcome(w, Done, None)
    else Requested(w, c)
  }

  function OnAnswerAsk(w: World, c: Call, id: nat, answer: Answer): Outcome {
    var found := Found(w.requests, id, c.group);
    if answer.Cancel? then
      if found && w.requests[id].account == c.actor then
        Outcome(w.(requests := Settled(w.requests, id, Cancelled)), Done, None)
      else Outcome(w, Done, None)
    else if !Runs(RoleOf(w.rows, c.group, c.actor)) then Denied(w, Forbidden)
    else if !found then Denied(w, JoinRequestNotFound)
    else
      var rows := if answer.Accept? then Added(w.rows, c.group, w.requests[id].account) else w.rows;
      var requests := Settled(w.requests, id, if answer.Accept? then Accepted else Rejected);
      Refreshed(w.(requests := requests), rows, c.group, c.victim)
  }

  function Handle(w: World, c: Call): Outcome {
    match c.op
    case Create(rule) => OnCreate(w, c, rule)
    case Join(passwordOk) => OnJoin(w, c, passwordOk)
    case Leave => OnLeave(w, c)
    case Remove(target) => OnRemove(w, c, target)
    case Transfer(target) => OnTransfer(w, c, target)
    case ChangeRole(target, role) => OnChangeRole(w, c, target, role)
    case Update(rule) => OnUpdate(w, c, rule)
    case Invite(target, blocked) => OnInvite(w, c, target, blocked)
    case AnswerInvite(id, answer) => OnAnswerInvite(w, c, id, answer)
    case Ask => OnAsk(w, c)
    case AnswerAsk(id, answer) => OnAnswerAsk(w, c, id, answer)
    case ReadMembers => Outcome(Read(w, c.group, c.victim).0, Done, None)
    case ClearCache => Outcome(w.(cache := map[]), Done, None)
  }

  function Next(w: World, c: Call): World {
    Handle(w, c).world
  }

  // ---- the invariant ----

  ghost predicate OneRowEach(rows: seq<Row>) {
    forall i, j :: 0 <= i < j < |rows| && rows[i].active && rows[j].active ==>
      rows[i].group != rows[j].group || rows[i].account != rows[j].account
  }

  ghost predicate OwnerIs(rows: seq<Row>, g: Conversation, o: Account) {
    forall a :: RoleOf(rows, g, a) == Some(Owner) <==> a == o
  }

  ghost predicate OneOwner(rows: seq<Row>, g: Conversation) {
    exists o :: OwnerIs(rows, g, o)
  }

  predicate Distinct(list: seq<Account>) {
    forall i, j :: 0 <= i < j < |list| ==> list[i] != list[j]
  }

  /** A list holds exactly the active members, each once. */
  ghost predicate Lists(list: seq<Account>, rows: seq<Row>, g: Conversation) {
    Distinct(list) && forall a :: a in list <==> RoleOf(rows, g, a).Some?
  }

  ghost predicate RowsOk(rows: seq<Row>, groups: map<Conversation, JoinRule>) {
    && OneRowEach(rows)
    && (forall g, a :: RoleOf(rows, g, a).Some? ==> g in groups)
    && (forall g :: g in groups ==> OneOwner(rows, g))
  }

  ghost predicate CacheOk(cache: Cache, rows: seq<Row>) {
    && |cache| <= MAX_CACHED
    && (forall g :: g in cache ==> Lists(cache[g], rows, g))
  }

  // At most one petition of an account for a group is pending.
  ghost predicate PetitionsOk(table: seq<Petition>) {
    forall i, j :: 0 <= i < j < |table| && table[i].status.Pending? && table[j].status.Pending? ==>
      table[i].group != table[j].group || table[i].account != table[j].account
  }

  // A petition names a group that exists.
  ghost predicate Grounded(table: seq<Petition>, groups: map<Conversation, JoinRule>) {
    forall i :: 0 <= i < |table| ==> table[i].group in groups
  }

  ghost predicate Inv(w: World) {
    && RowsOk(w.rows, w.groups) && CacheOk(w.cache, w.rows)
    && PetitionsOk(w.invites) && PetitionsOk(w.requests)
    && Grounded(w.invites, w.groups) && Grounded(w.requests, w.groups)
  }

  // The conversation chosen to give way is one that is cached.
  predicate Enabled(w: World, c: Call) {
    |w.cache| >= MAX_CACHED ==> c.victim in w.cache
  }

  // ---- what the queries and updates do to roles ----

  lemma {:induction false} DepartedRoles(rows: seq<Row>, g: Conversation, a: Account, h: Conversation, b: Account)
    ensures RoleOf(Departed(rows, g, a), h, b) == if h == g && b == a then None else RoleOf(rows, h, b)
  {
    if rows != [] { DepartedRoles(rows[1..], g, a, h, b); }
  }

  lemma {:induction false} PromotedRoles(
      rows: seq<Row>, g: Conversation, a: Account, role: Role, h: Conversation, b: Account)
    ensures RoleOf(Promoted(rows, g, a, role), h, b)
            == if h == g && b == a && RoleOf(rows, h, b).Some? then Some(role) else RoleOf(rows, h, b)
  {
    if rows != [] { PromotedRoles(rows[1..], g, a, role, h, b); }
  }

  lemma {:induction false} AppendedRoles(rows: seq<Row>, row: Row, h: Conversation, b: Account)
    ensures RoleOf(rows + [row], h, b)
            == if RoleOf(rows, h, b).None? && Is(row, h, b) then Some(row.role) else RoleOf(rows, h, b)
  {
    if rows == [] {
      assert rows + [row] == [row];
    } else {
      assert (rows + [row])[1..] == rows[1..] + [row];
      AppendedRoles(rows[1..], row, h, b);
    }
  }

  lemma {:induction false} RoleAt(rows: seq<Row>, g: Conversation, a: Account)
    ensures RoleOf(rows, g, a).None? <==> forall i :: 0 <= i < |rows| ==> !Is(rows[i], g, a)
    ensures OneRowEach(rows) ==>
              forall i :: 0 <= i < |rows| && Is(rows[i], g, a) ==> RoleOf(rows, g, a) == Some(rows[i].role)
  {
    if rows != [] {
      var tail := rows[1..];
      RoleAt(tail, g, a);
      forall i | 0 <= i < |rows| && Is(rows[i], g, a) && !Is(rows[0], g, a) ensures Is(tail[i - 1], g, a) {}
      if RoleOf(rows, g, a).None? {
        forall i | 0 <= i < |rows| ensures !Is(rows[i], g, a) {
          if i > 0 { assert !Is(tail[i - 1], g, a); }
        }
      }
    }
  }

  // ---- the queries read what the invariant says ----

  lemma {:induction false} MembersIn(rows: seq<Row>, g: Conversation, a: Account)
    ensures a in MembersOf(rows, g) <==> RoleOf(rows, g, a).Some?
  {
    if rows != [] { MembersIn(rows[1..], g, a); }
  }

  lemma OneRowTail(rows: seq<Row>)
    requires OneRowEach(rows) && rows != []
    ensures OneRowEach(rows[1..])
    ensures rows[0].active ==> RoleOf(rows[1..], rows[0].group, rows[0].account).None?
  {
    RoleAt(rows[1..], rows[0].group, rows[0].account);
  }

  lemma {:induction false} MembersDistinct(rows: seq<Row>, g: Conversation)
    requires OneRowEach(rows)
    ensures Distinct(MembersOf(rows, g))
  {
    if rows != [] {
      OneRowTail(rows);
      MembersDistinct(rows[1..], g);
      MembersIn(rows[1..], g, rows[0].account);
    }
  }

  /** The member query lists exactly the active members. */
  lemma MembersListed(rows: seq<Row>, g: Conversation)
    requires OneRowEach(rows)
    ensures Lists(MembersOf(rows, g), rows, g)
  {
    MembersDistinct(rows, g);
    forall a ensures a in MembersOf(rows, g) <==> RoleOf(rows, g, a).Some? { MembersIn(rows, g, a); }
  }

  lemma {:induction false} OwnersOnly(rows: seq<Row>, g: Conversation, o: Account)
    requires OneRowEach(rows) && forall a :: RoleOf(rows, g, a) == Some(Owner) ==> a == o
    ensures OwnersOf(rows, g) == if RoleOf(rows, g, o) == Some(Owner) then [o] else []
  {
    if rows != [] {
      OneRowTail(rows);
      forall a | RoleOf(rows[1..], g, a) == Some(Owner) ensures a == o {
        assert RoleOf(rows, g, a) == Some(Owner);
      }
      OwnersOnly(rows[1..], g, o);
      if rows[0].active && rows[0].group == g {
        assert RoleOf(rows, g, rows[0].account) == Some(rows[0].role);
      }
    }
  }

  /** The owner query returns the one owner and nobody else. */
  lemma OwnersListed(rows: seq<Row>, g: Conversation, o: Account)
    requires OneRowEach(rows) && OwnerIs(rows, g, o)
    ensures OwnersOf(rows, g) == [o]
  {
    OwnersOnly(rows, g, o);
  }

  // ---- every step keeps the invariant ----

  // The membership of every group but `g` is the same in both tables.
  ghost predicate SameElsewhere(rows: seq<Row>, later: seq<Row>, g: Conversation) {
    forall h, a :: h != g ==> RoleOf(later, h, a) == RoleOf(rows, h, a)
  }

  ghost predicate SameMembers(rows: seq<Row>, later: seq<Row>) {
    forall h, a :: RoleOf(later, h, a).Some? == RoleOf(rows, h, a).Some?
  }

  /** The list is stored, and only a full cache that does not know the conversation gives up another. */
  lemma CacheSetStores(cache: Cache, g: Conversation, members: seq<Account>, victim: Conversation)
    ensures var later := CacheSet(cache, g, members, victim);
            && g in later && later[g] == members
            && forall h :: h != g ==>
                 (h in later <==> h in cache && (h == victim ==> g in cache || |cache| < MAX_CACHED))
                 && (h in later ==> later[h] == cache[h])
  {}

  lemma CacheSetSize(cache: Cache, g: Conversation, members: seq<Account>, victim: Conversation)
    requires |cache| <= MAX_CACHED && (|cache| >= MAX_CACHED ==> victim in cache)
    ensures |CacheSet(cache, g, members, victim)| <= MAX_CACHED
  {}

  lemma ReadKeepsCache(w: World, g: Conversation, victim: Conversation)
    requires OneRowEach(w.rows) && CacheOk(w.cache, w.rows) && (|w.cache| >= MAX_CACHED ==> victim in w.cache)
    ensures CacheOk(Read(w, g, victim).0.cache, w.rows)
    ensures Lists(Read(w, g, victim).1, w.rows, g)
  {
    MembersListed(w.rows, g);
    if g !in w.cache { CacheSetSize(w.cache, g, MembersOf(w.rows, g), victim); }
  }

  lemma RefreshedKeepsInv(w: World, rows: seq<Row>, g: Conversation, victim: Conversation)
    requires Inv(w) && RowsOk(rows, w.groups) && SameElsewhere(w.rows, rows, g)
    requires |w.cache| >= MAX_CACHED ==> victim in w.cache
    ensures Inv(Refreshed(w, rows, g, victim).world)
    ensures Lists(Refreshed(w, rows, g, victim).told.value, rows, g)
  {
    ReadKeepsCache(w.(rows := rows, cache := w.cache - {g}), g, victim);
  }

  lemma PublishedKeepsInv(w: World, rows: seq<Row>, g: Conversation, victim: Conversation)
    requires Inv(w) && RowsOk(rows, w.groups) && SameMembers(w.rows, rows)
    requires |w.cache| >= MAX_CACHED ==> victim in w.cache
    ensures Inv(Published(w.(rows := rows), g, victim).world)
    ensures Lists(Published(w.(rows := rows), g, victim).told.value, rows, g)
  {
    forall h | h in w.cache ensures Lists(w.cache[h], rows, h) { assert Lists(w.cache[h], w.rows, h); }
    ReadKeepsCache(w.(rows := rows), g, victim);
  }

  // Rows change in one group, whose owner afterwards is `o`.
  lemma RowsKept(rows: seq<Row>, later: seq<Row>, groups: map<Conversation, JoinRule>, g: Conversation, o: Account)
    requires RowsOk(rows, groups) && OneRowEach(later) && SameElsewhere(rows, later, g)
    requires g in groups && OwnerIs(later, g, o)
    ensures RowsOk(later, groups)
  {
    forall h | h in groups ensures OneOwner(later, h) {
      if h != g {
        var x :| OwnerIs(rows, h, x);
        assert OwnerIs(later, h, x);
      }
    }
    forall h, a | RoleOf(later, h, a).Some? ensures h in groups {
      if h != g { assert RoleOf(rows, h, a).Some?; }
    }
  }

  lemma DepartureKeepsRows(w: World, g: Conversation, a: Account)
    requires Inv(w) && RoleOf(w.rows, g, a).Some? && RoleOf(w.rows, g, a) != Some(Owner)
    ensures RowsOk(Departed(w.rows, g, a), w.groups) && SameElsewhere(w.rows, Departed(w.rows, g, a), g)
  {
    var later := Departed(w.rows, g, a);
    forall h, b ensures RoleOf(later, h, b) == if h == g && b == a then None else RoleOf(w.rows, h, b) {
      DepartedRoles(w.rows, g, a, h, b);
    }
    var o :| OwnerIs(w.rows, g, o);
    assert OwnerIs(later, g, o);
    RowsKept(w.rows, later, w.groups, g, o);
  }

  lemma AddedRoles(rows: seq<Row>, g: Conversation, a: Account, h: Conversation, b: Account)
    ensures RoleOf(Added(rows, g, a), h, b)
            == if h == g && b == a && RoleOf(rows, h, b).None? then Some(Member) else RoleOf(rows, h, b)
  {
    AppendedRoles(rows, Row(a, g, Member, true), h, b);
  }

  lemma AppendKeepsOneRow(rows: seq<Row>, row: Row)
    requires OneRowEach(rows) && RoleOf(rows, row.group, row.account).None?
    ensures OneRowEach(rows + [row])
  {
    RoleAt(rows, row.group, row.account);
  }

  lemma AdditionKeepsRows(w: World, g: Conversation, a: Account)
    requires Inv(w) && g in w.groups
    ensures RowsOk(Added(w.rows, g, a), w.groups) && SameElsewhere(w.rows, Added(w.rows, g, a), g)
  {
    var later := Added(w.rows, g, a);
    if RoleOf(w.rows, g, a).None? { AppendKeepsOneRow(w.rows, Row(a, g, Member, true)); }
    forall h, b
      ensures RoleOf(later, h, b)
              == if h == g && b == a && RoleOf(w.rows, h, b).None? then Some(Member) else RoleOf(w.rows, h, b)
    {
      AddedRoles(w.rows, g, a, h, b);
    }
    var o :| OwnerIs(w.rows, g, o);
    assert OwnerIs(later, g, o);
    RowsKept(w.rows, later, w.groups, g, o);
  }

  lemma HandedOverRoles(rows: seq<Row>, g: Conversation, from: Account, to: Account, h: Conversation, b: Account)
    requires from != to
    ensures RoleOf(HandedOver(rows, g, from, to), h, b)
            == if h == g && (b == from || b == to) && RoleOf(rows, h, b).Some?
               then Some(if b == to then Owner else Admin) else RoleOf(rows, h, b)
  {}

  lemma HandoverKeepsRows(w: World, g: Conversation, from: Account, to: Account)
    requires Inv(w) && from != to && RoleOf(w.rows, g, from) == Some(Owner) && RoleOf(w.rows, g, to).Some?
    ensures RowsOk(HandedOver(w.rows, g, from, to), w.groups) && SameMembers(w.rows, HandedOver(w.rows, g, from, to))
    ensures OwnerIs(HandedOver(w.rows, g, from, to), g, to)
  {
    var later := HandedOver(w.rows, g, from, to);
    forall h, b ensures RoleOf(later, h, b) == if h == g && (b == from || b == to) && RoleOf(w.rows, h, b).Some?
                                               then Some(if b == to then Owner else Admin) else RoleOf(w.rows, h, b) {
      HandedOverRoles(w.rows, g, from, to, h, b);
    }
    var o :| OwnerIs(w.rows, g, o);
    assert OwnerIs(later, g, to);
    RowsKept(w.rows, later, w.groups, g, to);
  }

  lemma RoleChangeKeepsRows(w: World, g: Conversation, a: Account, role: Role)
    requires Inv(w) && RoleOf(w.rows, g, a).Some? && RoleOf(w.rows, g, a) != Some(Owner) && !role.Owner?
    ensures RowsOk(Promoted(w.rows, g, a, role), w.groups) && SameMembers(w.rows, Promoted(w.rows, g, a, role))
  {
    var later := Promoted(w.rows, g, a, role);
    forall h, b ensures RoleOf(later, h, b)
                        == if h == g && b == a && RoleOf(w.rows, h, b).Some? then Some(role) else RoleOf(w.rows, h, b) {
      PromotedRoles(w.rows, g, a, role, h, b);
    }
    var o :| OwnerIs(w.rows, g, o);
    assert OwnerIs(later, g, o);
    RowsKept(w.rows, later, w.groups, g, o);
  }

  lemma CreationKeepsRows(w: World, g: Conversation, a: Account, rule: JoinRule)
    requires Inv(w) && g !in w.groups
    ensures var later := w.rows + [Row(a, g, Owner, true)];
            RowsOk(later, w.groups[g := rule]) && SameElsewhere(w.rows, later, g) && Lists([a], later, g)
  {
    var row := Row(a, g, Owner, true);
    var later, groups := w.rows + [row], w.groups[g := rule];
    forall h, b ensures RoleOf(later, h, b) == if h == g && b == a then Some(Owner) else RoleOf(w.rows, h, b) {
      AppendedRoles(w.rows, row, h, b);
    }
    AppendKeepsOneRow(w.rows, row);
    forall h | h in groups ensures OneOwner(later, h) {
      if h == g {
        assert OwnerIs(later, g, a);
      } else {
        var x :| OwnerIs(w.rows, h, x);
        assert OwnerIs(later, h, x);
      }
    }
  }

  // Whatever is published is published to exactly the members the step leaves behind.
  ghost predicate Notifies(o: Outcome, g: Conversation) {
    o.told.Some? ==> Lists(o.told.value, o.world.rows, g)
  }

  lemma CreateKeepsInv(w: World, c: Call, rule: JoinRule)
    requires Inv(w) && Enabled(w, c)
    ensures Inv(OnCreate(w, c, rule).world)
    ensures Notifies(OnCreate(w, c, rule), c.group)
  {
    if c.group !in w.groups {
      var later := OnCreate(w, c, rule).world;
      CreationKeepsRows(w, c.group, c.actor, rule);
      CacheSetSize(w.cache, c.group, [c.actor], c.victim);
      forall h | h in later.cache ensures Lists(later.cache[h], later.rows, h) {
        if h != c.group { assert Lists(w.cache[h], w.rows, h); }
      }
    }
  }

  lemma PetitionKeepsOk(
      table: seq<Petition>, groups: map<Conversation, JoinRule>, g: Conversation, sender: Account, a: Account)
    requires PetitionsOk(table) && Grounded(table, groups) && g in groups
    ensures PetitionsOk(Petitioned(table, g, sender, a)) && Grounded(Petitioned(table, g, sender, a), groups)
  {}

  lemma JoinKeepsInv(w: World, c: Call, passwordOk: bool)
    requires Inv(w) && Enabled(w, c)
    ensures Inv(OnJoin(w, c, passwordOk).world)
    ensures Notifies(OnJoin(w, c, passwordOk), c.group)
  {
    if c.group in w.groups {
      AdditionKeepsRows(w, c.group, c.actor);
      RefreshedKeepsInv(w, Added(w.rows, c.group, c.actor), c.group, c.victim);
      PetitionKeepsOk(w.requests, w.groups, c.group, c.actor, c.actor);
    }
  }

  lemma LeaveKeepsInv(w: World, c: Call)
    requires Inv(w) && Enabled(w, c)
    ensures Inv(OnLeave(w, c).world) && Notifies(OnLeave(w, c), c.group)
    ensures RoleOf(w.rows, c.group, c.actor) == Some(Owner) ==> OnLeave(w, c) == Denied(w, OwnershipTransferRequired)
  {
    var role := RoleOf(w.rows, c.group, c.actor);
    if role == Some(Owner) {
      var o :| OwnerIs(w.rows, c.group, o);
      OwnersListed(w.rows, c.group, o);
    } else if role.Some? {
      DepartureKeepsRows(w, c.group, c.actor);
      RefreshedKeepsInv(w, Departed(w.rows, c.group, c.actor), c.group, c.victim);
    }
  }

  lemma RemoveKeepsInv(w: World, c: Call, target: Account)
    requires Inv(w) && Enabled(w, c)
    ensures Inv(OnRemove(w, c, target).world) && Notifies(OnRemove(w, c, target), c.group)
  {
    if RoleOf(w.rows, c.group, target).Some? && RoleOf(w.rows, c.group, target) != Some(Owner) {
      DepartureKeepsRows(w, c.group, target);
      RefreshedKeepsInv(w, Departed(w.rows, c.group, target), c.group, c.victim);
    }
  }

  lemma TransferKeepsInv(w: World, c: Call, target: Account)
    requires Inv(w) && Enabled(w, c)
    ensures Inv(OnTransfer(w, c, target).world) && Notifies(OnTransfer(w, c, target), c.group)
  {
    if OnTransfer(w, c, target).reply.Done? {
      HandoverKeepsRows(w, c.group, c.actor, target);
      PublishedKeepsInv(w, HandedOver(w.rows, c.group, c.actor, target), c.group, c.victim);
    }
  }

  lemma ChangeRoleKeepsInv(w: World, c: Call, target: Account, role: Role)
    requires Inv(w) && Enabled(w, c)
    ensures Inv(OnChangeRole(w, c, target, role).world) && Notifies(OnChangeRole(w, c, target, role), c.group)
  {
    if OnChangeRole(w, c, target, role).reply.Done? {
      RoleChangeKeepsRows(w, c.group, target, role);
      PublishedKeepsInv(w, Promoted(w.rows, c.group, target, role), c.group, c.victim);
    }
  }

  lemma UpdateKeepsInv(w: World, c: Call, change: Option<JoinRule>)
    requires Inv(w) && Enabled(w, c)
    ensures Inv(OnUpdate(w, c, change).world) && Notifies(OnUpdate(w, c, change), c.group)
  {
    var later := if change.Some? && c.group in w.groups then w.(groups := w.groups[c.group := change.value]) else w;
    assert later.groups.Keys == w.groups.Keys;
    assert later.(rows := later.rows) == later;
    PublishedKeepsInv(later, later.rows, c.group, c.victim);
  }

  lemma InviteKeepsInv(w: World, c: Call, target: Account, blocked: bool)
    requires Inv(w)
    ensures Inv(OnInvite(w, c, target, blocked).world) && Notifies(OnInvite(w, c, target, blocked), c.group)
  {}

  // A petition that is answered: its table stays in order, and its account may have joined.
  lemma AnswerKeepsInv(w: World, c: Call, changed: World, a: Account, accepted: bool)
    requires Inv(w) && Enabled(w, c) && Inv(changed) && c.group in w.groups
    requires changed == w.(invites := changed.invites, requests := changed.requests)
    ensures var rows := if accepted then Added(w.rows, c.group, a) else w.rows;
            && Inv(Refreshed(changed, rows, c.group, c.victim).world)
            && Notifies(Refreshed(changed, rows, c.group, c.victim), c.group)
  {
    AdditionKeepsRows(w, c.group, a);
    RefreshedKeepsInv(changed, if accepted then Added(w.rows, c.group, a) else w.rows, c.group, c.victim);
  }

  lemma AnswerInviteKeepsInv(w: World, c: Call, id: nat, answer: Answer)
    requires Inv(w) && Enabled(w, c)
    ensures Inv(OnAnswerInvite(w, c, id, answer).world) && Notifies(OnAnswerInvite(w, c, id, answer), c.group)
  {
    if Found(w.invites, id, c.group) && !answer.Cancel? {
      var changed := w.(invites := Settled(w.invites, id, if answer.Accept? then Accepted else Rejected));
      AnswerKeepsInv(w, c, changed, c.actor, answer.Accept?);
    }
  }

  lemma AskKeepsInv(w: World, c: Call)
    requires Inv(w)
    ensures Inv(OnAsk(w, c).world) && Notifies(OnAsk(w, c), c.group)
  {}

  lemma AnswerAskKeepsInv(w: World, c: Call, id: nat, answer: Answer)
    requires Inv(w) && Enabled(w, c)
    ensures Inv(OnAnswerAsk(w, c, id, answer).world) && Notifies(OnAnswerAsk(w, c, id, answer), c.group)
  {
    if Found(w.requests, id, c.group) && !answer.Cancel? {
      var changed := w.(requests := Settled(w.requests, id, if answer.Accept? then Accepted else Rejected));
      AnswerKeepsInv(w, c, changed, w.requests[id].account, answer.Accept?);
    }
  }

  lemma ReadKeepsInv(w: World, c: Call)
    requires Inv(w) && Enabled(w, c)
    ensures Inv(Read(w, c.group, c.victim).0)
  {
    ReadKeepsCache(w, c.group, c.victim);
  }

  /** Every handler keeps the invariant and publishes to exactly the members it leaves. */
  lemma StepKeepsInv(w: World, c: Call)
    requires Inv(w) && Enabled(w, c)
    ensures Inv(Next(w, c)) && Notifies(Handle(w, c), c.group)
  {
    hide RowsOk, PetitionsOk, Grounded, Lists;
    match c.op
    case Create(rule) => CreateKeepsInv(w, c, rule);
    case Join(passwordOk) => JoinKeepsInv(w, c, passwordOk);
    case Leave => LeaveKeepsInv(w, c);
    case Remove(target) => RemoveKeepsInv(w, c, target);
    case Transfer(target) => TransferKeepsInv(w, c, target);
    case ChangeRole(target, role) => ChangeRoleKeepsInv(w, c, target, role);
    case Update(change) => UpdateKeepsInv(w, c, change);
    case Invite(target, blocked) => InviteKeepsInv(w, c, target, blocked);
    case AnswerInvite(id, answer) => AnswerInviteKeepsInv(w, c, id, answer);
    case Ask => AskKeepsInv(w, c);
    case AnswerAsk(id, answer) => AnswerAskKeepsInv(w, c, id, answer);
    case ReadMembers => ReadKeepsInv(w, c);
    case ClearCache =>
  }

  // ---- runs ----

  predicate ValidRun(w: World, cs: seq<Call>)
    decreases |cs|
  {
    cs == [] || (Enabled(w, cs[0]) && ValidRun(Next(w, cs[0]), cs[1..]))
  }

  function Run(w: World, cs: seq<Call>): World
    decreases |cs|
  {
    if cs == [] then w else Run(Next(w, cs[0]), cs[1..])
  }

  lemma {:induction false} RunKeepsInv(w: World, cs: seq<Call>)
    requires Inv(w) && ValidRun(w, cs)
    ensures Inv(Run(w, cs))
    decreases |cs|
  {
    if cs != [] {
      StepKeepsInv(w, cs[0]);
      RunKeepsInv(Next(w, cs[0]), cs[1..]);
    }
  }

  const EMPTY: World := World([], map[], [], [], map[])

  /**
    After any run from an empty service: every group has exactly one active owner row, no account has two
    active rows in one group, and a cached member list holds exactly the active members.
   */
  lemma OwnersAndCaches(cs: seq<Call>, g: Conversation)
    requires ValidRun(EMPTY, cs)
    ensures var w := Run(EMPTY, cs);
            && OneRowEach(w.rows)
            && (g in w.groups ==> |OwnersOf(w.rows, g)| == 1)
            && (g in w.cache ==> Lists(w.cache[g], w.rows, g))
  {
    RunKeepsInv(EMPTY, cs);
    var w := Run(EMPTY, cs);
    if g in w.groups {
      var o :| OwnerIs(w.rows, g, o);
      OwnersListed(w.rows, g, o);
    }
  }
}
