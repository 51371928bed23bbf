/**
  The event broker as a state machine. Each account has a version, a pruned index of the
  conversations changed lately, and the long-poll waiters; history variables keep the whole
  publish log of the account's present incarnation.
 */
module EventLog {
  import opened Common

  type Waiter = nat

  const MAX_CHANGES: nat := 1000
  const MAX_ACCOUNTS: nat := 10000
  const MAX_WAITERS: nat := 10000
  const MAX_WAITERS_PER_ACCOUNT: nat := 10

  datatype AccountState = AccountState(
    changes: map<Conversation, nat>,
    minimum: nat,
    version: nat,
    waiters: set<Waiter>)

  // The cursor a waiter was registered with, the incarnation of the account it was issued in, and how many
  // publishes the account had been sent by then.
  datatype Ticket = Ticket(account: Account, after: nat, epoch: nat, at: nat)

  datatype World = World(
    accounts: map<Account, AccountState>,
    waiterCount: int,
    // history
    log: map<Account, seq<Conversation>>,
    epoch: map<Account, nat>,
    feed: map<Account, seq<Conversation>>,  // every publish to the account, kept or not
    base: map<Account, nat>,                // where in the feed its present incarnation began
    issued: map<Waiter, Ticket>,
    open: set<Waiter>,
    woken: set<Waiter>)

  const START: World := World(map[], 0, map[], map[], map[], map[], map[], {}, {})
  const EMPTY_STATE: AccountState := AccountState(map[], 0, 0, {})

  datatype Reply = Resync(version: nat) | Delta(ids: set<Conversation>, version: nat) | Registered

  datatype Event =
    | Publish(account: Account, conversation: Conversation, victim: Option<Account>)
    | Enter(account: Account, after: nat, waiter: Waiter, victim: Option<Account>)
    | Cancel(account: Account, waiter: Waiter)

  function Pruned(changes: map<Conversation, nat>, minimum: int): map<Conversation, nat> {
    map c | c in changes && changes[c] > minimum :: changes[c]
  }

  // Integer subtraction, as the code's unsigned one only has a meaning when it does not underflow.
  function Bumped(st: AccountState, c: Conversation): (int, map<Conversation, nat>) {
    var changes := st.changes[c := st.version + 1];
    if |changes| > MAX_CHANGES then
      (st.version + 1 - MAX_CHANGES, Pruned(changes, st.version + 1 - MAX_CHANGES))
    else
      (st.minimum, changes)
  }

  function Bump(st: AccountState, c: Conversation): AccountState {
    var (minimum, changes) := Bumped(st, c);
    AccountState(changes, if minimum < 0 then 0 else minimum, st.version + 1, {})
  }

  function EpochOf(w: World, a: Account): nat {
    if a in w.epoch then w.epoch[a] else 0
  }

  function FeedOf(w: World, a: Account): seq<Conversation> {
    if a in w.feed then w.feed[a] else []
  }

  function BaseOf(w: World, a: Account): nat {
    if a in w.base then w.base[a] else 0
  }

  function Fed(w: World, a: Account, c: Conversation): World {
    w.(feed := w.feed[a := FeedOf(w, a) + [c]])
  }

  function Trimmed(w: World, victim: Option<Account>): World {
    if |w.accounts| >= MAX_ACCOUNTS && victim.Some? then w.(accounts := w.accounts - {victim.value}) else w
  }

  function Added(w: World, a: Account): World {
    w.(accounts := w.accounts[a := EMPTY_STATE], log := w.log[a := []], epoch := w.epoch[a := EpochOf(w, a) + 1],
       base := w.base[a := |FeedOf(w, a)|])
  }

  /** Makes room for an account if it has no state yet; it may still have none when every state is busy. */
  function Opened(w: World, a: Account, victim: Option<Account>): World {
    if a in w.accounts then w
    else
      var t := Trimmed(w, victim);
      if |t.accounts| >= MAX_ACCOUNTS then t
      else Added(t, a)
  }

  function PublishTo(w: World, a: Account, c: Conversation): World
    requires a in w.accounts && a in w.log
  {
    var st := w.accounts[a];
    w.(accounts := w.accounts[a := Bump(st, c)],
       waiterCount := w.waiterCount - |st.waiters|,
       log := w.log[a := w.log[a] + [c]],
       open := w.open - st.waiters,
       woken := w.woken + st.waiters)
  }

  function ChangedSince(st: AccountState, after: nat): set<Conversation> {
    set c | c in st.changes && st.changes[c] > after
  }

  function ReplyOf(w: World, a: Account, after: nat): Reply
    requires a in w.accounts
  {
    var st := w.accounts[a];
    if after > st.version || after < st.minimum then Resync(st.version)
    else if st.version > after then Delta(ChangedSince(st, after), st.version)
    else if |st.waiters| >= MAX_WAITERS_PER_ACCOUNT || w.waiterCount >= MAX_WAITERS then Resync(st.version)
    else Registered
  }

  function EnterReply(w: World, a: Account, after: nat, victim: Option<Account>): Reply {
    var t := Opened(w, a, victim);
    if a in t.accounts then ReplyOf(t, a, after) else Resync(0)
  }

  function Enrolled(w: World, a: Account, after: nat, waiter: Waiter): World
    requires a in w.accounts
  {
    var st := w.accounts[a];
    w.(accounts := w.accounts[a := st.(waiters := st.waiters + {waiter})],
       waiterCount := w.waiterCount + 1,
       issued := w.issued[waiter := Ticket(a, after, EpochOf(w, a), |FeedOf(w, a)|)],
       open := w.open + {waiter})
  }

  function Cancelled(w: World, a: Account, waiter: Waiter): World {
    if a in w.accounts && waiter in w.accounts[a].waiters then
      var st := w.accounts[a];
      w.(accounts := w.accounts[a := st.(waiters := st.waiters - {waiter})],
         waiterCount := w.waiterCount - 1,
         open := w.open - {waiter})
    else w
  }

  function Next(w: World, e: Event): World {
    match e
    case Publish(a, c, victim) =>
      var t := Opened(w, a, victim);
      Fed(if a in t.accounts && a in t.log then PublishTo(t, a, c) else t, a, c)
    case Enter(a, after, waiter, victim) =>
      var t := Opened(w, a, victim);
      if a in t.accounts && ReplyOf(t, a, after).Registered? then Enrolled(t, a, after, waiter) else t
    case Cancel(a, waiter) => Cancelled(w, a, waiter)
  }

  // Trimming removes an account without waiters whenever there is one, and never any other.
  ghost predicate VictimOk(w: World, a: Account, victim: Option<Account>) {
    && (victim.Some? ==> victim.value in w.accounts && w.accounts[victim.value].waiters == {} && victim.value != a)
    && (a !in w.accounts && |w.accounts| >= MAX_ACCOUNTS && victim.None? ==>
          forall b :: b in w.accounts ==> w.accounts[b].waiters != {})
  }

  ghost predicate Enabled(w: World, e: Event) {
    match e
    case Publish(a, _, victim) => VictimOk(w, a, victim)
    case Enter(a, _, waiter, victim) => VictimOk(w, a, victim) && waiter !in w.issued
    case Cancel(a, waiter) => waiter in w.issued && w.issued[waiter].account == a
  }

  // ---- the invariant ----

  /** The version of the last publish of a conversation in a log, or zero. */
  function Last(log: seq<Conversation>, c: Conversation): nat {
    if log == [] then 0
    else if log[|log| - 1] == c then |log|
    else Last(log[..|log| - 1], c)
  }

  ghost predicate Exact(changes: map<Conversation, nat>, minimum: nat, log: seq<Conversation>) {
    && minimum <= |log| && |changes| <= MAX_CHANGES
    && (forall c :: c in changes <==> Last(log, c) > minimum)
    && (forall c :: c in changes ==> changes[c] == Last(log, c))
  }

  ghost predicate IndexExact(st: AccountState, log: seq<Conversation>) {
    st.version == |log| && Exact(st.changes, st.minimum, log)
  }

  ghost predicate Indexed(w: World) {
    && |w.accounts| <= MAX_ACCOUNTS
    && forall a :: a in w.accounts ==> a in w.log && IndexExact(w.accounts[a], w.log[a])
  }

  ghost predicate Counted(w: World) {
    && w.waiterCount == |w.open| <= MAX_WAITERS
    && w.open <= w.issued.Keys && w.woken <= w.issued.Keys && w.open !! w.woken
  }

  ghost predicate OwnsWaiters(w: World, a: Account)
    requires a in w.accounts
  {
    && |w.accounts[a].waiters| <= MAX_WAITERS_PER_ACCOUNT
    && forall x :: x in w.accounts[a].waiters ==> x in w.open && x in w.issued && w.issued[x].account == a
  }

  // A registered waiter's cursor is its account's current version.
  ghost predicate OpenOk(w: World, x: Waiter)
    requires x in w.issued
  {
    var t := w.issued[x];
    && t.account in w.accounts && x in w.accounts[t.account].waiters
    && t.epoch == EpochOf(w, t.account) && t.after == w.accounts[t.account].version
  }

  // A waiter of the present incarnation was woken only by a publish past its cursor.
  ghost predicate TicketOk(w: World, x: Waiter)
    requires x in w.issued
  {
    var t := w.issued[x];
    && t.epoch <= EpochOf(w, t.account)
    && (t.account in w.accounts && t.epoch == EpochOf(w, t.account) ==>
          && t.after <= w.accounts[t.account].version
          && (x in w.woken ==> t.after < w.accounts[t.account].version))
  }

  ghost predicate WaitersOk(w: World) {
    && Counted(w)
    && (forall a :: a in w.accounts ==> OwnsWaiters(w, a))
    && (forall x :: x in w.open ==> OpenOk(w, x))
    && (forall x :: x in w.issued ==> TicketOk(w, x))
  }

  ghost predicate Inv(w: World) {
    Indexed(w) && WaitersOk(w)
  }

  ghost predicate Init(w: World) {
    w == START
  }

  // ---- the pruned index agrees with the full log ----

  lemma {:induction false} LastIs(log: seq<Conversation>, c: Conversation, after: nat)
    requires after <= |log|
    ensures Last(log, c) <= |log|
    ensures Last(log, c) > 0 ==> log[Last(log, c) - 1] == c
    ensures Last(log, c) > after <==> c in log[after..]
    decreases |log|
  {
    if log != [] {
      var rest := log[..|log| - 1];
      if after < |log| {
        LastIs(rest, c, after);
        assert log[after..] == rest[after..] + [log[|log| - 1]];
      } else {
        LastIs(rest, c, after - 1);
      }
    }
  }

  lemma {:induction false} MapSize(m: map<Conversation, nat>, lo: int, hi: int)
    requires lo <= hi && forall c :: c in m ==> lo < m[c] <= hi
    requires forall c, d :: c in m && d in m && m[c] == m[d] ==> c == d
    ensures |m| <= hi - lo
    decreases hi - lo
  {
    if lo < hi {
      if c :| c in m && m[c] == hi {
        var rest := m - {c};
        assert |rest| == |m| - 1 by { assert m.Keys == rest.Keys + {c}; assert |m.Keys| == |rest.Keys| + 1; }
        MapSize(rest, lo, hi - 1);
      } else {
        MapSize(m, lo, hi - 1);
      }
    } else {
      assert m == map[];
    }
  }

  lemma IndexSize(changes: map<Conversation, nat>, minimum: nat, log: seq<Conversation>)
    requires minimum <= |log|
    requires forall c :: c in changes ==> changes[c] == Last(log, c) > minimum
    ensures |changes| <= |log| - minimum
  {
    forall c, d | c in changes && d in changes && changes[c] == changes[d] ensures c == d {
      LastIs(log, c, 0);
      LastIs(log, d, 0);
    }
    forall c | c in changes ensures changes[c] <= |log| { LastIs(log, c, 0); }
    MapSize(changes, minimum, |log|);
  }

  lemma LastAppend(log: seq<Conversation>, c: Conversation, k: Conversation)
    ensures Last(log + [c], k) == if k == c then |log| + 1 else Last(log, k)
    ensures Last(log, k) <= |log|
  {
    assert (log + [c])[..|log|] == log;
    LastIs(log, k, 0);
  }

  /**
    One publish keeps the index exact. Pruning never underflows, never lowers the floor and leaves at
    most the limit, because distinct conversations have distinct versions.
   */
  lemma BumpKeepsIndex(st: AccountState, log: seq<Conversation>, c: Conversation)
    requires IndexExact(st, log)
    ensures IndexExact(Bump(st, c), log + [c])
    ensures Bumped(st, c).0 >= st.minimum
  {
    var log' := log + [c];
    var changes := st.changes[c := st.version + 1];
    forall k ensures k in changes <==> Last(log', k) > st.minimum { LastAppend(log, c, k); }
    forall k | k in changes ensures changes[k] == Last(log', k) { LastAppend(log, c, k); }
    IndexSize(changes, st.minimum, log');
    if |changes| > MAX_CHANGES {
      IndexSize(Pruned(changes, |log'| - MAX_CHANGES), |log'| - MAX_CHANGES, log');
    }
  }

  // ---- every step keeps the invariant ----

  lemma AddedIndexed(w: World, a: Account)
    requires Indexed(w) && a !in w.accounts && |w.accounts| < MAX_ACCOUNTS
    ensures Indexed(Added(w, a))
  {}

  lemma OpenedIndexed(w: World, a: Account, victim: Option<Account>)
    requires Indexed(w) && VictimOk(w, a, victim)
    ensures Indexed(Opened(w, a, victim))
  {
    if a !in w.accounts {
      var t := Trimmed(w, victim);
      assert Indexed(t);
      if |t.accounts| < MAX_ACCOUNTS { AddedIndexed(t, a); }
    }
  }

  lemma TrimmedWaiters(w: World, victim: Option<Account>)
    requires WaitersOk(w) && (victim.Some? ==> victim.value in w.accounts && w.accounts[victim.value].waiters == {})
    ensures WaitersOk(Trimmed(w, victim))
  {}

  lemma AddedWaiters(w: World, a: Account)
    requires WaitersOk(w) && a !in w.accounts
    ensures WaitersOk(Added(w, a))
  {
    var t := Added(w, a);
    forall b | b in t.accounts ensures OwnsWaiters(t, b) { assert b != a ==> OwnsWaiters(w, b); }
    forall x | x in t.open ensures OpenOk(t, x) { assert OpenOk(w, x); }
    forall x | x in t.issued ensures TicketOk(t, x) { assert TicketOk(w, x); }
  }

  lemma OpenedWaiters(w: World, a: Account, victim: Option<Account>)
    requires WaitersOk(w) && VictimOk(w, a, victim)
    ensures WaitersOk(Opened(w, a, victim))
  {
    if a !in w.accounts {
      TrimmedWaiters(w, victim);
      AddedWaiters(Trimmed(w, victim), a);
    }
  }

  lemma OpenedIs(w: World, a: Account, victim: Option<Account>)
    ensures var t := Opened(w, a, victim);
            && t.feed == w.feed && t.issued == w.issued && t.open == w.open && t.woken == w.woken
            && (a in w.accounts ==> t == w)
            && (a !in w.accounts ==> t == Trimmed(w, victim) || t == Added(Trimmed(w, victim), a))
  {}

  lemma OpenedKeepsInv(w: World, a: Account, victim: Option<Account>)
    requires Inv(w) && VictimOk(w, a, victim)
    ensures Inv(Opened(w, a, victim))
  {
    OpenedIndexed(w, a, victim);
    OpenedWaiters(w, a, victim);
  }

  lemma PublishIndexed(w: World, a: Account, c: Conversation)
    requires Indexed(w) && a in w.accounts
    ensures Indexed(PublishTo(w, a, c))
  {
    BumpKeepsIndex(w.accounts[a], w.log[a], c);
    assert PublishTo(w, a, c).accounts.Keys == w.accounts.Keys;
  }

  lemma PublishTickets(w: World, a: Account, c: Conversation)
    requires WaitersOk(w) && a in w.accounts && a in w.log
    ensures var t := PublishTo(w, a, c); forall x :: x in t.issued ==> TicketOk(t, x)
  {}

  lemma PublishWaiters(w: World, a: Account, c: Conversation)
    requires WaitersOk(w) && a in w.accounts && a in w.log
    ensures WaitersOk(PublishTo(w, a, c))
  {
    var st := w.accounts[a];
    var t := PublishTo(w, a, c);
    assert OwnsWaiters(w, a);
    forall b | b in t.accounts ensures OwnsWaiters(t, b) { assert OwnsWaiters(w, b); }
    forall x | x in t.open ensures OpenOk(t, x) { assert OpenOk(w, x); }
    PublishTickets(w, a, c);
  }

  lemma EnrollOwners(w: World, a: Account, after: nat, waiter: Waiter)
    requires WaitersOk(w) && a in w.accounts && |w.accounts[a].waiters| < MAX_WAITERS_PER_ACCOUNT && waiter !in w.issued
    ensures var t := Enrolled(w, a, after, waiter); forall b :: b in t.accounts ==> OwnsWaiters(t, b)
  {}

  lemma EnrollTickets(w: World, a: Account, after: nat, waiter: Waiter)
    requires WaitersOk(w) && a in w.accounts && w.accounts[a].version == after && waiter !in w.issued
    ensures var t := Enrolled(w, a, after, waiter); forall x :: x in t.issued ==> TicketOk(t, x)
  {}

  lemma EnrollOpen(w: World, a: Account, after: nat, waiter: Waiter)
    requires WaitersOk(w) && a in w.accounts && w.accounts[a].version == after && waiter !in w.issued
    ensures var t := Enrolled(w, a, after, waiter); forall x :: x in t.open ==> x in t.issued && OpenOk(t, x)
  {
    var t := Enrolled(w, a, after, waiter);
    forall x | x in t.open ensures OpenOk(t, x) { assert x != waiter ==> OpenOk(w, x); }
  }

  lemma EnrollWaiters(w: World, a: Account, after: nat, waiter: Waiter)
    requires WaitersOk(w) && a in w.accounts && ReplyOf(w, a, after).Registered? && waiter !in w.issued
    ensures WaitersOk(Enrolled(w, a, after, waiter))
  {
    EnrollOwners(w, a, after, waiter);
    EnrollOpen(w, a, after, waiter);
    EnrollTickets(w, a, after, waiter);
    assert waiter !in w.open;
  }

  lemma EnrollKeepsInv(w: World, a: Account, after: nat, waiter: Waiter)
    requires Inv(w) && a in w.accounts && ReplyOf(w, a, after).Registered? && waiter !in w.issued
    ensures Inv(Enrolled(w, a, after, waiter))
  {
    hide WaitersOk, Exact;
    EnrollWaiters(w, a, after, waiter);
  }

  lemma CancelWaiters(w: World, a: Account, waiter: Waiter)
    requires WaitersOk(w) && a in w.accounts && waiter in w.accounts[a].waiters
    ensures WaitersOk(Cancelled(w, a, waiter))
  {
    var t := Cancelled(w, a, waiter);
    assert OwnsWaiters(w, a);
    forall b | b in t.accounts ensures OwnsWaiters(t, b) { assert OwnsWaiters(w, b); }
    forall x | x in t.open ensures OpenOk(t, x) { assert OpenOk(w, x); }
    forall x | x in t.issued ensures TicketOk(t, x) { assert TicketOk(w, x); }
  }

  lemma CancelKeepsInv(w: World, a: Account, waiter: Waiter)
    requires Inv(w)
    ensures Inv(Cancelled(w, a, waiter))
  {
    if a in w.accounts && waiter in w.accounts[a].waiters {
      CancelWaiters(w, a, waiter);
    }
  }

  lemma FedKeepsInv(w: World, a: Account, c: Conversation)
    requires Inv(w)
    ensures Inv(Fed(w, a, c))
  {
    hide Exact;
    var t := Fed(w, a, c);
    assert forall b :: b in t.accounts ==> OwnsWaiters(w, b) ==> OwnsWaiters(t, b);
    assert forall x :: x in t.open ==> OpenOk(w, x) ==> OpenOk(t, x);
    assert forall x :: x in t.issued ==> TicketOk(w, x) ==> TicketOk(t, x);
  }

  lemma PublishKeepsInv(w: World, a: Account, c: Conversation, victim: Option<Account>)
    requires Inv(w) && VictimOk(w, a, victim)
    ensures Inv(Next(w, Publish(a, c, victim)))
  {
    var t := Opened(w, a, victim);
    OpenedKeepsInv(w, a, victim);
    if a in t.accounts {
      PublishIndexed(t, a, c);
      PublishWaiters(t, a, c);
      FedKeepsInv(PublishTo(t, a, c), a, c);
    } else {
      FedKeepsInv(t, a, c);
    }
  }

  lemma StepKeepsInv(w: World, e: Event)
    requires Inv(w) && Enabled(w, e)
    ensures Inv(Next(w, e))
  {
    match e
    case Publish(a, c, victim) => PublishKeepsInv(w, a, c, victim);
    case Enter(a, after, waiter, victim) =>
      OpenedKeepsInv(w, a, victim);
      var t := Opened(w, a, victim);
      if a in t.accounts && ReplyOf(t, a, after).Registered? { EnrollKeepsInv(t, a, after, waiter); }
    case Cancel(a, waiter) => CancelKeepsInv(w, a, waiter);
  }

  ghost predicate ValidRun(w: World, es: seq<Event>)
    decreases |es|
  {
    es == [] || (Enabled(w, es[0]) && ValidRun(Next(w, es[0]), es[1..]))
  }

  function Run(w: World, es: seq<Event>): World
    decreases |es|
  {
    if es == [] then w else Run(Next(w, es[0]), es[1..])
  }

  lemma {:induction false} RunKeepsInv(w: World, es: seq<Event>)
    requires Inv(w) && ValidRun(w, es)
    ensures Inv(Run(w, es))
    decreases |es|
  {
    if es != [] {
      StepKeepsInv(w, es[0]);
      RunKeepsInv(Next(w, es[0]), es[1..]);
    }
  }

  lemma {:induction false} RunAppend(w: World, es: seq<Event>, e: Event)
    requires ValidRun(w, es) && Enabled(Run(w, es), e)
    ensures ValidRun(w, es + [e]) && Run(w, es + [e]) == Next(Run(w, es), e)
    decreases |es|
  {
    if es == [] {
      assert (es + [e])[1..] == [];
    } else {
      assert (es + [e])[1..] == es[1..] + [e];
      RunAppend(Next(w, es[0]), es[1..], e);
    }
  }

  /** The version a timed-out wait returns; zero when the account has no state. */
  function CancelVersion(w: World, a: Account): nat {
    if a in w.accounts then w.accounts[a].version else 0
  }
}
