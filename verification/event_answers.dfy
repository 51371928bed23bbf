/** What the broker's answers are worth: exact deltas, no lost wakeup, and a client that misses nothing. */
module EventAnswers {
  import opened Common
  import opened EventLog

  // ---- what a reader of the broker is told ----

  function Set(log: seq<Conversation>): set<Conversation> {
    set c | c in log
  }

  /**
    For a cursor of the present incarnation an answer is either a resync or exactly the conversations
    published after the cursor; and the caller is made to wait only when there were none.
   */
  lemma AnswerIsExact(w: World, a: Account, after: nat)
    requires Inv(w) && a in w.accounts && after <= w.accounts[a].version
    ensures var log, r := w.log[a], ReplyOf(w, a, after);
            && (!r.Registered? ==> r.version == |log|)
            && (r.Delta? ==> r.ids == Set(log[after..]) && r.ids != {})
            && (r.Registered? ==> log[after..] == [])
            && (r.Resync? ==> after < w.accounts[a].minimum
                              || |w.accounts[a].waiters| == MAX_WAITERS_PER_ACCOUNT || w.waiterCount == MAX_WAITERS)
  {
    assert OwnsWaiters(w, a);
    var log, st := w.log[a], w.accounts[a];
    forall c ensures (c in st.changes && st.changes[c] > after) <==> (c in log[after..] && Last(log, c) > st.minimum) {
      LastIs(log, c, after);
    }
    if ReplyOf(w, a, after).Delta? {
      forall c | c in log[after..] ensures Last(log, c) > st.minimum { LastIs(log, c, after); }
      assert log[after..][0] in ReplyOf(w, a, after).ids;
    }
  }

  // ---- how far behind a cursor may be ----

  // Conversations older than the floor are forgotten only when at least MAX_CHANGES publishes came after it.
  predicate FloorLow(st: AccountState) {
    st.minimum == 0 || st.minimum + MAX_CHANGES <= st.version
  }

  ghost predicate FloorsLow(w: World) {
    forall a :: a in w.accounts ==> FloorLow(w.accounts[a])
  }

  lemma BumpKeepsFloor(st: AccountState, c: Conversation)
    requires FloorLow(st)
    ensures FloorLow(Bump(st, c))
  {}

  lemma OpenedKeepsFloors(w: World, a: Account, victim: Option<Account>)
    requires FloorsLow(w)
    ensures FloorsLow(Opened(w, a, victim))
  {
    hide Opened, FloorLow;
    OpenedIs(w, a, victim);
    FloorOfNone();
  }

  lemma FloorOfNone()
    ensures FloorLow(EMPTY_STATE)
  {}

  lemma PublishKeepsFloors(w: World, a: Account, c: Conversation)
    requires FloorsLow(w) && a in w.accounts && a in w.log
    ensures FloorsLow(PublishTo(w, a, c))
  {
    hide Bump, FloorLow;
    BumpKeepsFloor(w.accounts[a], c);
  }

  lemma StepKeepsFloors(w: World, e: Event)
    requires FloorsLow(w)
    ensures FloorsLow(Next(w, e))
  {
    hide Bump, Opened, PublishTo;
    match e
    case Publish(a, c, victim) =>
      OpenedKeepsFloors(w, a, victim);
      var t := Opened(w, a, victim);
      if a in t.accounts && a in t.log { PublishKeepsFloors(t, a, c); }
    case Enter(a, after, waiter, victim) =>
      hide ReplyOf;
      OpenedKeepsFloors(w, a, victim);
    case Cancel(_, _) =>
  }

  lemma {:induction false} RunKeepsFloors(w: World, es: seq<Event>)
    requires FloorsLow(w)
    ensures FloorsLow(Run(w, es))
    decreases |es|
  {
    hide Next;
    if es != [] {
      StepKeepsFloors(w, es[0]);
      RunKeepsFloors(Next(w, es[0]), es[1..]);
    }
  }

  /**
    After every run of the broker, for any cursor at all: a resync carries the account's version, or zero if the
    full table gives it no state; and an account with a state answers one only to a cursor beyond its version, to
    one more than MAX_CHANGES publishes behind, or to an up-to-date one when no more waiters fit.
   */
  lemma ResyncIsDeserved(es: seq<Event>, a: Account, after: nat, victim: Option<Account>)
    requires ValidRun(START, es) && VictimOk(Run(START, es), a, victim)
    ensures var t, r := Opened(Run(START, es), a, victim), EnterReply(Run(START, es), a, after, victim);
            && (r.Resync? ==> r.version == CancelVersion(t, a))
            && (r.Resync? && a in t.accounts ==>
                  var st := t.accounts[a];
                  || after > st.version || after + MAX_CHANGES < st.version
                  || (after == st.version
                      && (|st.waiters| == MAX_WAITERS_PER_ACCOUNT || t.waiterCount == MAX_WAITERS)))
            && (a in t.accounts && after > t.accounts[a].version ==> r == Resync(t.accounts[a].version))
            && (a !in t.accounts ==> r == Resync(0) && |t.accounts| == MAX_ACCOUNTS)
  {
    hide Inv, Opened, Next;
    var w := Run(START, es);
    StartInv();
    RunKeepsInv(START, es);
    RunKeepsFloors(START, es);
    OpenedKeepsFloors(w, a, victim);
    OpenedKeepsInv(w, a, victim);
    WithinCaps(Opened(w, a, victim), a);
    OpenedIsFull(w, a, victim);
  }

  lemma StartInv()
    ensures Inv(START)
  {}

  lemma WithinCaps(w: World, a: Account)
    requires Inv(w)
    ensures w.waiterCount <= MAX_WAITERS && |w.accounts| <= MAX_ACCOUNTS
    ensures a in w.accounts ==> |w.accounts[a].waiters| <= MAX_WAITERS_PER_ACCOUNT
  {
    if a in w.accounts { assert OwnsWaiters(w, a); }
  }

  lemma OpenedIsFull(w: World, a: Account, victim: Option<Account>)
    ensures a !in Opened(w, a, victim).accounts ==> |Opened(w, a, victim).accounts| >= MAX_ACCOUNTS
  {}

  // ---- waiters ----

  lemma OpenedKeepsWaiters(w: World, a: Account, victim: Option<Account>, x: Waiter)
    requires x in w.issued && OpenOk(w, x) && w.issued[x].account in w.log
    requires victim.Some? ==> victim.value in w.accounts && w.accounts[victim.value].waiters == {}
    ensures var t, b := Opened(w, a, victim), w.issued[x].account;
            t.open == w.open && t.woken == w.woken && t.issued == w.issued
            && b in t.accounts && b in t.log && t.accounts[b] == w.accounts[b]
  {
    hide Opened;
    OpenedIs(w, a, victim);
  }

  // What one more step means for a registered waiter: it is up to date, and only its account's publish
  // (which wakes it) or its own timeout removes it.
  ghost predicate UpToDate(w: World, x: Waiter) {
    x in w.issued && x !in w.woken
    && w.issued[x].account in w.accounts && w.issued[x].account in w.log
    && w.issued[x].epoch == EpochOf(w, w.issued[x].account)
    && w.issued[x].after == |w.log[w.issued[x].account]|
  }

  ghost predicate LeavesRightly(w: World, e: Event, x: Waiter)
    requires x in w.issued
  {
    var t := Next(w, e);
    && (e.Publish? && e.account == w.issued[x].account ==> x in t.woken && x !in t.open)
    && (x !in t.open ==> x in t.woken || (e.Cancel? && e.waiter == x))
  }

  lemma WaitersLeaveRightly(w: World, e: Event, x: Waiter)
    requires Inv(w) && Enabled(w, e) && x in w.open
    ensures LeavesRightly(w, e, x)
  {
    hide IndexExact, TicketOk, OwnsWaiters;
    assert OpenOk(w, x);
    if !e.Cancel? { OpenedKeepsWaiters(w, e.account, e.victim, x); }
  }

  /**
    No lost wakeup, in every run: a waiter still registered has missed nothing, a publish to its account
    closes and removes it, it leaves in no other way than by its own timeout, and the caps hold.
   */
  lemma NoLostWakeup(w0: World, es: seq<Event>, x: Waiter, e: Event)
    requires Init(w0) && ValidRun(w0, es) && Enabled(Run(w0, es), e)
    ensures var w := Run(w0, es);
            && w.waiterCount == |w.open| <= MAX_WAITERS && |w.accounts| <= MAX_ACCOUNTS
            && (forall a :: a in w.accounts ==> |w.accounts[a].waiters| <= MAX_WAITERS_PER_ACCOUNT)
            && (x in w.open ==> UpToDate(w, x) && LeavesRightly(w, e, x))
  {
    RunKeepsInv(w0, es);
    var w := Run(w0, es);
    assert forall a :: a in w.accounts ==> OwnsWaiters(w, a);
    if x in w.open {
      assert OpenOk(w, x);
      WaitersLeaveRightly(w, e, x);
    }
  }

  // ---- a client that follows one account ----

  // It advances its cursor only on answers; a resync, or the loss of the account's state, ends its session.
  datatype Client = Client(account: Account, cursor: nat, seen: set<Conversation>, live: bool)

  function Follow(k: Client, w: World, e: Event): Client {
    var kept := k.account in Next(w, e).accounts && EpochOf(Next(w, e), k.account) == EpochOf(w, k.account);
    if !k.live || !kept then k.(live := false)
    else if e.Enter? && e.account == k.account && e.after == k.cursor then
      match EnterReply(w, k.account, k.cursor, e.victim)
      case Resync(_) => k.(live := false)
      case Delta(ids, version) => k.(cursor := version, seen := k.seen + ids)
      case Registered => k
    else k
  }

  function FollowRun(k: Client, w: World, es: seq<Event>): Client
    decreases |es|
  {
    if es == [] then k else FollowRun(Follow(k, w, es[0]), Next(w, es[0]), es[1..])
  }

  // From its start the client has seen exactly what was published up to its cursor.
  ghost predicate SeenExact(k: Client, w: World, start: nat) {
    k.live ==>
      && k.account in w.accounts && k.account in w.log && start <= k.cursor <= |w.log[k.account]|
      && k.seen == Set(w.log[k.account][start..k.cursor])
  }

  lemma OpenedFrame(w: World, b: Account, victim: Option<Account>, a: Account)
    requires a in w.accounts && a in w.log && a in Opened(w, b, victim).accounts
    requires EpochOf(Opened(w, b, victim), a) == EpochOf(w, a)
    ensures var t := Opened(w, b, victim); a in t.log && t.log[a] == w.log[a] && t.accounts[a] == w.accounts[a]
  {}

  lemma LogGrows(w: World, e: Event, a: Account)
    requires a in w.accounts && a in w.log
    requires a in Next(w, e).accounts && EpochOf(Next(w, e), a) == EpochOf(w, a)
    ensures a in Next(w, e).log && w.log[a] <= Next(w, e).log[a]
  {
    if !e.Cancel? { OpenedFrame(w, e.account, e.victim, a); }
  }

  lemma SetSplit(log: seq<Conversation>, i: nat, j: nat)
    requires i <= j <= |log|
    ensures Set(log[i..|log|]) == Set(log[i..j]) + Set(log[j..])
  {}

  lemma DeltaExtendsSeen(k: Client, w: World, start: nat)
    requires Inv(w) && k.live && SeenExact(k, w, start) && ReplyOf(w, k.account, k.cursor).Delta?
    ensures var r := ReplyOf(w, k.account, k.cursor);
            SeenExact(k.(cursor := r.version, seen := k.seen + r.ids), w, start)
  {
    AnswerIsExact(w, k.account, k.cursor);
    SetSplit(w.log[k.account], start, k.cursor);
  }

  lemma SeenStays(k: Client, w: World, t: World, start: nat)
    requires SeenExact(k, w, start) && k.account in w.log
    requires k.account in t.accounts && k.account in t.log && w.log[k.account] <= t.log[k.account]
    ensures SeenExact(k, t, start)
  {}

  lemma FollowKeepsSeen(k: Client, w: World, e: Event, start: nat)
    requires Inv(w) && Enabled(w, e) && SeenExact(k, w, start)
    ensures SeenExact(Follow(k, w, e), Next(w, e), start)
  {
    var k', t := Follow(k, w, e), Next(w, e);
    if k'.live {
      LogGrows(w, e, k.account);
      if e.Enter? && e.account == k.account && e.after == k.cursor && ReplyOf(w, k.account, k.cursor).Delta? {
        DeltaExtendsSeen(k, w, start);
      }
      SeenStays(k', w, t, start);
    }
  }

  /**
    A client that starts at some version and advances only on answers has, at every later moment of the
    same incarnation and until a resync, been told exactly the conversations published in between.
   */
  lemma {:induction false} FollowerMissesNothing(k: Client, w: World, es: seq<Event>, start: nat)
    requires Inv(w) && ValidRun(w, es) && SeenExact(k, w, start)
    ensures SeenExact(FollowRun(k, w, es), Run(w, es), start)
    decreases |es|
  {
    if es != [] {
      FollowKeepsSeen(k, w, es[0], start);
      StepKeepsInv(w, es[0]);
      FollowerMissesNothing(Follow(k, w, es[0]), Next(w, es[0]), es[1..], start);
    }
  }
}
