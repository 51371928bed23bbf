/**
  Cursors over everything ever published to an account, whether the broker kept it or not: across the loss and
  rebirth of the account's state, and across publishes dropped because every state was busy.
 */
module EventCursors {
  import opened Common
  import opened EventAnswers
  import opened EventLog

  // While an account has a state, its log is the part of its feed since the state began.
  ghost predicate LogIsFeed(w: World, a: Account)
    requires a in w.accounts
  {
    a in w.log && BaseOf(w, a) <= |FeedOf(w, a)| && w.log[a] == FeedOf(w, a)[BaseOf(w, a)..]
  }

  // A waiter stands where it was registered: at the end of the feed while open, behind it once woken.
  ghost predicate PlacedOk(w: World, x: Waiter)
    requires x in w.issued
  {
    var t := w.issued[x];
    && t.at <= |FeedOf(w, t.account)|
    && (x in w.open ==> t.at == |FeedOf(w, t.account)|)
    && (x in w.woken ==> t.at < |FeedOf(w, t.account)|)
  }

  ghost predicate History(w: World) {
    && Inv(w)
    && (forall a :: a in w.accounts ==> LogIsFeed(w, a))
    && (forall x :: x in w.issued ==> PlacedOk(w, x))
  }

  lemma AddedLogs(w: World, a: Account)
    requires a !in w.accounts && forall b :: b in w.accounts ==> LogIsFeed(w, b)
    ensures var t := Added(w, a); forall b :: b in t.accounts ==> LogIsFeed(t, b)
  {
    var t := Added(w, a);
    forall b | b in t.accounts ensures LogIsFeed(t, b) {
      if b != a { assert LogIsFeed(w, b); }
    }
  }

  lemma OpenedLogs(w: World, a: Account, victim: Option<Account>)
    requires forall b :: b in w.accounts ==> LogIsFeed(w, b)
    ensures var t := Opened(w, a, victim); forall b :: b in t.accounts ==> LogIsFeed(t, b)
  {
    hide Opened, Added;
    var t := Trimmed(w, victim);
    OpenedIs(w, a, victim);
    forall b | b in t.accounts ensures LogIsFeed(t, b) { assert LogIsFeed(w, b); }
    if a !in w.accounts { AddedLogs(t, a); }
  }

  lemma OpenedHistory(w: World, a: Account, victim: Option<Account>)
    requires History(w) && VictimOk(w, a, victim)
    ensures History(Opened(w, a, victim))
  {
    hide Inv, Opened, LogIsFeed;
    OpenedKeepsInv(w, a, victim);
    OpenedIs(w, a, victim);
    OpenedLogs(w, a, victim);
    var t := Opened(w, a, victim);
    forall x | x in t.issued ensures PlacedOk(t, x) { assert PlacedOk(w, x); }
  }

  // What a publish does once the account has a state or is refused one.
  function Sent(w: World, a: Account, c: Conversation): World {
    Fed(if a in w.accounts && a in w.log then PublishTo(w, a, c) else w, a, c)
  }

  lemma PublishLogs(w: World, a: Account, c: Conversation)
    requires forall b :: b in w.accounts ==> LogIsFeed(w, b)
    ensures var t := Sent(w, a, c); forall b :: b in t.accounts ==> LogIsFeed(t, b)
  {
    hide Bump;
    var t := Sent(w, a, c);
    forall b | b in t.accounts ensures LogIsFeed(t, b) {
      assert LogIsFeed(w, b);
      if b == a {
        assert FeedOf(t, a)[BaseOf(w, a)..] == FeedOf(w, a)[BaseOf(w, a)..] + [c];
      }
    }
  }

  lemma OpenIsOwned(w: World, a: Account, x: Waiter)
    requires Inv(w) && x in w.open && w.issued[x].account == a
    ensures a in w.accounts && x in w.accounts[a].waiters && a in w.log
  {
    assert OpenOk(w, x);
  }

  // A publish wakes every open waiter of its account and leaves the feed a step ahead of them.
  lemma PublishPlaces(w: World, a: Account, c: Conversation)
    requires History(w)
    ensures var t := Sent(w, a, c); forall x :: x in t.issued ==> PlacedOk(t, x)
  {
    hide Inv;
    var t := Sent(w, a, c);
    forall x | x in t.issued ensures PlacedOk(t, x) {
      assert PlacedOk(w, x);
      if x in w.open && w.issued[x].account == a { OpenIsOwned(w, a, x); }
      if a in w.accounts && x in w.accounts[a].waiters { WaiterIsOpen(w, a, x); }
    }
  }

  lemma WaiterIsOpen(w: World, a: Account, x: Waiter)
    requires Inv(w) && a in w.accounts && x in w.accounts[a].waiters
    ensures x in w.open && x in w.issued && w.issued[x].account == a
  {
    assert OwnsWaiters(w, a);
  }

  lemma StepKeepsHistory(w: World, e: Event)
    requires History(w) && Enabled(w, e)
    ensures History(Next(w, e))
  {
    hide Inv, Opened, LogIsFeed, PlacedOk;
    StepKeepsInv(w, e);
    match e
    case Publish(a, c, victim) =>
      OpenedHistory(w, a, victim);
      assert Next(w, e) == Sent(Opened(w, a, victim), a, c);
      PublishLogs(Opened(w, a, victim), a, c);
      PublishPlaces(Opened(w, a, victim), a, c);
    case Enter(a, after, waiter, victim) =>
      OpenedHistory(w, a, victim);
      OpenedIs(w, a, victim);
      EnrollHistory(Opened(w, a, victim), Next(w, e), a, after, waiter);
    case Cancel(a, waiter) => CancelHistory(w, a, waiter);
  }

  // A step that changes no log and no feed.
  lemma SameLogs(w: World, t: World)
    requires forall b :: b in w.accounts ==> LogIsFeed(w, b)
    requires t.accounts.Keys <= w.accounts.Keys && t.log == w.log && t.feed == w.feed && t.base == w.base
    ensures forall b :: b in t.accounts ==> LogIsFeed(t, b)
  {
    forall b | b in t.accounts ensures LogIsFeed(t, b) { assert LogIsFeed(w, b); }
  }

  lemma EnrollPlaces(w: World, a: Account, after: nat, waiter: Waiter)
    requires History(w) && waiter !in w.issued && a in w.accounts
    ensures var t := Enrolled(w, a, after, waiter); forall x :: x in t.issued ==> PlacedOk(t, x)
  {
    hide Indexed, LogIsFeed;
    var t := Enrolled(w, a, after, waiter);
    assert waiter !in w.woken;
    forall x | x in t.issued ensures PlacedOk(t, x) { assert x in w.issued ==> PlacedOk(w, x); }
  }

  lemma EnrollHistory(w: World, t: World, a: Account, after: nat, waiter: Waiter)
    requires History(w) && waiter !in w.issued
    requires t == w || (a in w.accounts && t == Enrolled(w, a, after, waiter))
    ensures forall b :: b in t.accounts ==> LogIsFeed(t, b)
    ensures forall x :: x in t.issued ==> PlacedOk(t, x)
  {
    hide Inv, PlacedOk, LogIsFeed;
    SameLogs(w, t);
    if a in w.accounts { EnrollPlaces(w, a, after, waiter); }
  }

  lemma CancelHistory(w: World, a: Account, waiter: Waiter)
    requires History(w)
    ensures var t := Cancelled(w, a, waiter);
            && (forall b :: b in t.accounts ==> LogIsFeed(t, b)) && forall x :: x in t.issued ==> PlacedOk(t, x)
  {
    hide Inv, LogIsFeed;
    var t := Cancelled(w, a, waiter);
    SameLogs(w, t);
    forall x | x in t.issued ensures PlacedOk(t, x) { assert PlacedOk(w, x); }
  }

  lemma {:induction false} RunKeepsHistory(w: World, es: seq<Event>)
    requires History(w) && ValidRun(w, es)
    ensures History(Run(w, es))
    decreases |es|
  {
    if es != [] {
      StepKeepsHistory(w, es[0]);
      RunKeepsHistory(Next(w, es[0]), es[1..]);
    }
  }

  // ---- the feed only grows, and a new incarnation begins at its end ----

  ghost predicate Later(w: World, t: World, a: Account) {
    && FeedOf(w, a) <= FeedOf(t, a) && EpochOf(w, a) <= EpochOf(t, a)
    && (a !in w.accounts && a in t.accounts ==> EpochOf(t, a) > EpochOf(w, a))
    && if EpochOf(t, a) == EpochOf(w, a) then BaseOf(t, a) == BaseOf(w, a) else BaseOf(t, a) >= |FeedOf(w, a)|
  }

  lemma TrimmedLater(w: World, victim: Option<Account>, a: Account)
    ensures Later(w, Trimmed(w, victim), a)
  {}

  lemma AddedLater(w: World, b: Account, a: Account)
    ensures Later(w, Added(w, b), a)
  {}

  lemma OpenedLater(w: World, b: Account, victim: Option<Account>, a: Account)
    ensures Later(w, Opened(w, b, victim), a)
  {
    hide Opened, Later, Added, Trimmed;
    OpenedIs(w, b, victim);
    TrimmedLater(w, victim, a);
    AddedLater(Trimmed(w, victim), b, a);
    LaterLater(w, Trimmed(w, victim), Added(Trimmed(w, victim), b), a);
    StillLater(w, a);
  }

  lemma StillLater(w: World, a: Account)
    ensures Later(w, w, a)
  {}

  lemma StepLater(w: World, e: Event, a: Account)
    ensures Later(w, Next(w, e), a)
  {
    if !e.Cancel? { OpenedLater(w, e.account, e.victim, a); }
  }

  lemma LaterLater(w: World, t: World, u: World, a: Account)
    requires Later(w, t, a) && Later(t, u, a)
    ensures Later(w, u, a)
  {}

  lemma {:induction false} RunLater(w: World, es: seq<Event>, a: Account)
    ensures Later(w, Run(w, es), a)
    decreases |es|
  {
    if es != [] {
      StepLater(w, es[0], a);
      RunLater(Next(w, es[0]), es[1..], a);
      LaterLater(w, Next(w, es[0]), Run(Next(w, es[0]), es[1..]), a);
    }
  }

  // ---- what a cursor is told, however old it is ----

  function Told(r: Reply): set<Conversation> {
    if r.Delta? then r.ids else {}
  }

  function Between(feed: seq<Conversation>, lo: nat, hi: nat): seq<Conversation> {
    if lo <= hi <= |feed| then feed[lo..hi] else []
  }

  // All that was published after the first moment.
  function Since(w0: World, w: World, a: Account): seq<Conversation> {
    Between(FeedOf(w, a), |FeedOf(w0, a)|, |FeedOf(w, a)|)
  }

  // Published after the first moment, but at or below the cursor's number in the present incarnation.
  function Gap(w0: World, w: World, a: Account, after: nat): seq<Conversation> {
    Between(FeedOf(w, a), |FeedOf(w0, a)|, BaseOf(w, a) + after)
  }

  function PastGap(w: World, a: Account, after: nat): seq<Conversation> {
    Between(FeedOf(w, a), BaseOf(w, a) + after, |FeedOf(w, a)|)
  }

  /**
    A cursor issued at one moment and used at any later one, whatever happened in between, and not met with a
    resync: the answer is all that was published since it was issued, if and only if everything in the gap was
    published again after the gap. The cursor is the account's version, or the zero told to a reader whose account
    has no state. The gap is what the lost incarnation still published, what was dropped while the account had no
    state, and the first `after` publishes of the present incarnation; in the incarnation the cursor was issued in
    there is none, so there the answer is always complete.
   */
  lemma CursorCompleteIff(w0: World, es: seq<Event>, a: Account, victim: Option<Account>)
    requires History(w0) && ValidRun(w0, es)
    ensures var w, after := Run(w0, es), CancelVersion(w0, a);
            var t, r := Opened(w, a, victim), EnterReply(w, a, after, victim);
            (VictimOk(w, a, victim) && !r.Resync?) ==>
              && |FeedOf(w0, a)| <= BaseOf(t, a) + after <= |FeedOf(t, a)|
              && FeedOf(w0, a) <= FeedOf(t, a) == FeedOf(w, a)
              && (Told(r) == Set(Since(w0, w, a)) <==> Set(Gap(w0, t, a, after)) <= Set(PastGap(t, a, after)))
              && (EpochOf(t, a) == EpochOf(w0, a) ==> Gap(w0, t, a, after) == [])
  {
    hide *;
    var w, after := Run(w0, es), CancelVersion(w0, a);
    var t := Opened(w, a, victim);
    if VictimOk(w, a, victim) && !EnterReply(w, a, after, victim).Resync? {
      RunKeepsHistory(w0, es);
      OpenedHistory(w, a, victim);
      OpenedFeed(w, a, victim);
      RunLater(w0, es, a);
      OpenedLater(w, a, victim, a);
      LaterLater(w0, w, t, a);
      CursorPlace(w0, a);
      AnswerTells(w, a, after, victim);
      RestOfFeed(t, a, after);
      GapBounds(w0, t, a, after);
      SinceIs(w0, w, t, a);
    }
  }

  lemma OpenedFeed(w: World, a: Account, victim: Option<Account>)
    ensures FeedOf(Opened(w, a, victim), a) == FeedOf(w, a)
  {
    hide Opened;
    OpenedIs(w, a, victim);
  }

  lemma SinceIs(w0: World, w: World, t: World, a: Account)
    requires FeedOf(t, a) == FeedOf(w, a)
    ensures Since(w0, w, a) == Since(w0, t, a)
  {}

  lemma GapBounds(w0: World, t: World, a: Account, after: nat)
    requires Later(w0, t, a) && a in t.accounts && BaseOf(t, a) + after <= |FeedOf(t, a)|
    requires a in w0.accounts ==> BaseOf(w0, a) + after == |FeedOf(w0, a)|
    ensures |FeedOf(w0, a)| <= BaseOf(t, a) + after && FeedOf(w0, a) <= FeedOf(t, a)
    ensures Set(Since(w0, t, a)) == Set(Gap(w0, t, a, after)) + Set(PastGap(t, a, after))
    ensures EpochOf(t, a) == EpochOf(w0, a) ==> Gap(w0, t, a, after) == []
  {
    SetBetween(FeedOf(t, a), |FeedOf(w0, a)|, BaseOf(t, a) + after);
  }

  lemma SetBetween(feed: seq<Conversation>, lo: nat, hi: nat)
    requires lo <= hi <= |feed|
    ensures Set(Between(feed, lo, |feed|)) == Set(Between(feed, lo, hi)) + Set(Between(feed, hi, |feed|))
  {
    SetSplit(feed, lo, hi);
    assert feed[hi..|feed|] == feed[hi..];
  }

  lemma LogLength(w: World, a: Account)
    requires History(w) && a in w.accounts
    ensures BaseOf(w, a) + w.accounts[a].version == |FeedOf(w, a)|
  {
    assert LogIsFeed(w, a);
  }

  // A cursor stands at the end of the feed, if the account has a state to number it in.
  lemma CursorPlace(w: World, a: Account)
    requires History(w)
    ensures a in w.accounts ==> BaseOf(w, a) + CancelVersion(w, a) == |FeedOf(w, a)|
  {
    if a in w.accounts { LogLength(w, a); }
  }

  lemma RestOfFeed(w: World, a: Account, after: nat)
    requires History(w) && a in w.accounts && after <= w.accounts[a].version
    ensures a in w.log && after <= |w.log[a]| && BaseOf(w, a) + after <= |FeedOf(w, a)|
    ensures w.log[a][after..] == PastGap(w, a, after)
  {
    LogLength(w, a);
    assert LogIsFeed(w, a);
    DropDrop(FeedOf(w, a), BaseOf(w, a), after);
  }

  lemma DropDrop(feed: seq<Conversation>, base: nat, after: nat)
    requires base + after <= |feed|
    ensures feed[base..][after..] == Between(feed, base + after, |feed|)
  {}

  lemma AnswerTells(w: World, a: Account, after: nat, victim: Option<Account>)
    requires History(w) && VictimOk(w, a, victim)
    ensures var t := Opened(w, a, victim);
            !EnterReply(w, a, after, victim).Resync? ==>
              && a in t.accounts && a in t.log && after <= t.accounts[a].version && after <= |t.log[a]|
              && Told(EnterReply(w, a, after, victim)) == Set(t.log[a][after..])
  {
    hide Inv, Opened;
    var t := Opened(w, a, victim);
    if !EnterReply(w, a, after, victim).Resync? {
      OpenedHistory(w, a, victim);
      AnswerIsExact(t, a, after);
      LogLength(t, a);
      assert LogIsFeed(t, a);
    }
  }

  // ---- the version returned by a timeout ----

  /** Where in the feed the answers to a cursor begin; an account without a state has its next one begin at the end. */
  function Resume(w: World, a: Account, cursor: nat): nat {
    if a in w.accounts then BaseOf(w, a) + cursor else |FeedOf(w, a)|
  }

  /**
    Adopting the version a timed-out wait returns resumes at the end of the feed, even when the account's state
    was lost after the wake-up and the version is zero; so it skips nothing published since the waiter was
    registered if and only if no publish had closed the waiter before the timeout took the lock.
   */
  lemma TimeoutSkipsIff(w: World, x: Waiter)
    requires History(w) && x in w.issued && (x in w.open || x in w.woken)
    ensures var t := w.issued[x];
            var resume := Resume(w, t.account, CancelVersion(w, t.account));
            && t.at <= resume == |FeedOf(w, t.account)|
            && (FeedOf(w, t.account)[t.at..resume] == [] <==> x in w.open)
  {
    var a := w.issued[x].account;
    assert PlacedOk(w, x);
    if a in w.accounts { assert LogIsFeed(w, a); }
  }

  /** A publish that wins the lock just before a timeout: the wait returns its version without naming it. */
  lemma TimeoutSkipsPublish()
    ensures var es := [Enter("a", 0, 1, None), Publish("a", "c", None)];
            var w := Run(START, es);
            && ValidRun(START, es) && Enabled(w, Cancel("a", 1))
            && 1 in w.woken && CancelVersion(Next(w, Cancel("a", 1)), "a") == 1
            && FeedOf(w, "a")[w.issued[1].at..] == ["c"]
  {
    var e, f := Enter("a", 0, 1, None), Publish("a", "c", None);
    var w1 := Next(START, e);
    var w2 := Next(w1, f);
    assert Run(START, [e, f]) == w2 && ValidRun(START, [e, f]) by {
      assert [e, f][1..] == [f] && [f][1..] == [];
      assert Run(w1, [f]) == w2 && ValidRun(w1, [f]);
    }
    assert Opened(START, "a", None) == Added(START, "a");
    assert Pruned(map["c" := 1], 0) == map["c" := 1];
  }

  // ---- a reachable run in which a surviving cursor is not told everything ----

  // As many accounts as are wanted; the first is the reader.
  function Name(n: nat): Account {
    seq(n + 1, _ => 'x')
  }

  const READER: Account := Name(0)

  lemma NamesDiffer(n: nat, m: nat)
    ensures Name(n) == Name(m) ==> n == m
  {
    assert |Name(n)| == n + 1 && |Name(m)| == m + 1;
  }

  function Fill(n: nat): seq<Event> {
    if n == 0 then [] else Fill(n - 1) + [Publish(Name(n), "c", None)]
  }

  ghost predicate Named(w: World, n: nat) {
    && |w.accounts| == n + 1
    && (forall k :: 0 <= k <= n ==> Name(k) in w.accounts)
    && (forall a :: a in w.accounts ==> (exists k :: 0 <= k <= n && a == Name(k)) && w.accounts[a].waiters == {})
  }

  lemma NotNamed(w: World, n: nat)
    requires Named(w, n)
    ensures Name(n + 1) !in w.accounts
  {
    forall k | 0 <= k <= n ensures Name(k) != Name(n + 1) { NamesDiffer(k, n + 1); }
  }

  lemma OpensFirst(w: World, a: Account, victim: Option<Account>)
    requires a !in w.accounts && |Trimmed(w, victim).accounts| < MAX_ACCOUNTS
    ensures Opened(w, a, victim) == Added(Trimmed(w, victim), a)
  {}

  lemma PublishesFirst(w: World, a: Account, c: Conversation)
    ensures var t := PublishTo(Added(w, a), a, c);
            t.accounts == w.accounts[a := AccountState(map[c := 1], 0, 1, {})] && t.feed == w.feed
  {
    hide Bump;
    FirstBump(c);
  }

  // A first publish to an account, in place of the victim if the table is full.
  lemma FirstPublish(w: World, a: Account, c: Conversation, victim: Option<Account>)
    requires a !in w.accounts
    requires if victim.None? then |w.accounts| < MAX_ACCOUNTS
             else |w.accounts| == MAX_ACCOUNTS && victim.value in w.accounts && w.accounts[victim.value].waiters == {}
    ensures Enabled(w, Publish(a, c, victim))
    ensures var t := Next(w, Publish(a, c, victim));
            var rest := if victim.Some? then w.accounts - {victim.value} else w.accounts;
            && t.accounts == rest[a := AccountState(map[c := 1], 0, 1, {})]
            && (forall b :: b != a ==> FeedOf(t, b) == FeedOf(w, b)) && FeedOf(t, a) == FeedOf(w, a) + [c]
  {
    hide Bump, Trimmed, Opened, PublishTo;
    RoomAfter(w, victim);
    OpensFirst(w, a, victim);
    PublishesFirst(Trimmed(w, victim), a, c);
  }

  lemma RoomAfter(w: World, victim: Option<Account>)
    requires if victim.None? then |w.accounts| < MAX_ACCOUNTS
             else |w.accounts| == MAX_ACCOUNTS && victim.value in w.accounts
    ensures var t := Trimmed(w, victim);
            && |t.accounts| < MAX_ACCOUNTS && t.feed == w.feed
            && t.accounts == if victim.Some? then w.accounts - {victim.value} else w.accounts
  {
  }

  lemma FirstBump(c: Conversation)
    ensures Bump(EMPTY_STATE, c) == AccountState(map[c := 1], 0, 1, {})
  {
    assert EMPTY_STATE.changes[c := 1] == map[c := 1] && |map[c := 1]| == 1;
  }

  // The same conversation published once more.
  lemma SecondPublish(w: World, a: Account, c: Conversation)
    requires a in w.accounts && a in w.log && w.accounts[a] == AccountState(map[c := 1], 0, 1, {})
    ensures Enabled(w, Publish(a, c, None))
    ensures var t := Next(w, Publish(a, c, None));
            && t.accounts == w.accounts[a := AccountState(map[c := 2], 0, 2, {})] && FeedOf(t, a) == FeedOf(w, a) + [c]
  {
    assert map[c := 1][c := 2] == map[c := 2] && |map[c := 2]| == 1;
  }

  lemma OneMoreName(w: World, n: nat)
    requires Named(w, n) && n + 1 < MAX_ACCOUNTS
    ensures var e := Publish(Name(n + 1), "c", None);
            && Enabled(w, e) && Named(Next(w, e), n + 1)
            && Next(w, e).accounts[READER] == w.accounts[READER] && FeedOf(Next(w, e), READER) == FeedOf(w, READER)
  {
    hide Next;
    var a, t := Name(n + 1), Next(w, Publish(Name(n + 1), "c", None));
    NotNamed(w, n);
    FirstPublish(w, a, "c", None);
    NamesDiffer(0, n + 1);
    assert t.accounts.Keys == w.accounts.Keys + {a};
    assert |t.accounts.Keys| == |w.accounts.Keys| + 1;
    forall b | b in t.accounts ensures exists k :: 0 <= k <= n + 1 && b == Name(k) {
      if b in w.accounts {
        var k :| 0 <= k <= n && b == Name(k);
      }
    }
  }

  lemma {:induction false} FillNames(w: World, n: nat)
    requires Named(w, 0) && n < MAX_ACCOUNTS
    ensures ValidRun(w, Fill(n)) && Named(Run(w, Fill(n)), n)
    ensures Run(w, Fill(n)).accounts[READER] == w.accounts[READER]
    ensures FeedOf(Run(w, Fill(n)), READER) == FeedOf(w, READER)
    decreases n
  {
    hide Next, Enabled, Named;
    if n > 0 {
      FillNames(w, n - 1);
      OneMoreName(Run(w, Fill(n - 1)), n - 1);
      RunAppend(w, Fill(n - 1), Publish(Name(n), "c", None));
    }
  }

  lemma {:induction false} RunConcat(w: World, es: seq<Event>, fs: seq<Event>)
    requires ValidRun(w, es) && ValidRun(Run(w, es), fs)
    ensures ValidRun(w, es + fs) && Run(w, es + fs) == Run(Run(w, es), fs)
    decreases |es|
  {
    hide Next, Enabled;
    if es == [] {
      assert es + fs == fs;
    } else {
      assert (es + fs)[1..] == es[1..] + fs;
      RunConcat(Next(w, es[0]), es[1..], fs);
    }
  }

  // The reader's state is taken for one account more than fit, and comes back in place of another.
  function Takeover(): seq<Event> {
    [Publish(Name(MAX_ACCOUNTS), "c", Some(READER)), Publish(READER, "w", Some(Name(1))), Publish(READER, "w", None)]
  }

  lemma TakeoverRuns(w: World)
    requires Inv(w) && Named(w, MAX_ACCOUNTS - 1)
    ensures ValidRun(w, Takeover())
    ensures var t := Run(w, Takeover());
            && READER in t.accounts && t.accounts[READER] == AccountState(map["w" := 2], 0, 2, {})
            && FeedOf(t, READER) == FeedOf(w, READER) + ["w", "w"]
  {
    hide Inv, Next, Enabled;
    var es := Takeover();
    var w1 := Next(w, es[0]);
    NotNamed(w, MAX_ACCOUNTS - 1);
    NamesDiffer(0, 1);
    NamesDiffer(0, MAX_ACCOUNTS);
    NamesDiffer(1, MAX_ACCOUNTS);
    assert Name(0) in w.accounts && Name(1) in w.accounts;
    FirstPublish(w, Name(MAX_ACCOUNTS), "c", Some(READER));
    StepKeepsInv(w, es[0]);
    SameSize(w.accounts, READER, Name(MAX_ACCOUNTS), w1.accounts);
    FirstPublish(w1, READER, "w", Some(Name(1)));
    var w2 := Next(w1, es[1]);
    StepKeepsInv(w1, es[1]);
    LogOf(w2, READER);
    SecondPublish(w2, READER, "w");
    assert es[1..] == [es[1], es[2]] && es[1..][1..] == [es[2]] && es[1..][1..][1..] == [];
    assert ValidRun(w2, [es[2]]) && Run(w2, [es[2]]) == Next(w2, es[2]) by { assert [es[2]][1..] == []; }
    assert ValidRun(w1, es[1..]) && Run(w1, es[1..]) == Next(w2, es[2]);
  }

  lemma SameSize(m: map<Account, AccountState>, victim: Account, a: Account, n: map<Account, AccountState>)
    requires victim in m && a !in m && a != victim && a in n && n == (m - {victim})[a := n[a]]
    ensures |n| == |m|
  {
    assert n.Keys == m.Keys - {victim} + {a};
    assert |m.Keys - {victim}| == |m.Keys| - 1;
  }

  lemma LogOf(w: World, a: Account)
    requires Inv(w) && a in w.accounts
    ensures a in w.log
  {}

  function Losing(): seq<Event> {
    [Publish(READER, "u", None)] + (Fill(MAX_ACCOUNTS - 1) + Takeover())
  }

  lemma OneName(w: World, st: AccountState)
    requires w.accounts == map[READER := st] && st.waiters == {}
    ensures Named(w, 0)
  {
    assert |map[READER := st]| == 1;
  }

  lemma ReaderTwice()
    ensures var e := Publish(READER, "u", None);
            var w0 := Next(START, e);
            var w1 := Next(w0, e);
            && Enabled(START, e) && Enabled(w0, e) && Inv(w0) && Inv(w1) && Named(w1, 0)
            && READER in w0.accounts && w0.accounts[READER].version == 1
            && FeedOf(w0, READER) == ["u"] && FeedOf(w1, READER) == ["u", "u"]
  {
    hide Inv, Next, Enabled;
    var e := Publish(READER, "u", None);
    var w0 := Next(START, e);
    FirstPublish(START, READER, "u", None);
    StepKeepsInv(START, e);
    LogOf(w0, READER);
    SecondPublish(w0, READER, "u");
    StepKeepsInv(w0, e);
    assert w0.accounts == map[READER := w0.accounts[READER]];
    OneName(Next(w0, e), AccountState(map["u" := 2], 0, 2, {}));
  }

  lemma RunOne(w: World, e: Event)
    requires Enabled(w, e)
    ensures ValidRun(w, [e]) && Run(w, [e]) == Next(w, e)
  {
    assert [e][1..] == [];
  }

  lemma AnswerIs(w: World)
    requires READER in w.accounts && w.accounts[READER] == AccountState(map["w" := 2], 0, 2, {})
    ensures EnterReply(w, READER, 1, None) == Delta({"w"}, 2)
  {
    assert ChangedSince(w.accounts[READER], 1) == {"w"};
  }

  /**
    A reader with cursor 1 loses its state to a full table and is answered from the new one: three times it is
    published to after its cursor, and of the first, in another conversation than the rest, it never hears.
   */
  lemma SurvivingCursorMisses()
    ensures var first := [Publish(READER, "u", None)];
            var w0 := Run(START, first);
            var w := Run(w0, Losing());
            && ValidRun(START, first) && READER in w0.accounts && w0.accounts[READER].version == 1
            && ValidRun(w0, Losing()) && EnterReply(w, READER, 1, None) == Delta({"w"}, 2)
            && Since(w0, w, READER) == ["u", "w", "w"]
  {
    hide Inv, Next, Enabled, Named, EnterReply, Takeover;
    var e, filler := Publish(READER, "u", None), Fill(MAX_ACCOUNTS - 1);
    ReaderTwice();
    var w0 := Next(START, e);
    var w1 := Next(w0, e);
    RunOne(START, e);
    RunOne(w0, e);
    FillNames(w1, MAX_ACCOUNTS - 1);
    RunKeepsInv(w1, filler);
    TakeoverRuns(Run(w1, filler));
    RunConcat(w1, filler, Takeover());
    RunConcat(w0, [e], filler + Takeover());
    AnswerIs(Run(w0, Losing()));
  }
}
