/** Without contention the database-backed limiter and the in-memory one give the same answers. */
module LimiterAgreement {
  import opened Common
  import opened MemoryLimiter
  import S = SurrealLimiter

  // One account's tables: its rate row, remembered client ids with their expiry, and persisted client ids.
  datatype Store = Store(row: Option<S.Row>, dedup: map<ClientId, Instant>, messages: set<ClientId>)

  const NEW_STORE: Store := Store(None, map[], {})

  /** The row and answer of one uncontended pass through the check. */
  function Settle(row: Option<S.Row>, now: Instant): (Option<S.Row>, Answer) {
    match S.Decide(row, now)
    case Refuse(answer) => (row, answer)
    case Purge => var plan := S.Write(None, now); (Some(plan.row), plan.answer)
    case Put(next, answer) => (Some(next), answer)
  }

  function CheckStore(s: Store, c: ClientId, now: Instant): (Store, Answer) {
    if c != "" && c in s.dedup then (s, DUPLICATE)
    else if c != "" && c in s.messages then (s.(dedup := s.dedup[c := now + DEDUP_TTL]), DUPLICATE)
    else
      var (row, answer) := Settle(s.row, now);
      (s.(row := row, dedup := if answer == ADMIT then Remember(s.dedup, c, now) else s.dedup), answer)
  }

  /** One pass is what the concurrent machine does when a single caller runs alone. */
  lemma SettleRunsTheMachine(row: Option<S.Row>, now: Instant)
    ensures var w := S.Next(S.Next(S.World(row, map[], []), S.Arrive(1, now)), S.ReadRow(1));
            var x := if S.PhaseOf(w, 1).Purging? then S.Next(w, S.DeleteRow(1)) else w;
            var y := if S.PhaseOf(x, 1).Ready? then S.Next(x, S.WriteRow(1)) else x;
            y.row == Settle(row, now).0 && S.PhaseOf(y, 1) == S.Done(Some(Settle(row, now).1))
  {}

  function Swept(s: Store, now: Instant): Store {
    var idle := s.row.Some? && (s.row.value.blockedUntil.None? || s.row.value.blockedUntil.value < now)
                && s.row.value.timestamps == [];
    s.(row := if idle then None else s.row,
       dedup := map c | c in s.dedup && s.dedup[c] >= now :: s.dedup[c])
  }

  type Stores = map<Account, Store>

  function StoreOf(ss: Stores, a: Account): Store {
    if a in ss then ss[a] else NEW_STORE
  }

  datatype Act =
    | Ask(account: Account, clientId: ClientId, now: Instant)
    | TidyMemory(now: Instant)
    | TidyTables(now: Instant)
    | Persisted(account: Account, clientId: ClientId)
    | Drop(account: Account, clientId: ClientId)  // Forget, after a send that was turned away

  function MemoryAct(m: Memory, x: Act): Memory {
    match x
    case Ask(a, c, now) => MemoryNext(m, Check(a, c, now))
    case TidyMemory(now) => MemoryNext(m, Cleanup(now))
    case TidyTables(_) => m
    case Persisted(_, _) => m
    case Drop(a, c) => MemoryNext(m, Forget(a, c))
  }

  function StoresAct(ss: Stores, x: Act): Stores {
    match x
    case Ask(a, c, now) => ss[a := CheckStore(StoreOf(ss, a), c, now).0]
    case TidyMemory(_) => ss
    case TidyTables(now) => map a | a in ss :: Swept(ss[a], now)
    case Persisted(a, c) => ss[a := StoreOf(ss, a).(messages := StoreOf(ss, a).messages + {c})]
    case Drop(a, c) => if c != "" then ss[a := StoreOf(ss, a).(dedup := StoreOf(ss, a).dedup - {c})] else ss
  }

  function LedgersAct(ls: Ledgers, x: Act): Ledgers {
    if x.Ask? then LedgersNext(ls, Check(x.account, x.clientId, x.now))
    else if x.Drop? then LedgersNext(ls, Forget(x.account, x.clientId))
    else ls
  }

  function ClockAct(t: Instant, x: Act): Instant {
    match x
    case Ask(_, _, now) => now
    case TidyMemory(now) => Max(t, now)
    case TidyTables(now) => Max(t, now)
    case Persisted(_, _) => t
    case Drop(_, _) => t
  }

  // The clock does not run backwards, a client id comes again only while it is remembered, only admitted
  // messages are persisted, and only a message that was not is dropped.
  ghost predicate ActOk(ss: Stores, ls: Ledgers, t: Instant, x: Act) {
    match x
    case Ask(a, c, now) => now >= t && (c in LedgerOf(ls, a).dedup ==> LedgerOf(ls, a).dedup[c] > now)
    case TidyMemory(_) => true
    case TidyTables(_) => true
    case Persisted(a, c) => c in LedgerOf(ls, a).dedup
    case Drop(a, c) => c !in StoreOf(ss, a).messages
  }

  ghost predicate RunOk(ss: Stores, ls: Ledgers, t: Instant, xs: seq<Act>)
    decreases |xs|
  {
    xs == [] ||
    (ActOk(ss, ls, t, xs[0]) && RunOk(StoresAct(ss, xs[0]), LedgersAct(ls, xs[0]), ClockAct(t, xs[0]), xs[1..]))
  }

  function MemoryReplies(m: Memory, xs: seq<Act>): seq<Answer>
    decreases |xs|
  {
    if xs == [] then []
    else (if xs[0].Ask? then [CheckState(StateOf(m, xs[0].account), xs[0].clientId, xs[0].now).1] else [])
         + MemoryReplies(MemoryAct(m, xs[0]), xs[1..])
  }

  function StoreReplies(ss: Stores, xs: seq<Act>): seq<Answer>
    decreases |xs|
  {
    if xs == [] then []
    else (if xs[0].Ask? then [CheckStore(StoreOf(ss, xs[0].account), xs[0].clientId, xs[0].now).1] else [])
         + StoreReplies(StoresAct(ss, xs[0]), xs[1..])
  }

  ghost predicate Mirrors(s: Store, l: Ledger, t: Instant) {
    && Recent(S.Timestamps(s.row), t) == Recent(l.admitted, t)
    && Live(S.BlockOf(s.row), t) == Live(l.blockedUntil, t)
    && "" !in l.dedup && s.dedup.Keys <= l.dedup.Keys && s.messages <= l.dedup.Keys
    && (forall c :: c in s.dedup ==> s.dedup[c] == l.dedup[c])
    && (forall c :: c in l.dedup && l.dedup[c] > t ==> c in s.dedup)
  }

  ghost predicate AllMirror(ss: Stores, ls: Ledgers, t: Instant) {
    forall a :: Mirrors(StoreOf(ss, a), LedgerOf(ls, a), t)
  }

  lemma MirrorsLater(s: Store, l: Ledger, t: Instant, now: Instant)
    requires Mirrors(s, l, t) && t <= now
    ensures Mirrors(s, l, now)
  {
    RecentTwice(S.Timestamps(s.row), t, now);
    RecentTwice(l.admitted, t, now);
  }

  lemma WriteMirrors(snap: Option<S.Row>, l: Ledger, now: Instant)
    requires Recent(S.Timestamps(snap), now) == Recent(l.admitted, now) && !Holds(l.blockedUntil, now)
    ensures var plan, l' := S.Write(snap, now), CheckLedger(l, "", now).0;
            && plan.Put? && plan.answer == CheckLedger(l, "", now).1
            && Recent(plan.row.timestamps, now) == Recent(l'.admitted, now)
            && Live(plan.row.blockedUntil, now) == Live(l'.blockedUntil, now)
  {
    RecentTwice(S.Timestamps(snap), now, now);
    RecentAppend(Recent(S.Timestamps(snap), now), [now], now);
    RecentAppend(l.admitted, [now], now);
  }

  lemma SettleMirrors(s: Store, l: Ledger, now: Instant)
    requires Mirrors(s, l, now)
    ensures var (row, answer) := Settle(s.row, now);
            && answer == CheckLedger(l, "", now).1
            && Recent(S.Timestamps(row), now) == Recent(CheckLedger(l, "", now).0.admitted, now)
            && Live(S.BlockOf(row), now) == Live(CheckLedger(l, "", now).0.blockedUntil, now)
  {
    if !Holds(l.blockedUntil, now) {
      WriteMirrors(s.row, l, now);
      if S.Decide(s.row, now).Purge? {
        assert Recent(S.Timestamps(None), now) == [];
        WriteMirrors(None, l, now);
      }
    }
  }

  lemma CheckMirrors(s: Store, l: Ledger, c: ClientId, now: Instant)
    requires Mirrors(s, l, now) && (c in l.dedup ==> l.dedup[c] > now)
    ensures CheckStore(s, c, now).1 == CheckLedger(l, c, now).1
    ensures Mirrors(CheckStore(s, c, now).0, CheckLedger(l, c, now).0, now)
  {
    SettleMirrors(s, l, now);
  }

  /**
    One check gets the same answer from both limiters if and only if the tables do not know its client id or the
    memory still remembers it: past its lifetime a client id is new to one limiter and a duplicate to the other.
   */
  lemma AgreeExactlyWhileRemembered(m: Memory, ss: Stores, ls: Ledgers, a: Account, c: ClientId, now: Instant)
    requires Related(m, ls, now) && Mirrors(StoreOf(ss, a), LedgerOf(ls, a), now)
    ensures var st, s := StateOf(m, a), StoreOf(ss, a);
            CheckState(st, c, now).1 == CheckStore(s, c, now).1
            <==> (c == "" || (c !in s.dedup && c !in s.messages) || Holds(Entry(st.dedup, c), now))
  {
    var st, s, l := StateOf(m, a), StoreOf(ss, a), LedgerOf(ls, a);
    CheckAgrees(st, l, c, now);
    SettleMirrors(s, l, now);
    assert Live(Entry(st.dedup, c), now) == Live(Entry(l.dedup, c), now);
  }

  lemma SweepMirrors(s: Store, l: Ledger, t: Instant, now: Instant)
    requires Mirrors(s, l, t)
    ensures Mirrors(Swept(s, now), l, Max(t, now))
  {
    MirrorsLater(s, l, t, Max(t, now));
  }

  lemma ActKeepsMirrors(ss: Stores, ls: Ledgers, t: Instant, x: Act)
    requires AllMirror(ss, ls, t) && ActOk(ss, ls, t, x)
    ensures AllMirror(StoresAct(ss, x), LedgersAct(ls, x), ClockAct(t, x))
    ensures x.Ask? ==> CheckStore(StoreOf(ss, x.account), x.clientId, x.now).1
                       == CheckLedger(LedgerOf(ls, x.account), x.clientId, x.now).1
  {
    var ss', ls', t' := StoresAct(ss, x), LedgersAct(ls, x), ClockAct(t, x);
    if x.Ask? {
      MirrorsLater(StoreOf(ss, x.account), LedgerOf(ls, x.account), t, x.now);
      CheckMirrors(StoreOf(ss, x.account), LedgerOf(ls, x.account), x.clientId, x.now);
    }
    forall a ensures Mirrors(StoreOf(ss', a), LedgerOf(ls', a), t') {
      var s, l := StoreOf(ss, a), LedgerOf(ls, a);
      assert Mirrors(s, l, t);
      MirrorsLater(s, l, t, t');
      if x.TidyTables? && a in ss { SweepMirrors(s, l, t, x.now); }
    }
  }

  lemma ActKeepsRelated(m: Memory, ss: Stores, ls: Ledgers, t: Instant, x: Act)
    requires Related(m, ls, t) && ActOk(ss, ls, t, x)
    ensures Related(MemoryAct(m, x), LedgersAct(ls, x), ClockAct(t, x))
    ensures x.Ask? ==> CheckState(StateOf(m, x.account), x.clientId, x.now).1
                       == CheckLedger(LedgerOf(ls, x.account), x.clientId, x.now).1
  {
    match x
    case Ask(a, c, now) => StepKeepsRelated(m, ls, t, Check(a, c, now));
    case TidyMemory(now) => StepKeepsRelated(m, ls, t, Cleanup(now));
    case TidyTables(now) => RelatedLater(m, ls, t, Max(t, now));
    case Persisted(_, _) =>
    case Drop(a, c) => StepKeepsRelated(m, ls, t, Forget(a, c));
  }

  lemma RelatedLater(m: Memory, ls: Ledgers, t: Instant, later: Instant)
    requires Related(m, ls, t) && t <= later
    ensures Related(m, ls, later)
  {
    forall a ensures Agree(StateOf(m, a), LedgerOf(ls, a), later) {
      AgreeLater(StateOf(m, a), LedgerOf(ls, a), t, later);
    }
  }

  lemma {:induction false} RepliesAgree(m: Memory, ss: Stores, ls: Ledgers, t: Instant, xs: seq<Act>)
    requires Related(m, ls, t) && AllMirror(ss, ls, t) && RunOk(ss, ls, t, xs)
    ensures MemoryReplies(m, xs) == StoreReplies(ss, xs)
    decreases |xs|
  {
    if xs != [] {
      ActKeepsRelated(m, ss, ls, t, xs[0]);
      ActKeepsMirrors(ss, ls, t, xs[0]);
      RepliesAgree(MemoryAct(m, xs[0]), StoresAct(ss, xs[0]), LedgersAct(ls, xs[0]), ClockAct(t, xs[0]), xs[1..]);
    }
  }

  /**
    The two limiters give the same allowed, duplicate, retry and blocked-until values on every
    sequential run from empty state, with cleanups of either one at any time and sends that are turned away,
    as long as the clock does not run backwards and client ids come again only while they are remembered.
   */
  lemma TheTwoLimitersAgree(t: Instant, xs: seq<Act>)
    requires RunOk(map[], map[], t, xs)
    ensures MemoryReplies(map[], xs) == StoreReplies(map[], xs)
  {
    RepliesAgree(map[], map[], map[], t, xs);
  }

  /** A client id used again after its lifetime, before any cleanup: new to one limiter, a duplicate to the other. */
  lemma LimitersDiffer()
    ensures var xs := [Ask("a", "c", 0), Ask("a", "c", DEDUP_TTL)];
            MemoryReplies(map[], xs) == [ADMIT, ADMIT] && StoreReplies(map[], xs) == [ADMIT, DUPLICATE]
  {
    var x, y := Ask("a", "c", 0), Ask("a", "c", DEDUP_TTL);
    assert [x, y][1..] == [y] && [y][1..] == [];
    assert Recent([], 0) + [0] == [0] && Recent([0], DEDUP_TTL) == [];
    var m, ss := MemoryAct(map[], x), StoresAct(map[], x);
    assert MemoryReplies(m, [y]) == [ADMIT] && StoreReplies(ss, [y]) == [DUPLICATE];
  }

  /** A client id found among the messages is remembered for a lifetime from now. */
  lemma KnownMessageIsRemembered(s: Store, c: ClientId, now: Instant)
    requires c != "" && c !in s.dedup && c in s.messages
    ensures CheckStore(s, c, now) == (s.(dedup := s.dedup[c := now + DEDUP_TTL]), DUPLICATE)
  {}

  /** The cleanup deletes expired client ids, and a row without timestamps whose penalty, if any, has run out. */
  lemma SweptExactly(ss: Stores, now: Instant, a: Account, c: ClientId)
    ensures var s, later := StoreOf(ss, a), StoreOf(StoresAct(ss, TidyTables(now)), a);
            && (c in later.dedup <==> c in s.dedup && s.dedup[c] >= now)
            && (c in later.dedup ==> later.dedup[c] == s.dedup[c])
            && later.messages == s.messages
            && (later.row == None <==>
                  s.row == None
                  || (s.row.value.timestamps == []
                      && (s.row.value.blockedUntil == None || s.row.value.blockedUntil.value < now)))
            && (later.row != None ==> later.row == s.row)
  {}

  function StoresRun(ss: Stores, xs: seq<Act>): Stores
    decreases |xs|
  {
    if xs == [] then ss else StoresRun(StoresAct(ss, xs[0]), xs[1..])
  }

  /** The tables know exactly the messages that have been persisted. */
  lemma {:induction false} MessagesAre(ss: Stores, xs: seq<Act>, a: Account, c: ClientId)
    ensures c in StoreOf(StoresRun(ss, xs), a).messages <==> c in StoreOf(ss, a).messages || Persisted(a, c) in xs
    decreases |xs|
  {
    if xs != [] {
      assert Persisted(a, c) in xs <==> Persisted(a, c) == xs[0] || Persisted(a, c) in xs[1..];
      MessagesAre(StoresAct(ss, xs[0]), xs[1..], a, c);
    }
  }

  // ---- the object ----

  /** One account's view of the database-backed limiter, while no other check of the account is under way. */
  class SurrealRateLimiter {
    var tables: Store

    constructor ()
      ensures tables == NEW_STORE
    {
      tables := NEW_STORE;
    }

    static method Filtered(timestamps: seq<Instant>, now: Instant) returns (filtered: seq<Instant>)
      ensures filtered == Recent(timestamps, now)
    {
      filtered := [];
      var i := 0;
      while i < |timestamps|
        invariant 0 <= i <= |timestamps| && filtered == Recent(timestamps[..i], now)
      {
        assert timestamps[..i + 1] == timestamps[..i] + [timestamps[i]];
        RecentAppend(timestamps[..i], [timestamps[i]], now);
        if timestamps[i] > now - WINDOW {
          filtered := filtered + [timestamps[i]];
        }
        i := i + 1;
      }
      assert timestamps[..i] == timestamps;
    }

    // Creates the row when none was read, or replaces the row of the version that was read.
    method Swap(snap: Option<S.Row>, next: S.Row) returns (done: bool)
      modifies this
      ensures done <==> S.SwapSucceeds(S.World(old(tables).row, map[], []), snap)
      ensures tables == if done then old(tables).(row := Some(next)) else old(tables)
    {
      if snap.None? {
        done := tables.row.None?;
      } else {
        done := tables.row.Some? && tables.row.value.version == snap.value.version;
      }
      if done {
        tables := tables.(row := Some(next));
      }
    }

    /** A check with no rival: its first swap succeeds, so the retries are never used up. */
    method CheckMessage(c: ClientId, now: Instant) returns (answer: Answer)
      modifies this
      ensures (tables, answer) == CheckStore(old(tables), c, now)
    {
      if c != "" {
        if c in tables.dedup {
          return DUPLICATE;
        }
        if c in tables.messages {
          tables := tables.(dedup := tables.dedup[c := now + DEDUP_TTL]);
          return DUPLICATE;
        }
      }
      answer := ADMIT;
      var attempt, written := 0, false;
      while attempt < S.MAX_RETRIES && !written
        invariant attempt <= S.MAX_RETRIES && (!written ==> attempt == 0 && tables == old(tables))
        invariant written ==> (tables.row, answer) == Settle(old(tables).row, now)
        invariant written ==> tables == old(tables).(row := tables.row)
        invariant written ==> !Holds(S.BlockOf(old(tables).row), now)
      {
        var snap := tables.row;
        if snap.Some? && snap.value.blockedUntil.Some? && snap.value.blockedUntil.value > now {
          return Blocked(now, snap.value.blockedUntil.value);
        }
        var filtered := Filtered(S.Timestamps(snap), now);
        if snap.Some? && snap.value.blockedUntil.Some? && |filtered| == 0 {
          tables := tables.(row := None);
          snap, filtered := None, [];
        }
        var version := if snap.Some? then snap.value.version + 1 else 1;
        if |filtered| >= LIMIT {
          answer := Penalized(now);
          written := Swap(snap, S.Row(filtered, Some(now + PENALTY), version));
        } else {
          answer := ADMIT;
          written := Swap(snap, S.Row(filtered + [now], None, version));
        }
        attempt := attempt + 1;
      }
      if answer == ADMIT && c != "" {
        tables := tables.(dedup := tables.dedup[c := now + DEDUP_TTL]);
      }
    }
  }
}
