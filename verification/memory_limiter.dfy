/**
  The in-memory message rate limiter: a sliding window of admissions with a penalty, remembered
  client ids, and a cleanup that forgets what has expired. It is compared with a ledger that
  never forgets anything.
 */
module MemoryLimiter {
  import opened Common

  const LIMIT: nat := 50
  const WINDOW: int := 60 * SECOND
  const PENALTY: int := 5 * MINUTE
  const DEDUP_TTL: int := 24 * HOUR

  datatype RateState = RateState(
    timestamps: seq<Instant>,
    blockedUntil: Option<Instant>,
    dedup: map<ClientId, Instant>,
    lastSeen: Instant)

  datatype Answer = Answer(allowed: bool, duplicate: bool, retryAfter: int, blockedUntil: Option<Instant>)

  const ADMIT: Answer := Answer(true, false, 0, None)
  const DUPLICATE: Answer := Answer(true, true, 0, None)
  const NEW_STATE: RateState := RateState([], None, map[], 0)

  function Blocked(now: Instant, until: Instant): Answer {
    Answer(false, false, RetrySeconds(until - now), Some(until))
  }

  function Penalized(now: Instant): Answer {
    Answer(false, false, PENALTY / SECOND, Some(now + PENALTY))
  }

  /** The timestamps still inside the window that ends now. */
  function Recent(ts: seq<Instant>, now: Instant): seq<Instant> {
    if ts == [] then []
    else (if ts[0] > now - WINDOW then [ts[0]] else []) + Recent(ts[1..], now)
  }

  predicate Holds(until: Option<Instant>, now: Instant) {
    until.Some? && until.value > now
  }

  function Entry(dedup: map<ClientId, Instant>, c: ClientId): Option<Instant> {
    if c in dedup then Some(dedup[c]) else None
  }

  function Remember(dedup: map<ClientId, Instant>, c: ClientId, now: Instant): map<ClientId, Instant> {
    if c == "" then dedup else dedup[c := now + DEDUP_TTL]
  }

  function CheckState(st: RateState, c: ClientId, now: Instant): (RateState, Answer) {
    var seen := st.(lastSeen := now);
    if c != "" && Holds(Entry(st.dedup, c), now) then (seen, DUPLICATE)
    else if Holds(st.blockedUntil, now) then (seen, Blocked(now, st.blockedUntil.value))
    else
      var kept := Recent(st.timestamps, now);
      if |kept| >= LIMIT then (seen.(timestamps := kept, blockedUntil := Some(now + PENALTY)), Penalized(now))
      else (seen.(timestamps := kept + [now], dedup := Remember(st.dedup, c, now)), ADMIT)
  }

  /**
    A message is let through if and only if its client id is remembered, in which case it is called a duplicate, or
    no penalty runs and fewer than LIMIT admissions are in the window. What is let through is told no wait and no
    block; a refusal names the block now in force and the whole seconds until it ends, at least one. A new message
    is remembered for a lifetime, and the window is cut back to what still counts.
   */
  lemma AllowedIff(st: RateState, c: ClientId, now: Instant)
    ensures var (later, answer) := CheckState(st, c, now);
            var known := c != "" && c in st.dedup && st.dedup[c] > now;
            var penalized := st.blockedUntil.Some? && st.blockedUntil.value > now;
            && (answer.allowed <==> known || (!penalized && |Recent(st.timestamps, now)| < LIMIT))
            && (answer.duplicate <==> known)
            && (answer.allowed ==> answer.retryAfter == 0 && answer.blockedUntil == None)
            && (!answer.allowed ==>
                  && later.blockedUntil.Some? && later.blockedUntil.value > now
                  && answer.blockedUntil == later.blockedUntil
                  && later.blockedUntil == (if penalized then st.blockedUntil else Some(now + PENALTY))
                  && answer.retryAfter == RetrySeconds(later.blockedUntil.value - now))
            && later.lastSeen == now
            && (!known && !penalized ==>
                  later.timestamps == Recent(st.timestamps, now) + if answer.allowed then [now] else [])
            && later.dedup == if answer.allowed && !known && c != "" then st.dedup[c := now + DEDUP_TTL] else st.dedup
  {}

  /** The fifty-first message within a minute is refused for five minutes. */
  lemma FiftyFirstRefused(st: RateState, c: ClientId, now: Instant)
    requires |st.timestamps| == 50 && forall i :: 0 <= i < 50 ==> st.timestamps[i] > now - 60_000_000_000
    requires st.blockedUntil == None && c !in st.dedup
    ensures CheckState(st, c, now).1 == Answer(false, false, 300, Some(now + 300_000_000_000))
  {
    AllRecent(st.timestamps, now);
  }

  lemma {:induction false} AllRecent(ts: seq<Instant>, now: Instant)
    requires forall i :: 0 <= i < |ts| ==> ts[i] > now - WINDOW
    ensures Recent(ts, now) == ts
  {
    if ts != [] { AllRecent(ts[1..], now); }
  }

  type Memory = map<Account, RateState>

  function StateOf(m: Memory, a: Account): RateState {
    if a in m then m[a] else NEW_STATE
  }

  function Forgotten(m: Memory, a: Account, c: ClientId): Memory {
    if c != "" && a in m then m[a := m[a].(dedup := m[a].dedup - {c})] else m
  }

  function Unexpired(dedup: map<ClientId, Instant>, now: Instant): map<ClientId, Instant> {
    map c | c in dedup && dedup[c] > now :: dedup[c]
  }

  predicate Idle(st: RateState, now: Instant) {
    now - st.lastSeen > DEDUP_TTL && Unexpired(st.dedup, now) == map[]
  }

  function Cleaned(m: Memory, now: Instant): Memory {
    map a | a in m && !Idle(m[a], now) :: m[a].(dedup := Unexpired(m[a].dedup, now))
  }

  // ---- the ledger that keeps every admission and every remembered client id ----

  datatype Ledger = Ledger(admitted: seq<Instant>, blockedUntil: Option<Instant>, dedup: map<ClientId, Instant>)

  const NEW_LEDGER: Ledger := Ledger([], None, map[])

  function CheckLedger(l: Ledger, c: ClientId, now: Instant): (Ledger, Answer) {
    if c != "" && Holds(Entry(l.dedup, c), now) then (l, DUPLICATE)
    else if Holds(l.blockedUntil, now) then (l, Blocked(now, l.blockedUntil.value))
    else if |Recent(l.admitted, now)| >= LIMIT then (l.(blockedUntil := Some(now + PENALTY)), Penalized(now))
    else (Ledger(l.admitted + [now], l.blockedUntil, Remember(l.dedup, c, now)), ADMIT)
  }

  type Ledgers = map<Account, Ledger>

  function LedgerOf(ls: Ledgers, a: Account): Ledger {
    if a in ls then ls[a] else NEW_LEDGER
  }

  // ---- runs ----

  datatype Event =
    | Check(account: Account, clientId: ClientId, now: Instant)
    | Forget(account: Account, clientId: ClientId)
    | Cleanup(now: Instant)

  function MemoryNext(m: Memory, e: Event): Memory {
    match e
    case Check(a, c, now) => m[a := CheckState(StateOf(m, a), c, now).0]
    case Forget(a, c) => Forgotten(m, a, c)
    case Cleanup(now) => Cleaned(m, now)
  }

  function LedgersNext(ls: Ledgers, e: Event): Ledgers {
    match e
    case Check(a, c, now) => ls[a := CheckLedger(LedgerOf(ls, a), c, now).0]
    case Forget(a, c) => if c != "" then ls[a := LedgerOf(ls, a).(dedup := LedgerOf(ls, a).dedup - {c})] else ls
    case Cleanup(_) => ls
  }

  /** The latest instant any step has named; a check may not be earlier. */
  function Clock(t: Instant, e: Event): Instant {
    match e
    case Check(_, _, now) => now
    case Forget(_, _) => t
    case Cleanup(now) => Max(t, now)
  }

  ghost predicate ClockOk(t: Instant, es: seq<Event>)
    decreases |es|
  {
    es == [] || ((es[0].Check? ==> es[0].now >= t) && ClockOk(Clock(t, es[0]), es[1..]))
  }

  function MemoryAnswers(m: Memory, es: seq<Event>): seq<Answer>
    decreases |es|
  {
    if es == [] then []
    else (if es[0].Check? then [CheckState(StateOf(m, es[0].account), es[0].clientId, es[0].now).1] else [])
         + MemoryAnswers(MemoryNext(m, es[0]), es[1..])
  }

  function LedgerAnswers(ls: Ledgers, es: seq<Event>): seq<Answer>
    decreases |es|
  {
    if es == [] then []
    else (if es[0].Check? then [CheckLedger(LedgerOf(ls, es[0].account), es[0].clientId, es[0].now).1] else [])
         + LedgerAnswers(LedgersNext(ls, es[0]), es[1..])
  }

  // ---- the two agree on everything that can still matter ----

  function Live(until: Option<Instant>, t: Instant): Option<Instant> {
    if Holds(until, t) then until else None
  }

  ghost predicate Agree(st: RateState, l: Ledger, t: Instant) {
    && Recent(st.timestamps, t) == Recent(l.admitted, t)
    && Live(st.blockedUntil, t) == Live(l.blockedUntil, t)
    && forall c :: Live(Entry(st.dedup, c), t) == Live(Entry(l.dedup, c), t)
  }

  // Nothing a state holds, apart from remembered client ids, outlives its last use by more than the penalty.
  ghost predicate Dated(st: RateState, t: Instant) {
    && st.lastSeen <= t
    && (forall i :: 0 <= i < |st.timestamps| ==> st.timestamps[i] <= st.lastSeen)
    && (st.blockedUntil.Some? ==> st.blockedUntil.value <= st.lastSeen + PENALTY)
  }

  ghost predicate Related(m: Memory, ls: Ledgers, t: Instant) {
    && (forall a :: Agree(StateOf(m, a), LedgerOf(ls, a), t))
    && (forall a :: a in m ==> Dated(m[a], t))
  }

  lemma {:induction false} RecentTwice(ts: seq<Instant>, t: Instant, now: Instant)
    requires t <= now
    ensures Recent(Recent(ts, t), now) == Recent(ts, now)
  {
    if ts != [] {
      RecentTwice(ts[1..], t, now);
      var rest := Recent(ts[1..], t);
      assert ([ts[0]] + rest)[1..] == rest && [] + rest == rest;
    }
  }

  lemma {:induction false} RecentAppend(ts: seq<Instant>, us: seq<Instant>, now: Instant)
    ensures Recent(ts + us, now) == Recent(ts, now) + Recent(us, now)
  {
    if ts == [] {
      assert ts + us == us;
    } else {
      assert (ts + us)[1..] == ts[1..] + us;
      RecentAppend(ts[1..], us, now);
    }
  }

  lemma {:induction false} RecentNone(ts: seq<Instant>, now: Instant)
    requires forall i :: 0 <= i < |ts| ==> ts[i] <= now - WINDOW
    ensures Recent(ts, now) == []
  {
    if ts != [] { RecentNone(ts[1..], now); }
  }

  lemma {:induction false} RecentFrom(ts: seq<Instant>, now: Instant, i: nat)
    requires i < |Recent(ts, now)|
    ensures Recent(ts, now)[i] in ts && Recent(ts, now)[i] > now - WINDOW
  {
    if ts[0] > now - WINDOW {
      if i > 0 { RecentFrom(ts[1..], now, i - 1); }
    } else {
      RecentFrom(ts[1..], now, i);
    }
  }

  lemma AgreeLater(st: RateState, l: Ledger, t: Instant, now: Instant)
    requires Agree(st, l, t) && t <= now
    ensures Agree(st, l, now)
  {
    RecentTwice(st.timestamps, t, now);
    RecentTwice(l.admitted, t, now);
    forall c ensures Live(Entry(st.dedup, c), now) == Live(Entry(l.dedup, c), now) {
      assert Live(Entry(st.dedup, c), t) == Live(Entry(l.dedup, c), t);
    }
  }

  lemma CheckAgrees(st: RateState, l: Ledger, c: ClientId, now: Instant)
    requires Agree(st, l, now)
    ensures CheckState(st, c, now).1 == CheckLedger(l, c, now).1
    ensures Agree(CheckState(st, c, now).0, CheckLedger(l, c, now).0, now)
  {
    assert Live(Entry(st.dedup, c), now) == Live(Entry(l.dedup, c), now);
    RecentTwice(st.timestamps, now, now);
    RecentAppend(Recent(st.timestamps, now), [now], now);
    RecentAppend(l.admitted, [now], now);
    var st', l' := CheckState(st, c, now).0, CheckLedger(l, c, now).0;
    forall d ensures Live(Entry(st'.dedup, d), now) == Live(Entry(l'.dedup, d), now) {
      assert Live(Entry(st.dedup, d), now) == Live(Entry(l.dedup, d), now);
    }
  }

  lemma CheckDated(st: RateState, c: ClientId, now: Instant)
    requires Dated(st, now)
    ensures Dated(CheckState(st, c, now).0, now)
  {
    var kept := Recent(st.timestamps, now);
    forall i | 0 <= i < |kept| ensures kept[i] <= now { RecentFrom(st.timestamps, now, i); }
  }

  lemma CleanupAgrees(st: RateState, l: Ledger, t: Instant, now: Instant)
    requires Agree(st, l, t) && Dated(st, t)
    ensures var later := Max(t, now);
            && Agree(st.(dedup := Unexpired(st.dedup, now)), l, later)
            && (Idle(st, now) ==> Agree(NEW_STATE, l, later))
  {
    var later := Max(t, now);
    AgreeLater(st, l, t, later);
    var cleaned := Unexpired(st.dedup, now);
    forall c ensures Live(Entry(cleaned, c), later) == Live(Entry(l.dedup, c), later) {
      assert Live(Entry(st.dedup, c), later) == Live(Entry(l.dedup, c), later);
    }
    if Idle(st, now) {
      RecentNone(st.timestamps, later);
      forall c ensures Live(Entry(map[], c), later) == Live(Entry(l.dedup, c), later) {
        assert Live(Entry(cleaned, c), later) == None;
      }
    }
  }

  lemma CheckRelated(m: Memory, ls: Ledgers, t: Instant, a: Account, c: ClientId, now: Instant)
    requires Related(m, ls, t) && now >= t
    ensures Related(MemoryNext(m, Check(a, c, now)), LedgersNext(ls, Check(a, c, now)), now)
    ensures CheckState(StateOf(m, a), c, now).1 == CheckLedger(LedgerOf(ls, a), c, now).1
  {
    forall b ensures Agree(StateOf(m, b), LedgerOf(ls, b), now) {
      AgreeLater(StateOf(m, b), LedgerOf(ls, b), t, now);
    }
    CheckAgrees(StateOf(m, a), LedgerOf(ls, a), c, now);
    var m', ls' := MemoryNext(m, Check(a, c, now)), LedgersNext(ls, Check(a, c, now));
    forall b ensures Agree(StateOf(m', b), LedgerOf(ls', b), now) {
      if b != a { assert Agree(StateOf(m, b), LedgerOf(ls, b), now); }
    }
    if a in m {
      CheckDated(m[a], c, now);
    } else {
    }
  }

  lemma ForgetRelated(m: Memory, ls: Ledgers, t: Instant, a: Account, c: ClientId)
    requires Related(m, ls, t)
    ensures Related(MemoryNext(m, Forget(a, c)), LedgersNext(ls, Forget(a, c)), t)
  {
    ForgetAgrees(StateOf(m, a), LedgerOf(ls, a), c, t);
    assert NEW_STATE.dedup - {c} == NEW_STATE.dedup;
    var m', ls' := MemoryNext(m, Forget(a, c)), LedgersNext(ls, Forget(a, c));
    forall b ensures Agree(StateOf(m', b), LedgerOf(ls', b), t) {
      assert Agree(StateOf(m, b), LedgerOf(ls, b), t);
    }
    forall b | b in m' ensures Dated(m'[b], t) {
      assert Dated(m[b], t);
    }
  }

  lemma CleanupRelated(m: Memory, ls: Ledgers, t: Instant, now: Instant)
    requires Related(m, ls, t)
    ensures Related(Cleaned(m, now), ls, Max(t, now))
  {
    var m' := Cleaned(m, now);
    forall b ensures Agree(StateOf(m', b), LedgerOf(ls, b), Max(t, now)) {
      assert Agree(StateOf(m, b), LedgerOf(ls, b), t);
      if b in m {
        CleanupAgrees(m[b], LedgerOf(ls, b), t, now);
      } else {
        AgreeLater(NEW_STATE, LedgerOf(ls, b), t, Max(t, now));
      }
    }
  }

  /** A cleanup forgets expired client ids, and an account unseen for a day that has no others; nothing else. */
  lemma CleanedExactly(m: Memory, now: Instant, a: Account, c: ClientId)
    ensures var later := Cleaned(m, now);
            && (a in later <==>
                  a in m && (now - m[a].lastSeen <= DEDUP_TTL || exists d :: d in m[a].dedup && m[a].dedup[d] > now))
            && (a in later ==>
                  && later[a] == m[a].(dedup := later[a].dedup)
                  && (c in later[a].dedup <==> c in m[a].dedup && m[a].dedup[c] > now)
                  && (c in later[a].dedup ==> later[a].dedup[c] == m[a].dedup[c]))
  {
    if a in m {
      if d :| d in m[a].dedup && m[a].dedup[d] > now { assert d in Unexpired(m[a].dedup, now); }
      if Unexpired(m[a].dedup, now) != map[] {
        var d :| d in Unexpired(m[a].dedup, now);
      }
    }
  }

  lemma StepKeepsRelated(m: Memory, ls: Ledgers, t: Instant, e: Event)
    requires Related(m, ls, t) && (e.Check? ==> e.now >= t)
    ensures Related(MemoryNext(m, e), LedgersNext(ls, e), Clock(t, e))
    ensures e.Check? ==> CheckState(StateOf(m, e.account), e.clientId, e.now).1
                         == CheckLedger(LedgerOf(ls, e.account), e.clientId, e.now).1
  {
    match e
    case Check(a, c, now) => CheckRelated(m, ls, t, a, c, now);
    case Forget(a, c) => ForgetRelated(m, ls, t, a, c);
    case Cleanup(now) => CleanupRelated(m, ls, t, now);
  }

  lemma ForgetAgrees(st: RateState, l: Ledger, c: ClientId, t: Instant)
    requires Agree(st, l, t)
    ensures Agree(st.(dedup := st.dedup - {c}), l.(dedup := l.dedup - {c}), t)
  {
    forall d ensures Live(Entry(st.dedup - {c}, d), t) == Live(Entry(l.dedup - {c}, d), t) {
      assert Live(Entry(st.dedup, d), t) == Live(Entry(l.dedup, d), t);
    }
  }

  /**
    The compacting, cleaned-up limiter answers every check exactly as the ledger that keeps everything,
    in every run of checks, forgets and cleanups whose clock does not run backwards.
   */
  lemma {:induction false} ForgettingIsUnobservable(m: Memory, ls: Ledgers, t: Instant, es: seq<Event>)
    requires Related(m, ls, t) && ClockOk(t, es)
    ensures MemoryAnswers(m, es) == LedgerAnswers(ls, es)
    decreases |es|
  {
    if es != [] {
      StepKeepsRelated(m, ls, t, es[0]);
      ForgettingIsUnobservable(MemoryNext(m, es[0]), LedgersNext(ls, es[0]), Clock(t, es[0]), es[1..]);
    }
  }

  // ---- the sliding-window bound ----

  /** The times of the account's admissions that were not repeats, read off the answers of a run. */
  function Admissions(m: Memory, es: seq<Event>, a: Account): seq<Instant>
    decreases |es|
  {
    if es == [] then [] else Added(m, es[0], a) + Admissions(MemoryNext(m, es[0]), es[1..], a)
  }

  // In order, and any LIMIT + 1 consecutive admissions span at least a window.
  ghost predicate Spaced(ts: seq<Instant>) {
    && (forall i, j :: 0 <= i < j < |ts| ==> ts[i] <= ts[j])
    && (forall i, j :: 0 <= i < j < |ts| && j - i == LIMIT ==> ts[j] - ts[i] >= WINDOW)
  }

  function CountIn(ts: seq<Instant>, from: Instant): nat {
    if ts == [] then 0
    else (if from <= ts[0] < from + WINDOW then 1 else 0) + CountIn(ts[1..], from)
  }

  lemma {:induction false} RecentSuffix(ts: seq<Instant>, now: Instant, i: nat)
    requires i <= |ts| && forall k, n :: 0 <= k < n < |ts| ==> ts[k] <= ts[n]
    requires i < |ts| ==> ts[i] > now - WINDOW
    ensures |Recent(ts, now)| >= |ts| - i
    decreases |ts|
  {
    if i > 0 {
      RecentSuffix(ts[1..], now, i - 1);
    } else if ts != [] {
      RecentSuffix(ts[1..], now, 0);
    }
  }

  lemma AdmissionKeepsSpacing(ts: seq<Instant>, now: Instant)
    requires Spaced(ts) && (forall i :: 0 <= i < |ts| ==> ts[i] <= now) && |Recent(ts, now)| < LIMIT
    ensures Spaced(ts + [now])
  {
    var n := |ts|;
    if n >= LIMIT && ts[n - LIMIT] > now - WINDOW {
      RecentSuffix(ts, now, n - LIMIT);
    }
  }

  ghost predicate LedgerSpaced(l: Ledger, t: Instant) {
    Spaced(l.admitted) && forall i :: 0 <= i < |l.admitted| ==> l.admitted[i] <= t
  }

  lemma CheckKeepsSpacing(l: Ledger, c: ClientId, now: Instant)
    requires LedgerSpaced(l, now)
    ensures LedgerSpaced(CheckLedger(l, c, now).0, now)
    ensures CheckLedger(l, c, now).0.admitted
            == l.admitted + (if LetsThrough(CheckLedger(l, c, now).1) then [now] else [])
  {
    if |Recent(l.admitted, now)| < LIMIT {
      AdmissionKeepsSpacing(l.admitted, now);
    }
  }

  lemma SameAnswer(m: Memory, ls: Ledgers, t: Instant, a: Account, c: ClientId, now: Instant)
    requires Related(m, ls, t) && now >= t
    ensures CheckState(StateOf(m, a), c, now).1 == CheckLedger(LedgerOf(ls, a), c, now).1
  {
    AgreeLater(StateOf(m, a), LedgerOf(ls, a), t, now);
    CheckAgrees(StateOf(m, a), LedgerOf(ls, a), c, now);
  }

  /** Let through as a new message. */
  predicate LetsThrough(answer: Answer) {
    answer.allowed && !answer.duplicate
  }

  /** What one step adds to the admissions of an account. */
  function Added(m: Memory, e: Event, a: Account): seq<Instant> {
    if e.Check? && e.account == a && LetsThrough(CheckState(StateOf(m, a), e.clientId, e.now).1) then [e.now] else []
  }

  lemma StepAdmits(m: Memory, ls: Ledgers, t: Instant, e: Event, a: Account)
    requires Related(m, ls, t) && (e.Check? ==> e.now >= t) && LedgerSpaced(LedgerOf(ls, a), t)
    ensures LedgerSpaced(LedgerOf(LedgersNext(ls, e), a), Clock(t, e))
    ensures LedgerOf(LedgersNext(ls, e), a).admitted == LedgerOf(ls, a).admitted + Added(m, e, a)
  {
    hide Related, CheckState, CheckLedger, Spaced;
    match e
    case Check(b, c, now) =>
      if b == a {
        SameAnswer(m, ls, t, a, c, now);
        CheckKeepsSpacing(LedgerOf(ls, a), c, now);
      }
    case Forget(_, _) =>
    case Cleanup(_) =>
  }

  function LedgersRun(ls: Ledgers, es: seq<Event>): Ledgers
    decreases |es|
  {
    if es == [] then ls else LedgersRun(LedgersNext(ls, es[0]), es[1..])
  }

  lemma Assoc(a: seq<Instant>, b: seq<Instant>, c: seq<Instant>)
    ensures a + (b + c) == a + b + c
  {}

  /** The ledger's admissions are exactly the ones read off the memory limiter's answers, and well spaced. */
  lemma {:induction false} LedgerAdmissions(m: Memory, ls: Ledgers, t: Instant, es: seq<Event>, a: Account)
    requires Related(m, ls, t) && ClockOk(t, es) && LedgerSpaced(LedgerOf(ls, a), t)
    ensures LedgerOf(LedgersRun(ls, es), a).admitted == LedgerOf(ls, a).admitted + Admissions(m, es, a)
    ensures Spaced(LedgerOf(LedgersRun(ls, es), a).admitted)
    decreases |es|
  {
    if es != [] {
      StepKeepsRelated(m, ls, t, es[0]);
      StepAdmits(m, ls, t, es[0], a);
      Assoc(LedgerOf(ls, a).admitted, Added(m, es[0], a), Admissions(MemoryNext(m, es[0]), es[1..], a));
      LedgerAdmissions(MemoryNext(m, es[0]), LedgersNext(ls, es[0]), Clock(t, es[0]), es[1..], a);
    }
  }

  lemma {:induction false} CountLate(ts: seq<Instant>, from: Instant)
    requires forall i :: 0 <= i < |ts| ==> ts[i] >= from + WINDOW
    ensures CountIn(ts, from) == 0
  {
    if ts != [] { CountLate(ts[1..], from); }
  }

  lemma {:induction false} CountShort(ts: seq<Instant>, from: Instant, n: nat)
    requires n <= |ts| && forall i :: n <= i < |ts| ==> ts[i] >= from + WINDOW
    ensures CountIn(ts, from) <= n
    decreases n
  {
    if n == 0 {
      CountLate(ts, from);
    } else {
      CountShort(ts[1..], from, n - 1);
    }
  }

  lemma {:induction false} SpacedCount(ts: seq<Instant>, from: Instant)
    requires Spaced(ts)
    ensures CountIn(ts, from) <= LIMIT
  {
    if ts != [] {
      if ts[0] < from {
        SpacedCount(ts[1..], from);
      } else {
        forall i | LIMIT <= i < |ts| ensures ts[i] >= from + WINDOW { assert ts[i] - ts[i - LIMIT] >= WINDOW; }
        CountShort(ts, from, if |ts| < LIMIT then |ts| else LIMIT);
      }
    }
  }

  /**
    In every run with a clock that does not run backwards, across compaction, penalties, forgets and
    cleanups, every half-open minute holds at most LIMIT of an account's admissions.
   */
  lemma WindowBound(t: Instant, es: seq<Event>, a: Account, from: Instant)
    requires ClockOk(t, es)
    ensures CountIn(Admissions(map[], es, a), from) <= LIMIT
  {
    LedgerAdmissions(map[], map[], t, es, a);
    assert NEW_LEDGER.admitted + Admissions(map[], es, a) == Admissions(map[], es, a);
    SpacedCount(Admissions(map[], es, a), from);
  }

  lemma {:induction false} RecentCounts(ts: seq<Instant>, now: Instant)
    requires forall i :: 0 <= i < |ts| ==> ts[i] <= now
    ensures |Recent(ts, now)| == CountIn(ts, now - WINDOW + 1)
  {
    if ts != [] { RecentCounts(ts[1..], now); }
  }

  lemma {:induction false} RunKeepsRelated(m: Memory, ls: Ledgers, t: Instant, es: seq<Event>)
    requires Related(m, ls, t) && ClockOk(t, es)
    ensures Related(MemoryRun(m, es), LedgersRun(ls, es), ClockRun(t, es))
    decreases |es|
  {
    hide Related;
    if es != [] {
      StepKeepsRelated(m, ls, t, es[0]);
      RunKeepsRelated(MemoryNext(m, es[0]), LedgersNext(ls, es[0]), Clock(t, es[0]), es[1..]);
    }
  }

  function MemoryRun(m: Memory, es: seq<Event>): Memory
    decreases |es|
  {
    if es == [] then m else MemoryRun(MemoryNext(m, es[0]), es[1..])
  }

  function ClockRun(t: Instant, es: seq<Event>): Instant
    decreases |es|
  {
    if es == [] then t else ClockRun(Clock(t, es[0]), es[1..])
  }

  lemma {:induction false} AdmittedBefore(m: Memory, t: Instant, es: seq<Event>, a: Account)
    requires ClockOk(t, es)
    ensures t <= ClockRun(t, es)
    ensures forall i :: 0 <= i < |Admissions(m, es, a)| ==> Admissions(m, es, a)[i] <= ClockRun(t, es)
    decreases |es|
  {
    if es != [] { AdmittedBefore(MemoryNext(m, es[0]), Clock(t, es[0]), es[1..], a); }
  }

  /**
    After every run with a clock that does not run backwards, a check is let through if and only if its client id
    has been admitted and neither expired nor been forgotten, or no penalty ever given still runs and fewer than
    LIMIT messages of the account were admitted in the window that ends now.
   */
  lemma AdmitsExactly(t: Instant, es: seq<Event>, a: Account, c: ClientId, now: Instant)
    requires ClockOk(t, es) && now >= ClockRun(t, es)
    ensures var answer := CheckState(StateOf(MemoryRun(map[], es), a), c, now).1;
            var l := LedgerOf(LedgersRun(map[], es), a);
            var known := c != "" && c in l.dedup && l.dedup[c] > now;
            var penalized := l.blockedUntil.Some? && l.blockedUntil.value > now;
            && (answer.allowed <==>
                  known || (!penalized && CountIn(Admissions(map[], es, a), now - WINDOW + 1) < LIMIT))
            && (answer.duplicate <==> known)
            && (!answer.allowed ==> answer.blockedUntil == if penalized then l.blockedUntil else Some(now + PENALTY))
  {
    hide Related, Recent, CountIn, Spaced;
    var m, ls, ads := MemoryRun(map[], es), LedgersRun(map[], es), Admissions(map[], es, a);
    NothingRelated(t);
    RunKeepsRelated(map[], map[], t, es);
    SameAnswer(m, ls, ClockRun(t, es), a, c, now);
    NothingSpaced(t);
    LedgerAdmissions(map[], map[], t, es, a);
    assert NEW_LEDGER.admitted + ads == ads;
    AdmittedBefore(map[], t, es, a);
    RecentCounts(ads, now);
  }

  lemma NothingRelated(t: Instant)
    ensures Related(map[], map[], t)
  {}

  lemma NothingSpaced(t: Instant)
    ensures LedgerSpaced(NEW_LEDGER, t)
  {}

  // ---- the object ----

  /** Moves the recent timestamps to the front of their own buffer and returns how many there are. */
  method CompactInPlace(buffer: array<Instant>, now: Instant) returns (kept: nat)
    modifies buffer
    ensures kept <= buffer.Length && buffer[..kept] == Recent(old(buffer[..]), now)
  {
    kept := 0;
    var i := 0;
    while i < buffer.Length
      invariant 0 <= kept <= i <= buffer.Length
      invariant buffer[..kept] == Recent(old(buffer[..])[..i], now)
      invariant forall k :: i <= k < buffer.Length ==> buffer[k] == old(buffer[..])[k]
    {
      ghost var was := old(buffer[..]);
      assert was[..i + 1] == was[..i] + [was[i]];
      RecentAppend(was[..i], [was[i]], now);
      ghost var front := buffer[..kept];
      if buffer[i] > now - WINDOW {
        buffer[kept] := buffer[i];
        kept := kept + 1;
        assert buffer[..kept] == front + [was[i]];
      }
      i := i + 1;
    }
    assert old(buffer[..])[..i] == old(buffer[..]);
  }

  class MemoryMessageRateLimiter {
    var accounts: Memory

    constructor ()
      ensures accounts == map[]
    {
      accounts := map[];
    }

    method CheckMessage(a: Account, c: ClientId, now: Instant) returns (answer: Answer)
      modifies this
      ensures accounts == MemoryNext(old(accounts), Check(a, c, now))
      ensures answer == CheckState(StateOf(old(accounts), a), c, now).1
    {
      if a !in accounts {
        accounts := accounts[a := NEW_STATE];
      }
      var state := accounts[a];
      state, answer := Decide(state, c, now);
      accounts := accounts[a := state];
    }

    static method Decide(before: RateState, c: ClientId, now: Instant) returns (state: RateState, answer: Answer)
      ensures (state, answer) == CheckState(before, c, now)
    {
      state := before.(lastSeen := now);
      if c != "" && c in state.dedup && state.dedup[c] > now {
        return state, DUPLICATE;
      }
      if state.blockedUntil.Some? && state.blockedUntil.value > now {
        return state, Blocked(now, state.blockedUntil.value);
      }
      var kept := Compacted(state.timestamps, now);
      state := state.(timestamps := kept);
      if |kept| >= LIMIT {
        state := state.(blockedUntil := Some(now + PENALTY));
        return state, Penalized(now);
      }
      state := state.(timestamps := kept + [now]);
      if c != "" {
        state := state.(dedup := state.dedup[c := now + DEDUP_TTL]);
      }
      answer := ADMIT;
    }

    static method Compacted(timestamps: seq<Instant>, now: Instant) returns (kept: seq<Instant>)
      ensures kept == Recent(timestamps, now)
    {
      var buffer := new Instant[|timestamps|](i requires 0 <= i < |timestamps| => timestamps[i]);
      assert buffer[..] == timestamps;
      var n := CompactInPlace(buffer, now);
      kept := buffer[..n];
    }

    method ForgetClient(a: Account, c: ClientId)
      modifies this
      ensures accounts == MemoryNext(old(accounts), Forget(a, c))
    {
      if c == "" {
        return;
      }
      if a in accounts {
        accounts := accounts[a := accounts[a].(dedup := accounts[a].dedup - {c})];
      }
    }

    /** One tick of the cleanup loop. */
    method CleanUp(now: Instant)
      modifies this
      ensures accounts == MemoryNext(old(accounts), Cleanup(now))
    {
      var todo := accounts.Keys;
      while todo != {}
        invariant todo <= accounts.Keys
        invariant forall a :: a in todo ==> a in old(accounts) && accounts[a] == old(accounts)[a]
        invariant forall a :: a in accounts && a !in todo ==>
                    a in Cleaned(old(accounts), now) && accounts[a] == Cleaned(old(accounts), now)[a]
        invariant forall a :: a in Cleaned(old(accounts), now) ==> a in accounts
      {
        var a :| a in todo;
        var live := DropExpired(accounts[a].dedup, now);
        accounts := accounts[a := accounts[a].(dedup := live)];
        if now - accounts[a].lastSeen > DEDUP_TTL && |live| == 0 {
          accounts := accounts - {a};
        }
        todo := todo - {a};
      }
    }

    static method DropExpired(dedup: map<ClientId, Instant>, now: Instant) returns (live: map<ClientId, Instant>)
      ensures live == Unexpired(dedup, now)
    {
      live := dedup;
      var todo := dedup.Keys;
      while todo != {}
        invariant todo <= dedup.Keys
        invariant forall c :: c in live <==> c in dedup && (c in todo || dedup[c] > now)
        invariant forall c :: c in live ==> live[c] == dedup[c]
      {
        var c :| c in todo;
        if !(dedup[c] > now) {
          live := live - {c};
        }
        todo := todo - {c};
      }
    }
  }
}
