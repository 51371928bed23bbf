/** Reachable runs in which the expired-row delete of the database-backed limiter loses an admission or a retry. */
module SurrealRaces {
  import opened Common
  import opened MemoryLimiter
  import opened SurrealLimiter

  const EMPTY: World := World(None, map[], [])

  // One check from arrival to its write, with no other in between.
  function Solo(k: Caller, now: Instant): seq<SurrealLimiter.Event> {
    [Arrive(k, now), ReadRow(k), WriteRow(k)]
  }

  lemma RunOne(w: World, e: SurrealLimiter.Event)
    requires Enabled(w, e)
    ensures ValidRun(w, [e]) && Run(w, [e]) == Next(w, e)
  {
    assert [e][1..] == [];
  }

  lemma {:induction false} RunConcat(w: World, es: seq<SurrealLimiter.Event>, fs: seq<SurrealLimiter.Event>)
    requires ValidRun(w, es) && ValidRun(Run(w, es), fs)
    ensures ValidRun(w, es + fs) && Run(w, es + fs) == Run(Run(w, es), fs)
    decreases |es|
  {
    hide Next, Enabled;
    if es == [] {
      assert es + fs == fs;
    } else {
      assert (es + fs)[1..] == es[1..] + fs;
      RunConcat(Next(w, es[0]), es[1..], fs);
    }
  }

  lemma Cons(w: World, e: SurrealLimiter.Event, es: seq<SurrealLimiter.Event>)
    requires Enabled(w, e) && ValidRun(Next(w, e), es)
    ensures ValidRun(w, [e] + es) && Run(w, [e] + es) == Run(Next(w, e), es)
  {
    RunOne(w, e);
    RunConcat(w, [e], es);
  }

  lemma SoloRuns(w: World, k: Caller, now: Instant)
    requires k !in w.callers && Decide(w.row, now).Put?
    ensures var plan := Decide(w.row, now);
            && ValidRun(w, Solo(k, now))
            && Run(w, Solo(k, now)) == World(Some(plan.row), w.callers[k := Done(Some(plan.answer))],
                                             w.changes + [Change(k, w.row, Some(plan.row), now)])
  {
    var w1 := Next(w, Arrive(k, now));
    var w2 := Next(w1, ReadRow(k));
    RunOne(w2, WriteRow(k));
    Cons(w1, ReadRow(k), [WriteRow(k)]);
    Cons(w, Arrive(k, now), [ReadRow(k), WriteRow(k)]);
    assert Solo(k, now) == [Arrive(k, now)] + ([ReadRow(k)] + [WriteRow(k)]);
  }

  // ---- up to the limit, all at time zero ----

  function Zeros(n: nat): (ts: seq<Instant>)
    ensures |ts| == n && forall i :: 0 <= i < n ==> ts[i] == 0
  {
    seq(n, _ => 0)
  }

  function Stack(n: nat): Option<Row> {
    if n == 0 then None else Some(Row(Zeros(n), None, n))
  }

  lemma {:induction false} ZerosRecent(n: nat, now: Instant)
    ensures Recent(Zeros(n), now) == if 0 > now - WINDOW then Zeros(n) else []
    decreases n
  {
    if n > 0 {
      assert Zeros(n)[1..] == Zeros(n - 1);
      assert [0] + Zeros(n - 1) == Zeros(n);
      ZerosRecent(n - 1, now);
    }
  }

  function Climb(n: nat, m: nat): seq<SurrealLimiter.Event>
    decreases m
  {
    if m == 0 then [] else Solo(n, 0) + Climb(n + 1, m - 1)
  }

  // Only callers from lo up to hi have come or moved.
  ghost predicate OthersSame(w: World, t: World, lo: nat, hi: nat) {
    forall k: Caller :: k < lo || k >= hi ==> PhaseOf(t, k) == PhaseOf(w, k) && (k in t.callers <==> k in w.callers)
  }

  lemma ClimbOne(w: World, n: nat)
    requires w.row == Stack(n) && n < LIMIT && n !in w.callers
    ensures ValidRun(w, Solo(n, 0))
    ensures var t := Run(w, Solo(n, 0));
            t.row == Stack(n + 1) && |t.changes| == |w.changes| + 1 && OthersSame(w, t, n, n + 1)
  {
    ZerosRecent(n, 0);
    assert Zeros(n) + [0] == Zeros(n + 1);
    assert Timestamps(w.row) == Zeros(n);
    assert Decide(w.row, 0) == Put(Stack(n + 1).value, ADMIT);
    SoloRuns(w, n, 0);
  }

  // Callers n, n+1, ... are admitted one after another; everyone else is left alone.
  lemma {:induction false} Climbs(w: World, n: nat, m: nat)
    requires w.row == Stack(n) && n + m <= LIMIT && forall k :: n <= k < n + m ==> k !in w.callers
    ensures ValidRun(w, Climb(n, m))
    ensures var t := Run(w, Climb(n, m));
            t.row == Stack(n + m) && |t.changes| == |w.changes| + m && OthersSame(w, t, n, n + m)
    decreases m
  {
    hide Next, Enabled;
    if m > 0 {
      ClimbOne(w, n);
      var t := Run(w, Solo(n, 0));
      forall k | n + 1 <= k < n + m ensures k !in t.callers { assert k !in w.callers; }
      Climbs(t, n + 1, m - 1);
      RunConcat(w, Solo(n, 0), Climb(n + 1, m - 1));
    }
  }

  const PENALIZED: Row := Row(Zeros(LIMIT), Some(PENALTY), LIMIT + 1)

  // One check too many writes the penalty.
  lemma Overflows(w: World)
    requires w.row == Stack(LIMIT) && LIMIT !in w.callers
    ensures ValidRun(w, Solo(LIMIT, 0))
    ensures var t := Run(w, Solo(LIMIT, 0));
            t.row == Some(PENALIZED) && |t.changes| == |w.changes| + 1 && OthersSame(w, t, LIMIT, LIMIT + 1)
  {
    ZerosRecent(LIMIT, 0);
    assert Timestamps(w.row) == Zeros(LIMIT);
    SoloRuns(w, LIMIT, 0);
  }

  lemma ExpiredPurges(now: Instant)
    requires now >= PENALTY
    ensures Decide(Some(PENALIZED), now) == Purge
  {
    ZerosRecent(LIMIT, now);
  }

  lemma FreshWrite(now: Instant)
    ensures Write(None, now) == Put(Row([now], None, 1), ADMIT)
  {
    assert Recent([], now) + [now] == [now];
  }

  // ---- two deletes of one expired row ----

  const P: Instant := PENALTY

  function BothDelete(): seq<SurrealLimiter.Event> {
    [Arrive(91, P)] + ([Arrive(92, P + 1)] + ([ReadRow(91)] + ([ReadRow(92)]
    + ([DeleteRow(91)] + ([WriteRow(91)] + ([DeleteRow(92)] + [WriteRow(92)]))))))
  }

  lemma BothDeleteRuns(w: World)
    requires w.row == Some(PENALIZED) && 91 !in w.callers && 92 !in w.callers
    ensures var t, n := Run(w, BothDelete()), |w.changes|;
            && ValidRun(w, BothDelete()) && |t.changes| == n + 4
            && t.changes[n + 1].next == Some(Row([P], None, 1)) && t.row == Some(Row([P + 1], None, 1))
            && PhaseOf(t, 91) == Done(Some(ADMIT)) && PhaseOf(t, 92) == Done(Some(ADMIT))
  {
    ExpiredPurges(P);
    ExpiredPurges(P + 1);
    FreshWrite(P);
    FreshWrite(P + 1);
    var n := |w.changes|;
    var w1 := Next(w, Arrive(91, P));
    var w2 := Next(w1, Arrive(92, P + 1));
    var w3 := Next(w2, ReadRow(91));
    var w4 := Next(w3, ReadRow(92));
    assert PhaseOf(w4, 91) == Purging(P, 0, n) && PhaseOf(w4, 92) == Purging(P + 1, 0, n) && w4.row == w.row;
    BothFinish(w4);
    Cons(w3, ReadRow(92), Finish());
    Cons(w2, ReadRow(91), [ReadRow(92)] + Finish());
    Cons(w1, Arrive(92, P + 1), [ReadRow(91)] + ([ReadRow(92)] + Finish()));
    Cons(w, Arrive(91, P), [Arrive(92, P + 1)] + ([ReadRow(91)] + ([ReadRow(92)] + Finish())));
  }

  function Finish(): seq<SurrealLimiter.Event> {
    [DeleteRow(91)] + ([WriteRow(91)] + ([DeleteRow(92)] + [WriteRow(92)]))
  }

  lemma BothFinish(w: World)
    requires PhaseOf(w, 91) == Purging(P, 0, |w.changes|) && PhaseOf(w, 92) == Purging(P + 1, 0, |w.changes|)
    ensures var t, n := Run(w, Finish()), |w.changes|;
            && ValidRun(w, Finish()) && |t.changes| == n + 4
            && t.changes[n + 1].next == Some(Row([P], None, 1)) && t.row == Some(Row([P + 1], None, 1))
            && PhaseOf(t, 91) == Done(Some(ADMIT)) && PhaseOf(t, 92) == Done(Some(ADMIT))
  {
    FreshWrite(P);
    FreshWrite(P + 1);
    var w1 := Next(w, DeleteRow(91));
    var w2 := Next(w1, WriteRow(91));
    var w3 := Next(w2, DeleteRow(92));
    RunOne(w3, WriteRow(92));
    Cons(w2, DeleteRow(92), [WriteRow(92)]);
    Cons(w1, WriteRow(91), [DeleteRow(92)] + [WriteRow(92)]);
    Cons(w, DeleteRow(91), [WriteRow(91)] + ([DeleteRow(92)] + [WriteRow(92)]));
  }

  function LosingDeletes(): seq<SurrealLimiter.Event> {
    (Climb(0, LIMIT) + Solo(LIMIT, 0)) + BothDelete()
  }

  /**
    Fifty checks fill the window and one more draws the penalty. When it has run out two checks both read the
    expired row; the first deletes it and is admitted, and the second deletes that admission.
   */
  lemma DeleteLosesAdmission()
    ensures var w, n := Run(EMPTY, LosingDeletes()), LIMIT + 1;
            && Begins(None, EMPTY) && ValidRun(EMPTY, LosingDeletes()) && |w.changes| == n + 4
            && w.changes[n + 1].next == Some(Row([P], None, 1)) && w.row == Some(Row([P + 1], None, 1))
            && PhaseOf(w, 91) == Done(Some(ADMIT)) && PhaseOf(w, 92) == Done(Some(ADMIT))
  {
    Climbs(EMPTY, 0, LIMIT);
    var w1 := Run(EMPTY, Climb(0, LIMIT));
    Overflows(w1);
    RunConcat(EMPTY, Climb(0, LIMIT), Solo(LIMIT, 0));
    BothDeleteRuns(Run(w1, Solo(LIMIT, 0)));
    RunConcat(EMPTY, Climb(0, LIMIT) + Solo(LIMIT, 0), BothDelete());
  }

  // ---- a delete under a check that still holds a row ----

  function Stall(): seq<SurrealLimiter.Event> {
    [Arrive(99, 0)] + [ReadRow(99)]
  }

  function PurgeAndSwap(): seq<SurrealLimiter.Event> {
    [Arrive(91, P)] + ([ReadRow(91)] + ([DeleteRow(91)] + ([WriteRow(91)] + [WriteRow(99)])))
  }

  lemma PurgeAndSwapRuns(w: World, seen: nat)
    requires w.row == Some(PENALIZED) && 91 !in w.callers && PhaseOf(w, 99) == Ready(0, 0, Stack(1), seen)
    ensures var t, n := Run(w, PurgeAndSwap()), |w.changes|;
            && ValidRun(w, PurgeAndSwap()) && |t.changes| == n + 3
            && t.changes[n + 1].next == Some(Row([P], None, 1)) && t.row == Some(Row([0, 0], None, 2))
            && PhaseOf(t, 91) == Done(Some(ADMIT)) && PhaseOf(t, 99) == Done(Some(ADMIT))
  {
    ExpiredPurges(P);
    FreshWrite(P);
    ZerosRecent(1, 0);
    assert Write(Stack(1), 0) == Put(Row([0, 0], None, 2), ADMIT) by { assert Zeros(1) + [0] == [0, 0]; }
    var w1 := Next(w, Arrive(91, P));
    var w2 := Next(w1, ReadRow(91));
    var w3 := Next(w2, DeleteRow(91));
    var w4 := Next(w3, WriteRow(91));
    RunOne(w4, WriteRow(99));
    Cons(w3, WriteRow(91), [WriteRow(99)]);
    Cons(w2, DeleteRow(91), [WriteRow(91)] + [WriteRow(99)]);
    Cons(w1, ReadRow(91), [DeleteRow(91)] + ([WriteRow(91)] + [WriteRow(99)]));
    Cons(w, Arrive(91, P), [ReadRow(91)] + ([DeleteRow(91)] + ([WriteRow(91)] + [WriteRow(99)])));
  }

  function LosingSwap(): seq<SurrealLimiter.Event> {
    (((Climb(0, 1) + Stall()) + Climb(1, LIMIT - 1)) + Solo(LIMIT, 0)) + PurgeAndSwap()
  }

  lemma Stalls(w: World)
    requires w.row == Stack(1) && 99 !in w.callers
    ensures ValidRun(w, Stall())
    ensures var t := Run(w, Stall());
            && t.row == w.row && t.changes == w.changes && PhaseOf(t, 99) == Ready(0, 0, Stack(1), |w.changes|)
            && OthersSame(w, t, 99, 100)
  {
    ZerosRecent(1, 0);
    var w1 := Next(w, Arrive(99, 0));
    RunOne(w1, ReadRow(99));
    Cons(w, Arrive(99, 0), [ReadRow(99)]);
  }

  /**
    Versions start over after a delete: a check that stalled with version 1 in hand until the row had been deleted
    and made anew swaps its own row in, and the admission in the new row is lost.
   */
  lemma SwapAfterDeleteLosesAdmission()
    ensures var w, n := Run(EMPTY, LosingSwap()), LIMIT + 1;
            && ValidRun(EMPTY, LosingSwap()) && |w.changes| == n + 3
            && w.changes[n + 1].next == Some(Row([P], None, 1)) && w.row == Some(Row([0, 0], None, 2))
            && PhaseOf(w, 91) == Done(Some(ADMIT)) && PhaseOf(w, 99) == Done(Some(ADMIT))
  {
    Climbs(EMPTY, 0, 1);
    var w1 := Run(EMPTY, Climb(0, 1));
    Stalls(w1);
    RunConcat(EMPTY, Climb(0, 1), Stall());
    var w2 := Run(w1, Stall());
    Climbs(w2, 1, LIMIT - 1);
    RunConcat(EMPTY, Climb(0, 1) + Stall(), Climb(1, LIMIT - 1));
    var w3 := Run(w2, Climb(1, LIMIT - 1));
    Overflows(w3);
    RunConcat(EMPTY, (Climb(0, 1) + Stall()) + Climb(1, LIMIT - 1), Solo(LIMIT, 0));
    PurgeAndSwapRuns(Run(w3, Solo(LIMIT, 0)), 1);
    RunConcat(EMPTY, ((Climb(0, 1) + Stall()) + Climb(1, LIMIT - 1)) + Solo(LIMIT, 0), PurgeAndSwap());
  }

  // ---- a check that gives up ----

  // A row of a few admissions between P and P + 2, as everybody here sees it.
  predicate Young(row: Option<Row>) {
    && row.Some? && row.value.blockedUntil.None? && |row.value.timestamps| < LIMIT
    && forall i :: 0 <= i < |row.value.timestamps| ==> P <= row.value.timestamps[i] <= P + 2
  }

  lemma YoungWrite(row: Option<Row>, now: Instant)
    requires Young(row) && P <= now <= P + 2
    ensures Decide(row, now) == Put(Row(row.value.timestamps + [now], None, row.value.version + 1), ADMIT)
  {
    AllRecent(row.value.timestamps, now);
  }

  // Check 93 holds the row as it is now, at the given attempt.
  predicate Holding(w: World, attempt: nat) {
    PhaseOf(w, 93) == Ready(P, attempt, w.row, |w.changes|)
  }

  function Overtake(r: Caller): seq<SurrealLimiter.Event> {
    Solo(r, P + 2) + [WriteRow(93)]
  }

  // A newcomer writes the row first, so the swap of check 93 fails.
  lemma Overtaken(w: World, r: Caller, attempt: nat)
    requires Young(w.row) && Holding(w, attempt) && r !in w.callers && attempt < MAX_RETRIES
    ensures var t := Run(w, Overtake(r));
            && ValidRun(w, Overtake(r))
            && PhaseOf(t, 93) == (if attempt + 1 < MAX_RETRIES then Reading(P, attempt + 1) else Done(None))
            && (exists c :: t.changes == w.changes + [c] && c.who == r && c.next == t.row)
            && t.row.Some? && |t.row.value.timestamps| == |w.row.value.timestamps| + 1
            && (|t.row.value.timestamps| < LIMIT ==> Young(t.row))
            && t.callers.Keys == w.callers.Keys + {r}
  {
    YoungWrite(w.row, P + 2);
    SoloRuns(w, r, P + 2);
    var w1 := Run(w, Solo(r, P + 2));
    RunOne(w1, WriteRow(93));
    RunConcat(w, Solo(r, P + 2), [WriteRow(93)]);
    assert Next(w1, WriteRow(93)).changes == w.changes + [Change(r, w.row, w1.row, P + 2)];
  }

  // Check 93 reads the row again after a failed swap.
  lemma Rereads(w: World, attempt: nat)
    requires Young(w.row) && PhaseOf(w, 93) == Reading(P, attempt)
    ensures ValidRun(w, [ReadRow(93)])
    ensures var t := Run(w, [ReadRow(93)]);
            Holding(t, attempt) && t.row == w.row && t.changes == w.changes && t.callers.Keys == w.callers.Keys
  {
    YoungWrite(w.row, P);
    RunOne(w, ReadRow(93));
  }

  function Lap(r: Caller): seq<SurrealLimiter.Event> {
    Overtake(r) + [ReadRow(93)]
  }

  lemma OneLap(w: World, r: Caller, attempt: nat)
    requires Young(w.row) && Holding(w, attempt) && r !in w.callers && attempt + 1 < MAX_RETRIES
    requires |w.row.value.timestamps| < 10
    ensures var t := Run(w, Lap(r));
            && ValidRun(w, Lap(r)) && Young(t.row) && Holding(t, attempt + 1) && t.callers.Keys == w.callers.Keys + {r}
            && |t.row.value.timestamps| == |w.row.value.timestamps| + 1
            && (exists c :: t.changes == w.changes + [c] && c.who == r && c.next == t.row)
  {
    Overtaken(w, r, attempt);
    var w1 := Run(w, Overtake(r));
    Rereads(w1, attempt + 1);
    RunConcat(w, Overtake(r), [ReadRow(93)]);
  }

  // Check 92 is about to delete the row that check 93 holds, and writes a row of its own afterwards.
  function DeletedUnder(): seq<SurrealLimiter.Event> {
    [DeleteRow(92)] + ([WriteRow(93)] + ([ReadRow(93)] + ([WriteRow(92)] + ([WriteRow(93)] + [ReadRow(93)]))))
  }

  lemma DeletedUnderRuns(w: World, seen: nat)
    requires Young(w.row) && Holding(w, 0) && PhaseOf(w, 92) == Purging(P + 1, 0, seen)
    ensures var t := Run(w, DeletedUnder());
            && ValidRun(w, DeletedUnder()) && Holding(t, 2) && t.callers.Keys == w.callers.Keys
            && t.row == Some(Row([P + 1], None, 1))
            && t.changes == w.changes + [Change(92, w.row, None, P + 1), Change(92, None, t.row, P + 1)]
  {
    FreshWrite(P);
    FreshWrite(P + 1);
    var w1 := Next(w, DeleteRow(92));
    var w2 := Next(w1, WriteRow(93));
    var w3 := Next(w2, ReadRow(93));
    var w4 := Next(w3, WriteRow(92));
    var w5 := Next(w4, WriteRow(93));
    YoungWrite(w5.row, P);
    RunOne(w5, ReadRow(93));
    Cons(w4, WriteRow(93), [ReadRow(93)]);
    Cons(w3, WriteRow(92), [WriteRow(93)] + [ReadRow(93)]);
    Cons(w2, ReadRow(93), [WriteRow(92)] + ([WriteRow(93)] + [ReadRow(93)]));
    Cons(w1, WriteRow(93), [ReadRow(93)] + ([WriteRow(92)] + ([WriteRow(93)] + [ReadRow(93)])));
    Cons(w, DeleteRow(92), [WriteRow(93)] + ([ReadRow(93)] + ([WriteRow(92)] + ([WriteRow(93)] + [ReadRow(93)]))));
  }

  function Opening(): seq<SurrealLimiter.Event> {
    [Arrive(91, P)] + ([Arrive(92, P + 1)] + ([ReadRow(91)] + ([ReadRow(92)] + ([DeleteRow(91)] + [WriteRow(91)]))))
  }

  lemma Opens(w: World)
    requires w.row == Some(PENALIZED) && 91 !in w.callers && 92 !in w.callers
    ensures var t := Run(w, Opening());
            && ValidRun(w, Opening()) && t.row == Some(Row([P], None, 1))
            && PhaseOf(t, 92) == Purging(P + 1, 0, |w.changes|) && t.callers.Keys == w.callers.Keys + {91, 92}
  {
    ExpiredPurges(P);
    ExpiredPurges(P + 1);
    FreshWrite(P);
    var w1 := Next(w, Arrive(91, P));
    var w2 := Next(w1, Arrive(92, P + 1));
    var w3 := Next(w2, ReadRow(91));
    var w4 := Next(w3, ReadRow(92));
    var w5 := Next(w4, DeleteRow(91));
    RunOne(w5, WriteRow(91));
    Cons(w4, DeleteRow(91), [WriteRow(91)]);
    Cons(w3, ReadRow(92), [DeleteRow(91)] + [WriteRow(91)]);
    Cons(w2, ReadRow(91), [ReadRow(92)] + ([DeleteRow(91)] + [WriteRow(91)]));
    Cons(w1, Arrive(92, P + 1), [ReadRow(91)] + ([ReadRow(92)] + ([DeleteRow(91)] + [WriteRow(91)])));
    Cons(w, Arrive(91, P),
         [Arrive(92, P + 1)] + ([ReadRow(91)] + ([ReadRow(92)] + ([DeleteRow(91)] + [WriteRow(91)]))));
  }

  // From the read of check 93 on.
  function Chase(): seq<SurrealLimiter.Event> {
    [ReadRow(93)] + (DeletedUnder() + (Lap(94) + (Lap(95) + Overtake(96))))
  }

  lemma ChaseRuns(w: World, seen: nat)
    requires w.row == Some(Row([P], None, 1)) && PhaseOf(w, 92) == Purging(P + 1, 0, seen)
    requires PhaseOf(w, 93) == Reading(P, 0) && 94 !in w.callers && 95 !in w.callers && 96 !in w.callers
    ensures var t, n := Run(w, Chase()), |w.changes|;
            && ValidRun(w, Chase()) && PhaseOf(t, 93) == Done(None) && |t.changes| == n + 5
            && t.changes[n].next.None?
            && (forall i :: n <= i < n + 5 ==> t.changes[i].who != 93 && (i > n ==> t.changes[i].next.Some?))
  {
    hide Young, Holding, Next, Enabled, Run, ValidRun;
    YoungOne(w.row, P);
    Rereads(w, 0);
    var w1 := Run(w, [ReadRow(93)]);
    KeepsPhase(w);
    DeletedUnderRuns(w1, seen);
    var w2 := Run(w1, DeletedUnder());
    YoungOne(w2.row, P + 1);
    OneLap(w2, 94, 2);
    var w3 := Run(w2, Lap(94));
    OneLap(w3, 95, 3);
    var w4 := Run(w3, Lap(95));
    Overtaken(w4, 96, 4);
    RunConcat(w3, Lap(95), Overtake(96));
    RunConcat(w2, Lap(94), Lap(95) + Overtake(96));
    RunConcat(w1, DeletedUnder(), Lap(94) + (Lap(95) + Overtake(96)));
    RunConcat(w, [ReadRow(93)], DeletedUnder() + (Lap(94) + (Lap(95) + Overtake(96))));
  }

  lemma YoungOne(row: Option<Row>, t: Instant)
    requires P <= t <= P + 2 && row == Some(Row([t], None, 1))
    ensures Young(row)
  {}

  lemma KeepsPhase(w: World)
    requires PhaseOf(w, 93).Reading?
    ensures PhaseOf(Run(w, [ReadRow(93)]), 92) == PhaseOf(w, 92)
  {
    RunOne(w, ReadRow(93));
  }

  function UntilItComes(): seq<SurrealLimiter.Event> {
    (Climb(0, LIMIT) + Solo(LIMIT, 0)) + Opening()
  }

  /**
    A check can give up after fewer than MAX_RETRIES rows written by others: of the five changes that overtake this
    one, the first is the delete of the row it had just read.
   */
  lemma GivingUpAfterFourRows()
    ensures var w, t := Run(EMPTY, UntilItComes()), Run(EMPTY, UntilItComes() + ([Arrive(93, P)] + Chase()));
            var n := |w.changes|;
            && ValidRun(EMPTY, UntilItComes() + ([Arrive(93, P)] + Chase())) && 93 !in w.callers
            && PhaseOf(t, 93) == Done(None) && |t.changes| == n + 5 && t.changes[n].next.None?
            && (forall i :: n <= i < n + 5 ==> t.changes[i].who != 93 && (i > n ==> t.changes[i].next.Some?))
  {
    hide Run, ValidRun, Young, Holding;
    Climbs(EMPTY, 0, LIMIT);
    var w1 := Run(EMPTY, Climb(0, LIMIT));
    Overflows(w1);
    RunConcat(EMPTY, Climb(0, LIMIT), Solo(LIMIT, 0));
    var w2 := Run(w1, Solo(LIMIT, 0));
    Opens(w2);
    RunConcat(EMPTY, Climb(0, LIMIT) + Solo(LIMIT, 0), Opening());
    var w := Run(w2, Opening());
    ChaseRuns(Next(w, Arrive(93, P)), |w2.changes|);
    Cons(w, Arrive(93, P), Chase());
    RunConcat(EMPTY, UntilItComes(), [Arrive(93, P)] + Chase());
  }
}
