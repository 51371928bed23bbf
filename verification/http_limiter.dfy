/**
  The fixed-window limiter in front of the HTTP endpoints: a counter per key that starts afresh once its
  reset time has passed, and a sweep of stale counters when the table has grown large.
 */
module HttpLimiter {
  import opened Common

  type Key = string

  const SWEEP_ABOVE: nat := 10000

  datatype RateEntry = RateEntry(count: nat, reset: Instant)

  type Entries = map<Key, RateEntry>

  datatype Verdict = Allowed | Refused(retryAfter: int, reset: Instant)

  datatype Rule = Rule(limit: int, window: int)

  datatype Request = Request(key: Key, now: Instant)

  predicate Stale(entry: RateEntry, now: Instant) {
    entry.reset < now
  }

  function Swept(m: Entries, now: Instant): Entries {
    map k | k in m && !Stale(m[k], now) :: m[k]
  }

  // The counter of a key after one more request at this time.
  function Counted(rule: Rule, m: Entries, q: Request): RateEntry {
    if q.key in m && !Stale(m[q.key], q.now) then RateEntry(m[q.key].count + 1, m[q.key].reset)
    else RateEntry(1, q.now + rule.window)
  }

  function Judge(rule: Rule, entry: RateEntry, now: Instant): Verdict {
    if entry.count <= rule.limit then Allowed else Refused(RetrySeconds(entry.reset - now), entry.reset)
  }

  /** One request, with the sweep. */
  function Next(rule: Rule, m: Entries, q: Request): Entries {
    var table := if |m| > SWEEP_ABOVE then Swept(m, q.now) else m;
    table[q.key := Counted(rule, table, q)]
  }

  function Answer(rule: Rule, m: Entries, q: Request): Verdict {
    Judge(rule, Next(rule, m, q)[q.key], q.now)
  }

  /** The same request at a limiter that never sweeps. */
  function KeepAll(rule: Rule, m: Entries, q: Request): Entries {
    m[q.key := Counted(rule, m, q)]
  }

  function Answers(rule: Rule, m: Entries, qs: seq<Request>): seq<Verdict>
    decreases |qs|
  {
    if qs == [] then [] else [Answer(rule, m, qs[0])] + Answers(rule, Next(rule, m, qs[0]), qs[1..])
  }

  function KeepAllAnswers(rule: Rule, m: Entries, qs: seq<Request>): seq<Verdict>
    decreases |qs|
  {
    if qs == [] then []
    else [Judge(rule, Counted(rule, m, qs[0]), qs[0].now)] + KeepAllAnswers(rule, KeepAll(rule, m, qs[0]), qs[1..])
  }

  ghost predicate ClockOk(t: Instant, qs: seq<Request>)
    decreases |qs|
  {
    qs == [] || (qs[0].now >= t && ClockOk(qs[0].now, qs[1..]))
  }

  /** A table over the threshold loses exactly its stale counters with a request, a smaller one nothing. */
  lemma SweptExactly(rule: Rule, m: Entries, q: Request, k: Key)
    requires k != q.key
    ensures k in Next(rule, m, q) <==> k in m && (|m| > SWEEP_ABOVE ==> m[k].reset >= q.now)
    ensures k in Next(rule, m, q) ==> Next(rule, m, q)[k] == m[k]
  {}

  // ---- sweeping changes no later answer ----

  function Fresh(m: Entries, k: Key, t: Instant): Option<RateEntry> {
    if k in m && !Stale(m[k], t) then Some(m[k]) else None
  }

  ghost predicate SameFresh(m: Entries, n: Entries, t: Instant) {
    forall k :: Fresh(m, k, t) == Fresh(n, k, t)
  }

  lemma StepKeepsSameFresh(rule: Rule, m: Entries, n: Entries, t: Instant, q: Request)
    requires SameFresh(m, n, t) && q.now >= t
    ensures SameFresh(Next(rule, m, q), KeepAll(rule, n, q), q.now)
    ensures Next(rule, m, q)[q.key] == Counted(rule, n, q)
  {
    assert Fresh(m, q.key, t) == Fresh(n, q.key, t);
    forall k ensures Fresh(Next(rule, m, q), k, q.now) == Fresh(KeepAll(rule, n, q), k, q.now) {
      assert Fresh(m, k, t) == Fresh(n, k, t);
    }
  }

  /** The sweeping limiter answers every request exactly as the one that keeps every counter forever. */
  lemma {:induction false} SweepIsUnobservable(rule: Rule, m: Entries, n: Entries, t: Instant, qs: seq<Request>)
    requires SameFresh(m, n, t) && ClockOk(t, qs)
    ensures Answers(rule, m, qs) == KeepAllAnswers(rule, n, qs)
    decreases |qs|
  {
    if qs != [] {
      StepKeepsSameFresh(rule, m, n, t, qs[0]);
      SweepIsUnobservable(rule, Next(rule, m, qs[0]), KeepAll(rule, n, qs[0]), qs[0].now, qs[1..]);
    }
  }

  // ---- what a refusal says ----

  // The key's counter is over the limit until the given time.
  predicate Full(rule: Rule, m: Entries, k: Key, reset: Instant) {
    k in m && m[k].count > rule.limit && m[k].reset == reset
  }

  lemma StepKeepsFull(rule: Rule, m: Entries, q: Request, k: Key, reset: Instant)
    requires Full(rule, m, k, reset) && q.now <= reset
    ensures Full(rule, Next(rule, m, q), k, reset)
    ensures q.key == k ==> Answer(rule, m, q) == Refused(RetrySeconds(reset - q.now), reset)
  {}

  lemma {:induction false} RunKeepsFull(rule: Rule, m: Entries, qs: seq<Request>, k: Key, reset: Instant)
    requires Full(rule, m, k, reset) && forall i :: 0 <= i < |qs| ==> qs[i].now <= reset
    ensures Full(rule, Run(rule, m, qs), k, reset)
    decreases |qs|
  {
    hide Next, Full;
    if qs != [] {
      StepKeepsFull(rule, m, qs[0], k, reset);
      RunKeepsFull(rule, Next(rule, m, qs[0]), qs[1..], k, reset);
    }
  }

  function Run(rule: Rule, m: Entries, qs: seq<Request>): Entries
    decreases |qs|
  {
    if qs == [] then m else Run(rule, Next(rule, m, qs[0]), qs[1..])
  }

  /**
    A refusal tells the truth about when to come back: until its reset time, and through any other requests made by
    then, the key is refused with the same reset and the seconds left, rounded up; the first request after it is
    allowed, if anything is.
   */
  lemma RefusedUntilReset(rule: Rule, m: Entries, q: Request, qs: seq<Request>, later: Request)
    requires Answer(rule, m, q).Refused? && later.key == q.key
    requires forall i :: 0 <= i < |qs| ==> qs[i].now <= Answer(rule, m, q).reset
    ensures var reset, n := Answer(rule, m, q).reset, Run(rule, Next(rule, m, q), qs);
            && Answer(rule, m, q).retryAfter == RetrySeconds(reset - q.now)
            && (later.now <= reset ==> Answer(rule, n, later) == Refused(RetrySeconds(reset - later.now), reset))
            && (later.now > reset && rule.limit > 0 ==> Answer(rule, n, later) == Allowed)
  {
    var reset := Answer(rule, m, q).reset;
    RunKeepsFull(rule, Next(rule, m, q), qs, q.key, reset);
    if later.now <= reset { StepKeepsFull(rule, Run(rule, Next(rule, m, q), qs), later, q.key, reset); }
  }

  // ---- how many requests of a key one window length can admit ----

  function Step(rule: Rule, m: Entries, q: Request, k: Key): seq<Instant> {
    if q.key == k && Answer(rule, m, q).Allowed? then [q.now] else []
  }

  /** The times at which a run of the limiter allowed a key's requests. */
  function Admissions(rule: Rule, m: Entries, qs: seq<Request>, k: Key): seq<Instant>
    decreases |qs|
  {
    if qs == [] then [] else Step(rule, m, qs[0], k) + Admissions(rule, Next(rule, m, qs[0]), qs[1..], k)
  }

  // One admission and the start of the window it was counted in.
  datatype Admission = Admission(at: Instant, start: Instant)

  // An admission lies in its window, and of two admissions the later one is in the same window or in one that
  // opened more than a window length after.
  predicate InWindow(rule: Rule, x: Admission) {
    x.start <= x.at <= x.start + rule.window
  }

  predicate Ordered(rule: Rule, x: Admission, y: Admission) {
    x.at <= y.at && (x.start == y.start || x.start + rule.window < y.start)
  }

  ghost predicate InWindows(rule: Rule, log: seq<Admission>) {
    && (forall i :: 0 <= i < |log| ==> InWindow(rule, log[i]))
    && (forall i, j :: 0 <= i < j < |log| ==> Ordered(rule, log[i], log[j]))
  }

  // A window opens with an admission and holds at most `limit` of them.
  predicate OpensWell(log: seq<Admission>, i: nat)
    requires i < |log|
  {
    log[i].at == log[i].start || (i > 0 && log[i - 1].start == log[i].start)
  }

  predicate FullBetween(rule: Rule, log: seq<Admission>, i: nat)
    requires rule.limit >= 1 && i + rule.limit < |log|
  {
    log[i].start != log[i + rule.limit].start
  }

  ghost predicate WindowsFilled(rule: Rule, log: seq<Admission>)
    requires rule.limit >= 1
  {
    && (forall i :: 0 <= i < |log| ==> OpensWell(log, i))
    && (forall i :: 0 <= i < |log| - rule.limit ==> FullBetween(rule, log, i))
  }

  function Least(a: int, b: int): int {
    if a < b then a else b
  }

  // The last admissions in the log are those of the key's current counter.
  ghost predicate CounterMatches(rule: Rule, entry: RateEntry, log: seq<Admission>) {
    var start, older := entry.reset - rule.window, |log| - Least(entry.count, rule.limit);
    && 1 <= entry.count && 0 <= older <= |log|
    && (forall i :: 0 <= i < older ==> log[i].start + rule.window < start)
    && (forall i :: older <= i < |log| ==> log[i].start == start)
  }

  ghost predicate LogOk(rule: Rule, m: Entries, log: seq<Admission>, k: Key, t: Instant)
    requires rule.limit >= 1
  {
    && InWindows(rule, log) && WindowsFilled(rule, log)
    && (if k in m then CounterMatches(rule, m[k], log) && m[k].reset - rule.window <= t else log == [])
    && (forall i :: 0 <= i < |log| ==> log[i].at <= t)
  }

  // What one request adds to the log of a key.
  function Logged(rule: Rule, n: Entries, q: Request, k: Key): seq<Admission> {
    var entry := Counted(rule, n, q);
    if q.key == k && entry.count <= rule.limit then [Admission(q.now, entry.reset - rule.window)] else []
  }

  lemma AppendFilled(rule: Rule, log: seq<Admission>, x: Admission)
    requires rule.limit >= 1 && WindowsFilled(rule, log)
    requires x.at == x.start || (log != [] && log[|log| - 1].start == x.start)
    requires |log| >= rule.limit ==> log[|log| - rule.limit].start != x.start
    ensures WindowsFilled(rule, log + [x])
  {
    var more := log + [x];
    forall i | 0 <= i < |more| ensures OpensWell(more, i) {
      if i < |log| { assert OpensWell(log, i); }
    }
    forall i | 0 <= i < |more| - rule.limit ensures FullBetween(rule, more, i) {
      if i < |log| - rule.limit { assert FullBetween(rule, log, i); }
    }
  }

  // An admission that opens a window, more than a window length after the last one opened.
  lemma OpeningKeepsLog(rule: Rule, log: seq<Admission>, now: Instant)
    requires rule.limit >= 1 && rule.window >= 0 && InWindows(rule, log) && WindowsFilled(rule, log)
    requires forall i :: 0 <= i < |log| ==> log[i].at <= now && log[i].start + rule.window < now
    ensures InWindows(rule, log + [Admission(now, now)]) && WindowsFilled(rule, log + [Admission(now, now)])
    ensures CounterMatches(rule, RateEntry(1, now + rule.window), log + [Admission(now, now)])
  {
    AppendFilled(rule, log, Admission(now, now));
  }

  // An admission counted in the window that is already running.
  lemma CountingKeepsLog(rule: Rule, log: seq<Admission>, entry: RateEntry, now: Instant)
    requires rule.window >= 0 && 1 <= entry.count < rule.limit && entry.reset - rule.window <= now <= entry.reset
    requires InWindows(rule, log) && WindowsFilled(rule, log) && CounterMatches(rule, entry, log)
    requires forall i :: 0 <= i < |log| ==> log[i].at <= now
    ensures var more := log + [Admission(now, entry.reset - rule.window)];
            && InWindows(rule, more) && WindowsFilled(rule, more)
            && CounterMatches(rule, entry.(count := entry.count + 1), more)
  {
    AppendFilled(rule, log, Admission(now, entry.reset - rule.window));
  }

  lemma RequestKeepsLog(rule: Rule, n: Entries, log: seq<Admission>, q: Request, k: Key, t: Instant)
    requires rule.limit >= 1 && rule.window >= 0
    requires LogOk(rule, n, log, k, t) && q.now >= t
    ensures LogOk(rule, KeepAll(rule, n, q), log + Logged(rule, n, q, k), k, q.now)
  {
    var entry := Counted(rule, n, q);
    if q.key != k || entry.count > rule.limit {
      assert log + Logged(rule, n, q, k) == log;
    } else {
      AdmissionKeepsLog(rule, n, log, q, t);
    }
  }

  lemma AdmissionKeepsLog(rule: Rule, n: Entries, log: seq<Admission>, q: Request, t: Instant)
    requires rule.limit >= 1 && rule.window >= 0 && Counted(rule, n, q).count <= rule.limit
    requires LogOk(rule, n, log, q.key, t) && q.now >= t
    ensures var entry := Counted(rule, n, q);
            var more := log + [Admission(q.now, entry.reset - rule.window)];
            InWindows(rule, more) && WindowsFilled(rule, more) && CounterMatches(rule, entry, more)
  {
    if q.key !in n || Stale(n[q.key], q.now) {
      OpeningKeepsLog(rule, log, q.now);
    } else {
      CountingKeepsLog(rule, log, n[q.key], q.now);
    }
  }

  // Any 2 * limit consecutive admissions span more than a window length.
  lemma TwoWindowsApart(rule: Rule, log: seq<Admission>, i: nat)
    requires rule.limit >= 1 && InWindows(rule, log) && WindowsFilled(rule, log)
    requires i + 2 * rule.limit - 1 < |log|
    ensures log[i + 2 * rule.limit - 1].at - log[i].at > rule.window
  {
    var last, next := i + 2 * rule.limit - 1, i + rule.limit;
    assert FullBetween(rule, log, i) && Ordered(rule, log[i], log[next]);
    assert InWindow(rule, log[i]) && InWindow(rule, log[last]) && OpensWell(log, i);
    if log[i].at != log[i].start {
      assert FullBetween(rule, log, i - 1) && FullBetween(rule, log, next - 1);
      assert Ordered(rule, log[i - 1], log[next - 1]) && Ordered(rule, log[next - 1], log[last]);
    } else if next < last {
      assert Ordered(rule, log[next], log[last]);
    }
  }

  function Times(log: seq<Admission>): (ts: seq<Instant>)
    ensures |ts| == |log| && forall i :: 0 <= i < |log| ==> ts[i] == log[i].at
  {
    seq(|log|, i requires 0 <= i < |log| => log[i].at)
  }

  ghost predicate Spread(rule: Rule, ts: seq<Instant>) {
    && (forall i, j :: 0 <= i < j < |ts| ==> ts[i] <= ts[j])
    && (forall i, j :: 0 <= i < j < |ts| && j - i == 2 * rule.limit - 1 ==> ts[j] - ts[i] > rule.window)
  }

  lemma LogSpread(rule: Rule, log: seq<Admission>)
    requires rule.limit >= 1 && InWindows(rule, log) && WindowsFilled(rule, log)
    ensures Spread(rule, Times(log))
  {
    forall i, j | 0 <= i < j < |log| && j - i == 2 * rule.limit - 1 ensures log[j].at - log[i].at > rule.window {
      TwoWindowsApart(rule, log, i);
    }
  }

  lemma LogThenRun(rule: Rule, m: Entries, n: Entries, log: seq<Admission>, qs: seq<Request>, k: Key)
    requires qs != [] && Next(rule, m, qs[0])[qs[0].key] == Counted(rule, n, qs[0])
    ensures var rest := Admissions(rule, Next(rule, m, qs[0]), qs[1..], k);
            Times(log + Logged(rule, n, qs[0], k)) + rest == Times(log) + Admissions(rule, m, qs, k)
  {}

  // The times a sweeping run admits extend the times of the log of the run that keeps everything.
  lemma {:induction false} AdmissionsSpread(
      rule: Rule, m: Entries, n: Entries, log: seq<Admission>, t: Instant, qs: seq<Request>, k: Key)
    requires rule.limit >= 1 && rule.window >= 0
    requires SameFresh(m, n, t) && LogOk(rule, n, log, k, t) && ClockOk(t, qs)
    ensures Spread(rule, Times(log) + Admissions(rule, m, qs, k))
    decreases |qs|
  {
    if qs == [] {
      LogSpread(rule, log);
      assert Times(log) + [] == Times(log);
    } else {
      var q := qs[0];
      StepKeepsSameFresh(rule, m, n, t, q);
      RequestKeepsLog(rule, n, log, q, k, t);
      AdmissionsSpread(rule, Next(rule, m, q), KeepAll(rule, n, q), log + Logged(rule, n, q, k), q.now, qs[1..], k);
      LogThenRun(rule, m, n, log, qs, k);
    }
  }

  /** How many instants lie in the closed interval of one window length that begins at `from`. */
  function CountWithin(ts: seq<Instant>, from: Instant, window: int): nat {
    if ts == [] then 0
    else (if from <= ts[0] <= from + window then 1 else 0) + CountWithin(ts[1..], from, window)
  }

  lemma {:induction false} CountAtMost(ts: seq<Instant>, from: Instant, window: int, n: nat)
    requires forall i :: n <= i < |ts| ==> ts[i] > from + window
    ensures CountWithin(ts, from, window) <= n
    decreases |ts|
  {
    if ts != [] {
      CountAtMost(ts[1..], from, window, if n == 0 then 0 else n - 1);
    }
  }

  lemma {:induction false} SpreadCount(rule: Rule, ts: seq<Instant>, from: Instant)
    requires rule.limit >= 1 && rule.window >= 0 && Spread(rule, ts)
    ensures CountWithin(ts, from, rule.window) <= 2 * rule.limit - 1
  {
    if ts != [] {
      if ts[0] < from {
        SpreadCount(rule, ts[1..], from);
      } else {
        var n := 2 * rule.limit - 1;
        forall i | n <= i < |ts| ensures ts[i] > from + rule.window {
          assert ts[i] - ts[i - n] > rule.window && ts[0] <= ts[i - n];
        }
        CountAtMost(ts, from, rule.window, n);
      }
    }
  }

  lemma {:induction false} NothingWithoutLimit(rule: Rule, m: Entries, qs: seq<Request>, k: Key)
    requires rule.limit <= 0
    ensures Admissions(rule, m, qs, k) == []
    decreases |qs|
  {
    if qs != [] { NothingWithoutLimit(rule, Next(rule, m, qs[0]), qs[1..], k); }
  }

  /**
    The fixed-window bound: from an empty table, in every run whose clock does not run backwards, any closed
    interval of one window length admits fewer than twice the limit for each key, and nothing without a limit.
   */
  lemma FixedWindowBound(rule: Rule, t: Instant, qs: seq<Request>, k: Key, from: Instant)
    requires rule.window >= 0 && ClockOk(t, qs)
    ensures CountWithin(Admissions(rule, map[], qs, k), from, rule.window) <= Max(0, 2 * rule.limit - 1)
  {
    if rule.limit >= 1 {
      AdmissionsSpread(rule, map[], map[], [], t, qs, k);
      assert Times([]) + Admissions(rule, map[], qs, k) == Admissions(rule, map[], qs, k);
      SpreadCount(rule, Admissions(rule, map[], qs, k), from);
    } else {
      NothingWithoutLimit(rule, map[], qs, k);
    }
  }

  // ---- the bound cannot be improved ----

  // `count` requests of one key at one time.
  function Burst(k: Key, now: Instant, count: nat): (qs: seq<Request>)
    ensures |qs| == count && forall i :: 0 <= i < count ==> qs[i] == Request(k, now)
  {
    seq(count, _ => Request(k, now))
  }

  lemma AdmittedFirst(rule: Rule, m: Entries, q: Request, rest: seq<Request>)
    requires Answer(rule, m, q).Allowed?
    ensures Admissions(rule, m, [q] + rest, q.key) == [q.now] + Admissions(rule, Next(rule, m, q), rest, q.key)
  {}

  function One(k: Key, count: nat, reset: Instant): Entries {
    map[k := RateEntry(count, reset)]
  }

  lemma NextOne(rule: Rule, k: Key, count: nat, reset: Instant, now: Instant)
    ensures Next(rule, One(k, count, reset), Request(k, now))
            == if reset < now then One(k, 1, now + rule.window) else One(k, count + 1, reset)
  {}

  lemma BurstHead(k: Key, now: Instant, more: nat, rest: seq<Request>)
    requires more > 0
    ensures Burst(k, now, more) + rest == [Request(k, now)] + (Burst(k, now, more - 1) + rest)
  {}

  function Same(now: Instant, count: nat): seq<Instant> {
    seq(count, _ => now)
  }

  lemma SameHead(now: Instant, more: nat, rest: seq<Instant>)
    requires more > 0
    ensures Same(now, more) + rest == [now] + (Same(now, more - 1) + rest)
  {}

  lemma Fits(rule: Rule, count: nat, reset: Instant, k: Key, now: Instant)
    requires reset >= now && count < rule.limit
    ensures Answer(rule, One(k, count, reset), Request(k, now)).Allowed?
    ensures Next(rule, One(k, count, reset), Request(k, now)) == One(k, count + 1, reset)
  {
    NextOne(rule, k, count, reset, now);
  }

  // A burst that fits in the running window is admitted whole, and the run goes on from the fuller counter.
  lemma {:induction false} BurstAdmitted(
      rule: Rule, count: nat, reset: Instant, k: Key, now: Instant, more: nat, rest: seq<Request>)
    requires reset >= now && count + more <= rule.limit
    ensures Admissions(rule, One(k, count, reset), Burst(k, now, more) + rest, k)
            == Same(now, more) + Admissions(rule, One(k, count + more, reset), rest, k)
    decreases more
  {
    hide Next, Answer, One, Admissions;
    if more == 0 {
      assert Burst(k, now, more) + rest == rest;
      assert Same(now, more) == [];
    } else {
      BurstHead(k, now, more, rest);
      Fits(rule, count, reset, k, now);
      AdmittedFirst(rule, One(k, count, reset), Request(k, now), Burst(k, now, more - 1) + rest);
      BurstAdmitted(rule, count + 1, reset, k, now, more - 1, rest);
      SameHead(now, more, Admissions(rule, One(k, count + more, reset), rest, k));
    }
  }

  function WorstRun(rule: Rule, k: Key): seq<Request>
    requires rule.limit >= 1
  {
    [Request(k, 0)] + (Burst(k, rule.window, rule.limit - 1) + LateBurst(rule, k))
  }

  function LateBurst(rule: Rule, k: Key): seq<Request>
    requires rule.limit >= 1
  {
    [Request(k, rule.window + 1)] + (Burst(k, rule.window + 1, rule.limit - 1) + [])
  }

  lemma LateBurstAdmitted(rule: Rule, k: Key)
    requires rule.limit >= 1 && rule.window >= 1
    ensures Admissions(rule, One(k, rule.limit, rule.window), LateBurst(rule, k), k)
            == Same(rule.window + 1, rule.limit)
  {
    var w := rule.window;
    NextOne(rule, k, rule.limit, w, w + 1);
    AdmittedFirst(rule, One(k, rule.limit, w), Request(k, w + 1), Burst(k, w + 1, rule.limit - 1) + []);
    BurstAdmitted(rule, 1, w + 1 + w, k, w + 1, rule.limit - 1, []);
    SameHead(w + 1, rule.limit, []);
  }

  lemma {:induction false} CountSame(now: Instant, count: nat, rest: seq<Instant>, from: Instant, window: int)
    requires from <= now <= from + window
    ensures CountWithin(Same(now, count) + rest, from, window) == count + CountWithin(rest, from, window)
    decreases count
  {
    if count == 0 {
      assert Same(now, count) + rest == rest;
    } else {
      SameHead(now, count, rest);
      CountSame(now, count - 1, rest, from, window);
      assert ([now] + (Same(now, count - 1) + rest))[1..] == Same(now, count - 1) + rest;
    }
  }

  lemma WorstRunAdmissions(rule: Rule, k: Key)
    requires rule.limit >= 1 && rule.window >= 1
    ensures Admissions(rule, map[], WorstRun(rule, k), k)
            == [0] + (Same(rule.window, rule.limit - 1) + Same(rule.window + 1, rule.limit))
  {
    assert Next(rule, map[], Request(k, 0)) == One(k, 1, rule.window);
    AdmittedFirst(rule, map[], Request(k, 0), Burst(k, rule.window, rule.limit - 1) + LateBurst(rule, k));
    BurstAdmitted(rule, 1, rule.window, k, rule.window, rule.limit - 1, LateBurst(rule, k));
    LateBurstAdmitted(rule, k);
  }

  /**
    The bound is attained for every limit: an early request, the rest of its window at the end, and a full
    window just after.
   */
  lemma BoundIsAttained(rule: Rule, k: Key)
    requires rule.limit >= 1 && rule.window >= 1
    ensures CountWithin(Admissions(rule, map[], WorstRun(rule, k), k), rule.window, rule.window) == 2 * rule.limit - 1
  {
    var w, late := rule.window, Same(rule.window + 1, rule.limit);
    WorstRunAdmissions(rule, k);
    assert ([0] + (Same(w, rule.limit - 1) + late))[1..] == Same(w, rule.limit - 1) + late;
    CountSame(w, rule.limit - 1, late, w, w);
    CountSame(w + 1, rule.limit, [], w, w);
    assert late + [] == late;
  }

  /** The counter table of one limiter object. */
  class RateLimiter {
    var entries: Entries
    const rule: Rule

    constructor (limit: int, window: int)
      ensures entries == map[] && rule == Rule(limit, window)
    {
      entries, rule := map[], Rule(limit, window);
    }

    method AllowWithInfo(key: Key, now: Instant) returns (verdict: Verdict)
      modifies this
      ensures entries == Next(rule, old(entries), Request(key, now))
      ensures verdict == Answer(rule, old(entries), Request(key, now))
    {
      if |entries| > SWEEP_ABOVE {
        Sweep(now);
      }
      var entry := RateEntry(0, now + rule.window);
      if key in entries && !(entries[key].reset < now) {
        entry := entries[key];
      }
      entry := entry.(count := entry.count + 1);
      entries := entries[key := entry];
      if entry.count <= rule.limit {
        return Allowed;
      }
      var retry := RetrySeconds(entry.reset - now);
      verdict := Refused(retry, entry.reset);
    }

    method Sweep(now: Instant)
      modifies this`entries
      ensures entries == Swept(old(entries), now)
    {
      var todo := entries.Keys;
      while todo != {}
        invariant todo <= entries.Keys
        invariant forall k :: k in entries <==> k in old(entries) && (k in todo || !Stale(old(entries)[k], now))
        invariant forall k :: k in entries ==> entries[k] == old(entries)[k]
      {
        var k :| k in todo;
        if entries[k].reset < now {
          entries := entries - {k};
        }
        todo := todo - {k};
      }
    }
  }
}
