/**
  The database-backed rate limiter: one row per account, written by compare-and-swap on a version.
  Concurrent checks of one account are interleaved reads and writes of that row.
 */
module SurrealLimiter {
  import opened Common
  import opened MemoryLimiter

  datatype Row = Row(timestamps: seq<Instant>, blockedUntil: Option<Instant>, version: nat)

  const MAX_RETRIES: nat := 5

  // What a check decides from the row it read: refuse, purge the expired row first, or write a new row.
  datatype Plan = Refuse(answer: Answer) | Purge | Put(row: Row, answer: Answer)

  function Timestamps(snap: Option<Row>): seq<Instant> {
    if snap.Some? then snap.value.timestamps else []
  }

  function BlockOf(snap: Option<Row>): Option<Instant> {
    if snap.Some? then snap.value.blockedUntil else None
  }

  function VersionOf(snap: Option<Row>): nat {
    if snap.Some? then snap.value.version else 0
  }

  function Write(snap: Option<Row>, now: Instant): Plan {
    var filtered := Recent(Timestamps(snap), now);
    if |filtered| >= LIMIT then Put(Row(filtered, Some(now + PENALTY), VersionOf(snap) + 1), Penalized(now))
    else Put(Row(filtered + [now], None, VersionOf(snap) + 1), ADMIT)
  }

  function Decide(snap: Option<Row>, now: Instant): Plan {
    if Holds(BlockOf(snap), now) then Refuse(Blocked(now, BlockOf(snap).value))
    else if BlockOf(snap).Some? && Recent(Timestamps(snap), now) == [] then Purge
    else Write(snap, now)
  }

  /** A penalty is never written over a missing row, so the branch that would create one is dead. */
  lemma CreateBlockedIsDead(snap: Option<Row>, now: Instant)
    requires Decide(snap, now).Put? && Decide(snap, now).answer != ADMIT
    ensures snap.Some?
  {}

  // ---- concurrent checks of one account ----

  type Caller = nat

  // `seen` counts the changes of the row made before the caller read it.
  datatype Phase =
    | Reading(now: Instant, attempt: nat)
    | Purging(now: Instant, attempt: nat, seen: nat)
    | Ready(now: Instant, attempt: nat, snap: Option<Row>, seen: nat)
    | Done(answer: Option<Answer>)

  // A write, or a delete of an expired row, with the row before it and the row after.
  datatype Change = Change(who: Caller, prev: Option<Row>, next: Option<Row>, now: Instant)

  datatype World = World(row: Option<Row>, callers: map<Caller, Phase>, changes: seq<Change>)

  datatype Event = Arrive(k: Caller, now: Instant) | ReadRow(k: Caller) | DeleteRow(k: Caller) | WriteRow(k: Caller)

  function PhaseOf(w: World, k: Caller): Phase {
    if k in w.callers then w.callers[k] else Done(None)
  }

  function SwapSucceeds(w: World, snap: Option<Row>): bool {
    if snap.None? then w.row.None? else w.row.Some? && w.row.value.version == snap.value.version
  }

  function Read(w: World, k: Caller, now: Instant, attempt: nat): Phase {
    match Decide(w.row, now)
    case Refuse(answer) => Done(Some(answer))
    case Purge => Purging(now, attempt, |w.changes|)
    case Put(_, _) => Ready(now, attempt, w.row, |w.changes|)
  }

  function Deleted(w: World, k: Caller, now: Instant, attempt: nat): World {
    World(None, w.callers[k := Ready(now, attempt, None, |w.changes| + 1)], w.changes + [Change(k, w.row, None, now)])
  }

  function Swapped(w: World, k: Caller, now: Instant, attempt: nat, snap: Option<Row>): World {
    var plan := Write(snap, now);
    if SwapSucceeds(w, snap) then
      World(Some(plan.row), w.callers[k := Done(Some(plan.answer))],
            w.changes + [Change(k, w.row, Some(plan.row), now)])
    else if attempt + 1 < MAX_RETRIES then w.(callers := w.callers[k := Reading(now, attempt + 1)])
    else w.(callers := w.callers[k := Done(None)])
  }

  function Next(w: World, e: Event): World {
    match e
    case Arrive(k, now) => w.(callers := w.callers[k := Reading(now, 0)])
    case ReadRow(k) =>
      (match PhaseOf(w, k)
       case Reading(now, attempt) => w.(callers := w.callers[k := Read(w, k, now, attempt)])
       case _ => w)
    case DeleteRow(k) =>
      (match PhaseOf(w, k)
       case Purging(now, attempt, _) => Deleted(w, k, now, attempt)
       case _ => w)
    case WriteRow(k) =>
      (match PhaseOf(w, k)
       case Ready(now, attempt, snap, _) => Swapped(w, k, now, attempt, snap)
       case _ => w)
  }

  ghost predicate Enabled(w: World, e: Event) {
    match e
    case Arrive(k, _) => k !in w.callers
    case ReadRow(k) => PhaseOf(w, k).Reading?
    case DeleteRow(k) => PhaseOf(w, k).Purging?
    case WriteRow(k) => PhaseOf(w, k).Ready?
  }

  ghost predicate ValidRun(w: World, es: seq<Event>)
    decreases |es|
  {
    es == [] || (Enabled(w, es[0]) && ValidRun(Next(w, es[0]), es[1..]))
  }

  function Run(w: World, es: seq<Event>): World
    decreases |es|
  {
    if es == [] then w else Run(Next(w, es[0]), es[1..])
  }

  ghost predicate Begins(first: Option<Row>, w: World) {
    w == World(first, map[], []) && |Timestamps(first)| <= LIMIT
  }

  /** The row after the first n changes of a history that starts from the given row. */
  function RowAt(first: Option<Row>, changes: seq<Change>, n: nat): Option<Row>
    requires n <= |changes|
  {
    if n == 0 then first else changes[n - 1].next
  }

  /** The row was written again after the first `seen` changes, and not deleted since. */
  predicate WrittenSince(changes: seq<Change>, seen: nat) {
    seen < |changes| && changes[|changes| - 1].next.Some?
  }

  // ---- what every run keeps ----

  /** To a check at this time the row still says something: an admission in its window, or a penalty. */
  predicate Matters(row: Option<Row>, now: Instant) {
    Recent(Timestamps(row), now) != [] || Holds(BlockOf(row), now)
  }

  // A write leaves its own admission or its own penalty in the row.
  predicate LeavesMark(c: Change) {
    c.next.Some? ==> c.now in c.next.value.timestamps || c.next.value.blockedUntil == Some(c.now + PENALTY)
  }

  // Each change acts on the row of the change before it, and a write counts the version up by one.
  predicate Follows(first: Option<Row>, changes: seq<Change>, i: nat)
    requires i < |changes|
  {
    var c := changes[i];
    && c.prev == RowAt(first, changes, i) && LeavesMark(c)
    && (c.next.Some? ==> c.next.value.version == VersionOf(c.prev) + 1)
  }

  // What a check holds is the row it read, and its plan was made from it.
  ghost predicate ReadOk(first: Option<Row>, w: World, k: Caller)
    requires k in w.callers
  {
    match w.callers[k]
    case Purging(now, _, seen) => seen <= |w.changes| && Decide(RowAt(first, w.changes, seen), now).Purge?
    case Ready(now, _, snap, seen) =>
      seen <= |w.changes| && snap == RowAt(first, w.changes, seen) && Decide(snap, now).Put?
    case _ => true
  }

  ghost predicate Recorded(first: Option<Row>, w: World) {
    && w.row == RowAt(first, w.changes, |w.changes|)
    && (forall i :: 0 <= i < |w.changes| ==> Follows(first, w.changes, i))
    && (forall k :: k in w.callers ==> ReadOk(first, w, k))
  }

  lemma WriteMarks(k: Caller, prev: Option<Row>, snap: Option<Row>, now: Instant)
    ensures LeavesMark(Change(k, prev, Some(Write(snap, now).row), now))
    ensures Write(snap, now).row.version == VersionOf(snap) + 1
  {}

  lemma DeleteMarks(k: Caller, prev: Option<Row>, now: Instant)
    ensures LeavesMark(Change(k, prev, None, now))
  {}

  lemma FreshPlan(now: Instant)
    ensures Decide(None, now).Put?
  {}

  // A further change leaves the history before it as it was.
  lemma HistoryKept(first: Option<Row>, changes: seq<Change>, c: Change)
    requires forall i :: 0 <= i < |changes| ==> Follows(first, changes, i)
    requires c.prev == RowAt(first, changes, |changes|) && LeavesMark(c)
    requires c.next.Some? ==> c.next.value.version == VersionOf(c.prev) + 1
    ensures forall n :: 0 <= n <= |changes| ==> RowAt(first, changes + [c], n) == RowAt(first, changes, n)
    ensures forall i :: 0 <= i < |changes| + 1 ==> Follows(first, changes + [c], i)
  {
    forall n | 0 <= n <= |changes| ensures RowAt(first, changes + [c], n) == RowAt(first, changes, n) {}
    forall i | 0 <= i < |changes| + 1 ensures Follows(first, changes + [c], i) {
      if i < |changes| { assert Follows(first, changes, i); }
    }
  }

  lemma StepKeepsRecord(first: Option<Row>, w: World, e: Event)
    requires Recorded(first, w) && Enabled(w, e)
    ensures Recorded(first, Next(w, e))
  {
    hide Decide, Write, LeavesMark, Follows;
    var t := Next(w, e);
    if |t.changes| > |w.changes| {
      var p := w.callers[e.k];
      FreshPlan(p.now);
      if e.WriteRow? { WriteMarks(e.k, w.row, p.snap, p.now); } else { DeleteMarks(e.k, w.row, p.now); }
      HistoryKept(first, w.changes, t.changes[|w.changes|]);
    }
    forall k | k in t.callers ensures ReadOk(first, t, k) {
      if k != e.k { assert ReadOk(first, w, k); }
    }
  }

  lemma {:induction false} RunKeepsRecord(first: Option<Row>, w: World, es: seq<Event>)
    requires Recorded(first, w) && ValidRun(w, es)
    ensures Recorded(first, Run(w, es))
    decreases |es|
  {
    hide Recorded, Enabled, Next;
    if es != [] {
      StepKeepsRecord(first, w, es[0]);
      RunKeepsRecord(first, Next(w, es[0]), es[1..]);
    }
  }

  // ---- when a swap succeeds, in every run ----

  /** Deleted after the first `seen` changes and written exactly `version` times since: that version is in use again. */
  predicate VersionReused(changes: seq<Change>, seen: nat, version: nat) {
    var d := |changes| - 1 - version;
    && version > 0 && seen <= d && changes[d].next.None?
    && forall n :: d < n < |changes| ==> changes[n].next.Some?
  }

  /** The check holds a row that was deleted after it was read, and whose version another row has come to carry. */
  predicate Stale(w: World, k: Caller) {
    var p := PhaseOf(w, k);
    p.Ready? && p.snap.Some? && VersionReused(w.changes, p.seen, p.snap.value.version)
  }

  // Writes without a delete among them count the version up by their number.
  lemma {:induction false} VersionsGrow(first: Option<Row>, changes: seq<Change>, i: nat, j: nat)
    requires i <= j <= |changes| && forall n :: i <= n < j ==> Follows(first, changes, n) && changes[n].next.Some?
    ensures VersionOf(RowAt(first, changes, j)) == VersionOf(RowAt(first, changes, i)) + (j - i)
    ensures i < j ==> RowAt(first, changes, j).Some?
    decreases j - i
  {
    if i < j {
      VersionsGrow(first, changes, i, j - 1);
      assert Follows(first, changes, j - 1);
    }
  }

  // The writes at the end of the history, as far back as the given place or the last delete.
  lemma LastWrites(changes: seq<Change>, seen: nat) returns (m: nat)
    requires seen <= |changes|
    ensures seen <= m <= |changes| && (seen < m ==> changes[m - 1].next.None?)
    ensures forall n :: m <= n < |changes| ==> changes[n].next.Some?
  {
    m := |changes|;
    while m > seen && changes[m - 1].next.Some?
      invariant seen <= m <= |changes| && forall n :: m <= n < |changes| ==> changes[n].next.Some?
    {
      m := m - 1;
    }
  }

  lemma SwapOfRow(first: Option<Row>, w: World, snap: Option<Row>, seen: nat)
    requires w.row == RowAt(first, w.changes, |w.changes|) && seen <= |w.changes|
    requires forall i :: 0 <= i < |w.changes| ==> Follows(first, w.changes, i)
    requires snap.Some? && snap == RowAt(first, w.changes, seen)
    ensures SwapSucceeds(w, snap) <==> seen == |w.changes| || VersionReused(w.changes, seen, snap.value.version)
  {
    hide Follows;
    var m := LastWrites(w.changes, seen);
    VersionsGrow(first, w.changes, m, |w.changes|);
  }

  /**
    In every run of concurrent checks a swap succeeds if and only if the row has not changed since it was read, or
    no row was read and the last change is a delete, or the version read is in use again. Except in that last case
    it replaces the row it was computed from; in that case it replaces one written since a later delete.
   */
  lemma SwapSucceedsIff(first: Option<Row>, w0: World, es: seq<Event>, k: Caller)
    requires Begins(first, w0) && ValidRun(w0, es) && PhaseOf(Run(w0, es), k).Ready?
    ensures var w, p := Run(w0, es), PhaseOf(Run(w0, es), k);
            && p.seen <= |w.changes|
            && (SwapSucceeds(w, p.snap) <==>
                  (p.seen == |w.changes| || Stale(w, k)
                   || (p.snap.None? && w.changes[|w.changes| - 1].next.None?)))
            && (SwapSucceeds(w, p.snap) && !Stale(w, k) ==> p.snap == w.row)
            && (Stale(w, k) ==> p.seen + 1 < |w.changes| && w.row == w.changes[|w.changes| - 1].next)
  {
    hide Follows, Decide, ValidRun;
    RunKeepsRecord(first, w0, es);
    var w, p := Run(w0, es), PhaseOf(Run(w0, es), k);
    assert ReadOk(first, w, k);
    if p.snap.Some? { SwapOfRow(first, w, p.snap, p.seen); }
  }

  // ---- rivals ----

  /** How many of these changes somebody else made. */
  function Rivals(changes: seq<Change>, k: Caller): nat {
    if changes == [] then 0
    else Rivals(changes[..|changes| - 1], k) + (if changes[|changes| - 1].who != k then 1 else 0)
  }

  lemma {:induction false} RivalsSplit(changes: seq<Change>, more: seq<Change>, k: Caller)
    ensures Rivals(changes + more, k) == Rivals(changes, k) + Rivals(more, k)
    decreases |more|
  {
    if more == [] {
      assert changes + more == changes;
    } else {
      assert (changes + more)[..|changes + more| - 1] == changes + more[..|more| - 1];
      RivalsSplit(changes, more[..|more| - 1], k);
    }
  }

  // Each failed attempt of the check cost one change by somebody else, since the first `from` changes.
  ghost predicate Outrun(w: World, k: Caller, from: nat) {
    && k in w.callers && from <= |w.changes|
    && match w.callers[k]
       case Reading(_, attempt) => attempt < MAX_RETRIES && Rivals(w.changes[from..], k) >= attempt
       case Purging(_, attempt, _) => attempt < MAX_RETRIES && Rivals(w.changes[from..], k) >= attempt
       case Ready(_, attempt, snap, seen) =>
         && attempt < MAX_RETRIES && from <= seen <= |w.changes| && Rivals(w.changes[from..seen], k) >= attempt
         && (seen == |w.changes| ==> snap == w.row)
         && (seen < |w.changes| ==> Rivals(w.changes[seen..], k) > 0)
       case Done(answer) => answer.None? ==> Rivals(w.changes[from..], k) >= MAX_RETRIES
  }

  lemma RivalsGrow(changes: seq<Change>, c: Change, from: nat, k: Caller)
    requires from <= |changes|
    ensures Rivals((changes + [c])[from..], k) == Rivals(changes[from..], k) + if c.who != k then 1 else 0
  {
    assert (changes + [c])[from..] == changes[from..] + [c];
    assert (changes[from..] + [c])[..|changes[from..]|] == changes[from..];
  }

  // Somebody else changes the row.
  lemma RivalOutruns(w: World, t: World, k: Caller, from: nat, c: Change)
    requires Outrun(w, k, from) && t.changes == w.changes + [c] && c.who != k
    requires k in t.callers && t.callers[k] == w.callers[k]
    ensures Outrun(t, k, from)
  {
    hide Rivals;
    RivalsGrow(w.changes, c, from, k);
    if w.callers[k].Ready? {
      RivalsGrow(w.changes, c, w.callers[k].seen, k);
      assert t.changes[from..w.callers[k].seen] == w.changes[from..w.callers[k].seen];
    }
  }

  lemma OwnDeleteOutruns(w: World, k: Caller, from: nat)
    requires Outrun(w, k, from) && w.callers[k].Purging?
    ensures Outrun(Next(w, DeleteRow(k)), k, from)
  {
    hide Rivals, Decide, Write;
    var t := Next(w, DeleteRow(k));
    RivalsGrow(w.changes, t.changes[|w.changes|], from, k);
    assert t.changes[from..|t.changes|] == t.changes[from..];
  }

  lemma OwnWriteOutruns(w: World, k: Caller, from: nat)
    requires Outrun(w, k, from) && w.callers[k].Ready?
    ensures Outrun(Next(w, WriteRow(k)), k, from)
  {
    hide Rivals, Decide, Write;
    var seen := w.callers[k].seen;
    assert w.changes[from..] == w.changes[from..seen] + w.changes[seen..];
    RivalsSplit(w.changes[from..seen], w.changes[seen..], k);
  }

  lemma StepOutruns(w: World, k: Caller, from: nat, e: Event)
    requires Outrun(w, k, from) && Enabled(w, e)
    ensures Outrun(Next(w, e), k, from)
  {
    hide Rivals, Decide, Write;
    var t := Next(w, e);
    if e.k != k {
      if |t.changes| > |w.changes| { RivalOutruns(w, t, k, from, t.changes[|w.changes|]); }
    } else if e.DeleteRow? {
      OwnDeleteOutruns(w, k, from);
    } else if e.WriteRow? {
      OwnWriteOutruns(w, k, from);
    } else {
      assert w.changes[from..|w.changes|] == w.changes[from..];
    }
  }

  lemma {:induction false} RunOutruns(w: World, k: Caller, from: nat, es: seq<Event>)
    requires Outrun(w, k, from) && ValidRun(w, es)
    ensures Outrun(Run(w, es), k, from)
    decreases |es|
  {
    hide Outrun, Enabled, Next;
    if es != [] {
      StepOutruns(w, k, from, es[0]);
      RunOutruns(Next(w, es[0]), k, from, es[1..]);
    }
  }

  /**
    A check that gives up has been outrun: since it arrived, in whatever state and with whatever happening after,
    the row was changed at least MAX_RETRIES times by others.
   */
  lemma GivingUpMeansRivals(w: World, k: Caller, now: Instant, es: seq<Event>)
    requires Enabled(w, Arrive(k, now)) && ValidRun(Next(w, Arrive(k, now)), es)
    requires PhaseOf(Run(Next(w, Arrive(k, now)), es), k) == Done(None)
    ensures var t := Run(Next(w, Arrive(k, now)), es);
            |w.changes| <= |t.changes| && Rivals(t.changes[|w.changes|..], k) >= MAX_RETRIES
  {
    RunOutruns(Next(w, Arrive(k, now)), k, |w.changes|, es);
  }

  // ---- the chain of changes, in every run in which no stale swap succeeds ----

  ghost predicate NoStaleSwap(w: World, es: seq<Event>)
    decreases |es|
  {
    es == [] || ((es[0].WriteRow? ==> !Stale(w, es[0].k)) && NoStaleSwap(Next(w, es[0]), es[1..]))
  }

  // What is written was computed from the row it replaces.
  ghost predicate Linked(first: Option<Row>, changes: seq<Change>, i: nat)
    requires i < |changes|
  {
    var c := changes[i];
    && c.prev == RowAt(first, changes, i) && |Timestamps(c.next)| <= LIMIT
    && (c.next.Some? ==> Decide(c.prev, c.now).Put? && c.next.value == Write(c.prev, c.now).row)
  }

  ghost predicate Chain(first: Option<Row>, changes: seq<Change>) {
    |Timestamps(first)| <= LIMIT && forall i :: 0 <= i < |changes| ==> Linked(first, changes, i)
  }

  lemma ChainAt(first: Option<Row>, changes: seq<Change>, i: nat)
    requires Chain(first, changes) && i < |changes|
    ensures Linked(first, changes, i)
  {}

  lemma {:induction false} RecentShorter(ts: seq<Instant>, now: Instant)
    ensures |Recent(ts, now)| <= |ts|
  {
    if ts != [] { RecentShorter(ts[1..], now); }
  }

  lemma WriteShort(snap: Option<Row>, now: Instant)
    requires |Timestamps(snap)| <= LIMIT
    ensures |Write(snap, now).row.timestamps| <= LIMIT
  {
    RecentShorter(Timestamps(snap), now);
  }

  lemma LinkOne(first: Option<Row>, changes: seq<Change>, c: Change)
    requires Chain(first, changes) && c.prev == RowAt(first, changes, |changes|)
    requires c.next.Some? ==> Decide(c.prev, c.now).Put? && c.next.value == Write(c.prev, c.now).row
    ensures Chain(first, changes + [c])
  {
    hide Decide, Write;
    if changes != [] { assert Linked(first, changes, |changes| - 1); }
    WriteShort(c.prev, c.now);
    forall i | 0 <= i < |changes| + 1 ensures Linked(first, changes + [c], i) {
      assert RowAt(first, changes + [c], i) == RowAt(first, changes, i);
      if i < |changes| { assert Linked(first, changes, i); }
    }
  }

  lemma StepKeepsChain(first: Option<Row>, w: World, e: Event)
    requires Recorded(first, w) && Chain(first, w.changes) && Enabled(w, e) && (e.WriteRow? ==> !Stale(w, e.k))
    ensures Chain(first, Next(w, e).changes)
  {
    hide Follows, Chain, Decide, Write, VersionReused;
    if e.WriteRow? {
      var p := w.callers[e.k];
      assert ReadOk(first, w, e.k);
      if p.snap.Some? { SwapOfRow(first, w, p.snap, p.seen); }
      if SwapSucceeds(w, p.snap) {
        assert p.snap == w.row;
        LinkOne(first, w.changes, Next(w, e).changes[|w.changes|]);
      }
    } else if e.DeleteRow? {
      LinkOne(first, w.changes, Next(w, e).changes[|w.changes|]);
    }
  }

  lemma {:induction false} RunKeepsChain(first: Option<Row>, w: World, es: seq<Event>)
    requires Recorded(first, w) && Chain(first, w.changes) && ValidRun(w, es) && NoStaleSwap(w, es)
    ensures Chain(first, Run(w, es).changes)
    decreases |es|
  {
    hide Recorded, Chain, Enabled, Next, Stale;
    if es != [] {
      StepKeepsRecord(first, w, es[0]);
      StepKeepsChain(first, w, es[0]);
      RunKeepsChain(first, Next(w, es[0]), es[1..]);
    }
  }

  lemma {:induction false} InRecent(ts: seq<Instant>, now: Instant, t: Instant)
    ensures t in Recent(ts, now) <==> t in ts && t > now - WINDOW
  {
    if ts != [] { InRecent(ts[1..], now, t); }
  }

  /** A delete of a row that still says something to the check that deletes it. */
  predicate Loses(c: Change) {
    c.next.None? && Matters(c.prev, c.now)
  }

  lemma KeptByOne(first: Option<Row>, changes: seq<Change>, t: Instant, j: nat)
    requires j < |changes| && Linked(first, changes, j) && t in Timestamps(RowAt(first, changes, j))
    ensures t in Timestamps(changes[j].next) || t <= changes[j].now - WINDOW || Loses(changes[j])
  {
    InRecent(Timestamps(changes[j].prev), changes[j].now, t);
  }

  lemma {:induction false} KeptUntil(first: Option<Row>, changes: seq<Change>, t: Instant, i: nat, j: nat)
    requires Chain(first, changes)
    requires i <= j < |changes| && t in Timestamps(changes[i].next)
    ensures t in Timestamps(changes[j].next)
            || exists n :: i < n <= j && (t <= changes[n].now - WINDOW || Loses(changes[n]))
    decreases j - i
  {
    hide Chain, Loses, Linked, Timestamps;
    if i < j {
      KeptUntil(first, changes, t, i, j - 1);
      ChainAt(first, changes, j);
      if t in Timestamps(changes[j - 1].next) { KeptByOne(first, changes, t, j); }
    }
  }

  // ---- what a delete loses ----

  // What a write leaves in the row is still in force at this time.
  predicate InForce(c: Change, now: Instant) {
    c.next.Some? && c.now > now - (if c.next.value.blockedUntil.Some? then PENALTY else WINDOW)
  }

  /** A check that wrote the row after the first `seen` changes, and since the last delete, is still in force. */
  ghost predicate WrittenInForce(changes: seq<Change>, seen: nat, now: Instant) {
    exists i :: seen <= i < |changes| && InForce(changes[i], now)
                && forall n :: i < n < |changes| ==> changes[n].next.Some?
  }

  lemma PurgedDoesNotMatter(row: Option<Row>, now: Instant)
    ensures row.None? || Decide(row, now).Purge? ==> !Matters(row, now)
  {}

  lemma MarkMatters(c: Change, now: Instant)
    requires LeavesMark(c) && c.next.Some? && c.now > now - WINDOW
    ensures Matters(c.next, now)
  {
    InRecent(Timestamps(c.next), now, c.now);
  }

  lemma InForceMatters(first: Option<Row>, changes: seq<Change>, i: nat, now: Instant)
    requires i < |changes| && Linked(first, changes, i) && InForce(changes[i], now)
    ensures Matters(changes[i].next, now)
  {
    InRecent(Timestamps(changes[i].next), now, changes[i].now);
  }

  // A write keeps what mattered, or leaves a mark of its own that does.
  lemma WriteKeepsMatter(first: Option<Row>, changes: seq<Change>, i: nat, now: Instant)
    requires i < |changes| && Linked(first, changes, i) && changes[i].next.Some? && Matters(changes[i].prev, now)
    ensures Matters(changes[i].next, now)
  {
    var c := changes[i];
    if c.now > now - WINDOW {
      WriteMarks(c.who, c.prev, c.prev, c.now);
      MarkMatters(c, now);
    } else {
      var t := Recent(Timestamps(c.prev), now)[0];
      InRecent(Timestamps(c.prev), now, t);
      InRecent(Timestamps(c.prev), c.now, t);
      InRecent(Timestamps(c.next), now, t);
    }
  }

  lemma {:induction false} MatterStays(first: Option<Row>, changes: seq<Change>, i: nat, now: Instant)
    requires Chain(first, changes) && i < |changes| && Matters(changes[i].next, now)
    requires forall n :: i < n < |changes| ==> changes[n].next.Some?
    ensures Matters(changes[|changes| - 1].next, now)
    decreases |changes| - i
  {
    hide Matters, Decide, Write, Chain, LeavesMark;
    if i < |changes| - 1 {
      ChainAt(first, changes, i + 1);
      WriteKeepsMatter(first, changes, i + 1, now);
      MatterStays(first, changes, i + 1, now);
    }
  }

  // What matters after a write that is itself no longer in force mattered before it.
  lemma OldMatter(first: Option<Row>, changes: seq<Change>, i: nat, now: Instant)
    requires i < |changes| && Linked(first, changes, i)
    requires Matters(changes[i].next, now) && !InForce(changes[i], now)
    ensures Matters(changes[i].prev, now)
  {
    var c := changes[i];
    var t := Recent(Timestamps(c.next), now)[0];
    InRecent(Timestamps(c.next), now, t);
    InRecent(Timestamps(c.prev), c.now, t);
    InRecent(Timestamps(c.prev), now, t);
  }

  lemma NothingMatters(now: Instant)
    ensures !Matters(None, now)
  {}

  lemma {:induction false} MatterFrom(first: Option<Row>, changes: seq<Change>, seen: nat, j: nat, now: Instant)
    returns (i: nat)
    requires Chain(first, changes) && seen <= j <= |changes| && !Matters(RowAt(first, changes, seen), now)
    requires Matters(RowAt(first, changes, j), now) && forall n :: j <= n < |changes| ==> changes[n].next.Some?
    ensures seen <= i < |changes| && InForce(changes[i], now)
    ensures forall n :: i < n < |changes| ==> changes[n].next.Some?
    decreases j
  {
    hide Matters, Decide, Write, Chain, LeavesMark;
    NothingMatters(now);
    ChainAt(first, changes, j - 1);
    if InForce(changes[j - 1], now) {
      i := j - 1;
    } else {
      OldMatter(first, changes, j - 1, now);
      i := MatterFrom(first, changes, seen, j - 1, now);
    }
  }

  lemma MattersIff(first: Option<Row>, changes: seq<Change>, seen: nat, now: Instant)
    requires Chain(first, changes) && seen <= |changes| && !Matters(RowAt(first, changes, seen), now)
    ensures Matters(RowAt(first, changes, |changes|), now) <==> WrittenInForce(changes, seen, now)
  {
    hide Matters, InForce, Chain;
    if Matters(RowAt(first, changes, |changes|), now) {
      var i := MatterFrom(first, changes, seen, |changes|, now);
    }
    if WrittenInForce(changes, seen, now) {
      var i :| seen <= i < |changes| && InForce(changes[i], now)
               && forall n :: i < n < |changes| ==> changes[n].next.Some?;
      ChainAt(first, changes, i);
      InForceMatters(first, changes, i, now);
      MatterStays(first, changes, i, now);
    }
  }

  /**
    The expired-row delete, in every run of concurrent checks: about to delete, a check destroys something that
    still matters to it, an admission in its window or a penalty, only if the row was written again since it read
    the row, and it does if the last of those checks began less than a window before it. If no stale swap succeeded
    it does if and only if one of the checks that wrote since its read, and since the last delete, is still in force.
   */
  lemma DeleteLosesIff(first: Option<Row>, w0: World, es: seq<Event>, k: Caller)
    requires Begins(first, w0) && ValidRun(w0, es) && PhaseOf(Run(w0, es), k).Purging?
    ensures var w, p := Run(w0, es), PhaseOf(Run(w0, es), k);
            && (Matters(w.row, p.now) ==> WrittenSince(w.changes, p.seen))
            && ((WrittenSince(w.changes, p.seen) && w.changes[|w.changes| - 1].now > p.now - WINDOW) ==>
                  Matters(w.row, p.now))
            && (NoStaleSwap(w0, es) ==> (Matters(w.row, p.now) <==> WrittenInForce(w.changes, p.seen, p.now)))
  {
    hide Decide, Matters, LeavesMark, ValidRun, Chain, NoStaleSwap, WrittenInForce;
    RunKeepsRecord(first, w0, es);
    var w, p := Run(w0, es), PhaseOf(Run(w0, es), k);
    assert ReadOk(first, w, k);
    PurgedDoesNotMatter(RowAt(first, w.changes, p.seen), p.now);
    PurgedDoesNotMatter(None, p.now);
    if WrittenSince(w.changes, p.seen) && w.changes[|w.changes| - 1].now > p.now - WINDOW {
      assert Follows(first, w.changes, |w.changes| - 1);
      MarkMatters(w.changes[|w.changes| - 1], p.now);
    }
    if NoStaleSwap(w0, es) {
      ChainBegins(first);
      RunKeepsChain(first, w0, es);
      MattersIff(first, w.changes, p.seen, p.now);
    }
  }

  lemma ChainBegins(first: Option<Row>)
    requires |Timestamps(first)| <= LIMIT
    ensures Chain(first, [])
  {}

  predicate FoundAsRead(w: World, e: Event) {
    e.DeleteRow? && PhaseOf(w, e.k).Purging? ==> !WrittenSince(w.changes, PhaseOf(w, e.k).seen)
  }

  /** Every delete of the run finds the row as it was read, or deleted in the meantime. */
  ghost predicate Uncontended(w: World, es: seq<Event>)
    decreases |es|
  {
    es == [] || (FoundAsRead(w, es[0]) && Uncontended(Next(w, es[0]), es[1..]))
  }

  lemma {:induction false} NothingLost(first: Option<Row>, w: World, es: seq<Event>)
    requires Recorded(first, w) && ValidRun(w, es) && Uncontended(w, es)
    requires forall i :: 0 <= i < |w.changes| ==> !Loses(w.changes[i])
    ensures forall i :: 0 <= i < |Run(w, es).changes| ==> !Loses(Run(w, es).changes[i])
    decreases |es|
  {
    hide Decide, Write, Matters, Follows;
    if es != [] {
      if es[0].DeleteRow? {
        assert ReadOk(first, w, es[0].k);
        var p := w.callers[es[0].k];
        PurgedDoesNotMatter(RowAt(first, w.changes, p.seen), p.now);
        PurgedDoesNotMatter(None, p.now);
      }
      StepKeepsRecord(first, w, es[0]);
      NothingLost(first, Next(w, es[0]), es[1..]);
    }
  }

  /**
    In every run in which no stale swap succeeds: each row written was computed from the row right before it and
    holds at most LIMIT timestamps, and a timestamp disappears only once some later change's window has passed it
    or a delete loses it, which no delete does while all are uncontended.
   */
  lemma CommitsFormAChain(first: Option<Row>, w0: World, es: seq<Event>, i: nat, j: nat, t: Instant)
    requires Begins(first, w0) && ValidRun(w0, es) && NoStaleSwap(w0, es)
    requires i <= j < |Run(w0, es).changes|
    ensures var w := Run(w0, es);
            && Linked(first, w.changes, j) && w.row == w.changes[|w.changes| - 1].next
            && (t in Timestamps(w.changes[i].next) ==>
                  || t in Timestamps(w.changes[j].next)
                  || exists n :: i < n <= j && (t <= w.changes[n].now - WINDOW || Loses(w.changes[n])))
            && (Uncontended(w0, es) ==> !Loses(w.changes[j]))
  {
    hide ValidRun, NoStaleSwap, Uncontended, Follows, Loses, Matters;
    RunKeepsRecord(first, w0, es);
    RunKeepsChain(first, w0, es);
    if Uncontended(w0, es) { NothingLost(first, w0, es); }
    if t in Timestamps(Run(w0, es).changes[i].next) {
      KeptUntil(first, Run(w0, es).changes, t, i, j);
    }
  }
}
