/**
  Admission of sends: a lock shard per account and client id is held from the limiter's check to the
  persister's answer, and a send rejected for lack of room makes its client id usable again.
 */
module Admission {
  import opened Common
  import opened MemoryLimiter

  const SHARDS: nat := 64

  function Mixed(hash: bv32, letter: char): bv32 {
    (hash ^ (letter as bv32)) * 16777619
  }

  function Fnv(text: string, hash: bv32): bv32 {
    if text == "" then hash else Fnv(text[1..], Mixed(hash, text[0]))
  }

  function Shard(a: Account, c: ClientId): nat {
    (Fnv(a + "\0" + c, 2166136261) as nat) % SHARDS
  }

  /** The hash loop of the send lock. */
  method PickShard(a: Account, c: ClientId) returns (shard: nat)
    ensures shard == Shard(a, c) < SHARDS
  {
    hide Mixed;
    var text := a + "\0" + c;
    var hash: bv32 := 2166136261;
    var i := 0;
    while i < |text|
      invariant 0 <= i <= |text|
      invariant Fnv(text[i..], hash) == Fnv(text, 2166136261)
    {
      assert text[i..][0] == text[i] && text[i..][1..] == text[i + 1..];
      hash := Mixed(hash, text[i]);
      i := i + 1;
    }
    shard := (hash as nat) % SHARDS;
  }

  type Thread = nat

  // Where a send stands; `at` is the time its check was admitted.
  datatype Stage = Waiting | Locked | Admitted(at: Instant) | Rejected(at: Instant) | Finished

  datatype Send = Send(account: Account, clientId: ClientId, stage: Stage)

  datatype Sent = Sent(account: Account, clientId: ClientId, at: Instant)

  datatype World = World(
    memory: Memory,
    holders: map<nat, Thread>,
    sends: map<Thread, Send>,
    accepted: seq<Sent>,  // history
    checked: map<(Account, ClientId), Instant>,  // the time of the last check of each client id
    tidied: Instant)                             // the latest time of a cleanup

  datatype Event =
    | Start(th: Thread, account: Account, clientId: ClientId)
    | Acquire(th: Thread)
    | CheckLimit(th: Thread, now: Instant)
    | Accept(th: Thread)     // room in the queue: the message is accepted
    | TurnAway(th: Thread)   // the queue is full
    | Reopen(th: Thread)     // the turned-away send forgets its client id
    | Abandon(th: Thread)    // a blocked pair or a database error: the client id stays remembered
    | Tidy(now: Instant)

  function ShardOf(s: Send): nat {
    Shard(s.account, s.clientId)
  }

  // The latest time that has been applied to a client id; time need not be ordered between client ids.
  function ClockOf(w: World, a: Account, c: ClientId): Instant {
    if (a, c) in w.checked then Max(w.checked[(a, c)], w.tidied) else w.tidied
  }

  function SendClock(w: World, th: Thread): Instant
    requires th in w.sends
  {
    ClockOf(w, w.sends[th].account, w.sends[th].clientId)
  }

  function At(w: World, th: Thread, stage: Stage): World
    requires th in w.sends
  {
    w.(sends := w.sends[th := w.sends[th].(stage := stage)])
  }

  function Released(w: World, th: Thread): World
    requires th in w.sends
  {
    At(w, th, Finished).(holders := w.holders - {ShardOf(w.sends[th])})
  }

  ghost predicate Enabled(w: World, e: Event) {
    match e
    case Start(th, _, c) => th !in w.sends && c != ""
    case Acquire(th) => th in w.sends && w.sends[th].stage.Waiting? && ShardOf(w.sends[th]) !in w.holders
    case CheckLimit(th, now) => th in w.sends && w.sends[th].stage.Locked? && now >= SendClock(w, th)
    case Accept(th) => th in w.sends && w.sends[th].stage.Admitted?
    case TurnAway(th) => th in w.sends && w.sends[th].stage.Admitted?
    case Abandon(th) => th in w.sends && w.sends[th].stage.Admitted?
    case Reopen(th) => th in w.sends && w.sends[th].stage.Rejected?
    case Tidy(_) => true
  }

  // The limiter would admit this send now.
  predicate Admits(w: World, th: Thread, now: Instant)
    requires th in w.sends
  {
    CheckState(StateOf(w.memory, w.sends[th].account), w.sends[th].clientId, now).1 == ADMIT
  }

  function Checked(w: World, th: Thread, now: Instant): World
    requires th in w.sends
  {
    var s := w.sends[th];
    var t := w.(memory := MemoryNext(w.memory, Check(s.account, s.clientId, now)),
                checked := w.checked[(s.account, s.clientId) := now]);
    if Admits(w, th, now) then At(t, th, Admitted(now)) else Released(t, th)
  }

  function Next(w: World, e: Event): World
    requires Enabled(w, e)
  {
    match e
    case Start(th, a, c) => w.(sends := w.sends[th := Send(a, c, Waiting)])
    case Acquire(th) => At(w, th, Locked).(holders := w.holders[ShardOf(w.sends[th]) := th])
    case CheckLimit(th, now) => Checked(w, th, now)
    case Accept(th) =>
      var s := w.sends[th];
      Released(w, th).(accepted := w.accepted + [Sent(s.account, s.clientId, s.stage.at)])
    case TurnAway(th) => At(w, th, Rejected(w.sends[th].stage.at))
    case Reopen(th) =>
      var s := w.sends[th];
      Released(w, th).(memory := MemoryNext(w.memory, Forget(s.account, s.clientId)))
    case Abandon(th) => Released(w, th)
    case Tidy(now) => w.(memory := MemoryNext(w.memory, Cleanup(now)), tidied := Max(w.tidied, now))
  }

  // ---- the invariant ----

  function Remembered(m: Memory, a: Account, c: ClientId): Option<Instant> {
    Entry(StateOf(m, a).dedup, c)
  }

  predicate Holding(stage: Stage) {
    stage.Locked? || stage.Admitted? || stage.Rejected?
  }

  predicate Past(stage: Stage) {
    stage.Admitted? || stage.Rejected?
  }

  /** An admission is still remembered, under exactly its own expiry, until that expiry. */
  ghost predicate Covered(w: World, a: Account, c: ClientId, at: Instant) {
    ClockOf(w, a, c) >= at + DEDUP_TTL || Remembered(w.memory, a, c) == Some(at + DEDUP_TTL)
  }

  ghost predicate SentCovered(w: World, x: Sent) {
    Covered(w, x.account, x.clientId, x.at)
  }

  ghost predicate LocksOk(w: World) {
    forall th :: th in w.sends && Holding(w.sends[th].stage) ==>
      ShardOf(w.sends[th]) in w.holders && w.holders[ShardOf(w.sends[th])] == th
  }

  // A send past its check comes a full lifetime after every accepted send of its client id.
  ghost predicate PastOk(w: World, th: Thread)
    requires th in w.sends && Past(w.sends[th].stage)
  {
    var s := w.sends[th];
    && s.clientId != "" && s.stage.at <= SendClock(w, th) && Covered(w, s.account, s.clientId, s.stage.at)
    && forall i :: 0 <= i < |w.accepted|
                   && w.accepted[i].account == s.account && w.accepted[i].clientId == s.clientId ==>
         s.stage.at >= w.accepted[i].at + DEDUP_TTL
  }

  ghost predicate Apart(accepted: seq<Sent>) {
    forall i, j :: 0 <= i < j < |accepted| && accepted[i].account == accepted[j].account
                   && accepted[i].clientId == accepted[j].clientId ==>
      accepted[j].at >= accepted[i].at + DEDUP_TTL
  }

  ghost predicate AllCovered(w: World) {
    forall i :: 0 <= i < |w.accepted| ==> SentCovered(w, w.accepted[i])
  }

  ghost predicate Inv(w: World) {
    && LocksOk(w) && Apart(w.accepted) && AllCovered(w)
    && (forall th :: th in w.sends ==> w.sends[th].clientId != "")
    && (forall th :: th in w.sends && Past(w.sends[th].stage) ==> PastOk(w, th))
  }

  // ---- how the remembered entries move ----

  lemma CheckRemembers(m: Memory, a: Account, c: ClientId, now: Instant, b: Account, d: ClientId)
    requires c != ""
    ensures var m' := MemoryNext(m, Check(a, c, now));
            var admitted := CheckState(StateOf(m, a), c, now).1 == ADMIT;
            && Remembered(m', b, d)
               == (if admitted && a == b && c == d then Some(now + DEDUP_TTL) else Remembered(m, b, d))
            && (admitted ==> !Holds(Remembered(m, a, c), now))
  {}

  lemma ForgetRemembers(m: Memory, a: Account, c: ClientId, b: Account, d: ClientId)
    requires c != ""
    ensures Remembered(MemoryNext(m, Forget(a, c)), b, d) == if a == b && c == d then None else Remembered(m, b, d)
  {}

  lemma TidyRemembers(m: Memory, now: Instant, b: Account, d: ClientId)
    ensures Remembered(Cleaned(m, now), b, d) == Live(Remembered(m, b, d), now)
  {}

  lemma CheckKeepsCovered(w: World, th: Thread, now: Instant, a: Account, c: ClientId, at: Instant)
    requires th in w.sends && w.sends[th].clientId != "" && now >= SendClock(w, th) && Covered(w, a, c, at)
    ensures Covered(Checked(w, th, now), a, c, at)
    ensures (Admits(w, th, now) && a == w.sends[th].account && c == w.sends[th].clientId) ==> now >= at + DEDUP_TTL
  {}

  // ---- every step keeps the invariant ----

  lemma LocksStep(w: World, e: Event)
    requires LocksOk(w) && Enabled(w, e)
    ensures LocksOk(Next(w, e))
  {
    hide Shard, CheckState, MemoryNext;
  }

  lemma AdmittedIsPast(w: World, th: Thread, now: Instant)
    requires Inv(w) && Enabled(w, CheckLimit(th, now)) && Admits(w, th, now)
    ensures PastOk(Checked(w, th, now), th)
  {
    hide LocksOk, Apart;
    var s := w.sends[th];
    CheckRemembers(w.memory, s.account, s.clientId, now, s.account, s.clientId);
    forall i | 0 <= i < |w.accepted| && w.accepted[i].account == s.account && w.accepted[i].clientId == s.clientId
      ensures now >= w.accepted[i].at + DEDUP_TTL
    {
      CheckKeepsCovered(w, th, now, s.account, s.clientId, w.accepted[i].at);
    }
  }

  lemma CheckKeepsInv(w: World, th: Thread, now: Instant)
    requires Inv(w) && Enabled(w, CheckLimit(th, now))
    ensures Inv(Checked(w, th, now))
  {
    hide Shard, CheckState, LocksOk, Apart, PastOk, Covered;
    var t := Checked(w, th, now);
    LocksStep(w, CheckLimit(th, now));
    forall i | 0 <= i < |t.accepted| ensures SentCovered(t, t.accepted[i]) {
      assert SentCovered(w, w.accepted[i]);
      CheckKeepsCovered(w, th, now, w.accepted[i].account, w.accepted[i].clientId, w.accepted[i].at);
    }
    forall x | x in t.sends && Past(t.sends[x].stage) ensures PastOk(t, x) {
      if x == th {
        AdmittedIsPast(w, th, now);
      } else {
        assert PastOk(w, x);
        OtherStaysPast(w, th, now, x);
      }
    }
  }

  lemma OtherStaysPast(w: World, th: Thread, now: Instant, x: Thread)
    requires th in w.sends && w.sends[th].clientId != "" && now >= SendClock(w, th)
    requires x in w.sends && x != th && Past(w.sends[x].stage) && PastOk(w, x)
    ensures PastOk(Checked(w, th, now), x)
  {
    hide Shard, CheckState;
    CheckKeepsCovered(w, th, now, w.sends[x].account, w.sends[x].clientId, w.sends[x].stage.at);
  }

  lemma AcceptKeepsInv(w: World, th: Thread)
    requires Inv(w) && Enabled(w, Accept(th))
    ensures Inv(Next(w, Accept(th)))
  {
    hide Fnv, CheckState;
    var s, t := w.sends[th], Next(w, Accept(th));
    LocksStep(w, Accept(th));
    assert PastOk(w, th);
    forall i | 0 <= i < |t.accepted| ensures SentCovered(t, t.accepted[i]) {
      if i < |w.accepted| {
        assert SentCovered(w, w.accepted[i]);
      }
    }
    forall x | x in t.sends && Past(t.sends[x].stage) ensures PastOk(t, x) {
      assert PastOk(w, x);
    }
  }

  lemma ReopenKeepsInv(w: World, th: Thread)
    requires Inv(w) && Enabled(w, Reopen(th))
    ensures Inv(Next(w, Reopen(th)))
  {
    var s, t := w.sends[th], Next(w, Reopen(th));
    LocksStep(w, Reopen(th));
    assert PastOk(w, th);
    forall i | 0 <= i < |t.accepted| ensures SentCovered(t, t.accepted[i]) {
      assert SentCovered(w, w.accepted[i]);
      ForgetRemembers(w.memory, s.account, s.clientId, w.accepted[i].account, w.accepted[i].clientId);
    }
    forall x | x in t.sends && Past(t.sends[x].stage) ensures PastOk(t, x) {
      assert PastOk(w, x);
      ForgetRemembers(w.memory, s.account, s.clientId, w.sends[x].account, w.sends[x].clientId);
    }
  }

  lemma TidyKeepsInv(w: World, now: Instant)
    requires Inv(w)
    ensures Inv(Next(w, Tidy(now)))
  {
    var t := Next(w, Tidy(now));
    forall i | 0 <= i < |t.accepted| ensures SentCovered(t, t.accepted[i]) {
      assert SentCovered(w, w.accepted[i]);
      TidyRemembers(w.memory, now, w.accepted[i].account, w.accepted[i].clientId);
    }
    forall x | x in t.sends && Past(t.sends[x].stage) ensures PastOk(t, x) {
      assert PastOk(w, x);
      TidyRemembers(w.memory, now, w.sends[x].account, w.sends[x].clientId);
    }
  }

  lemma QuietKeepsInv(w: World, e: Event)
    requires Inv(w) && Enabled(w, e) && (e.Start? || e.Acquire? || e.TurnAway? || e.Abandon?)
    ensures Inv(Next(w, e))
  {
    hide Shard, CheckState, MemoryNext;
    var t := Next(w, e);
    LocksStep(w, e);
    forall i | 0 <= i < |t.accepted| ensures SentCovered(t, t.accepted[i]) {
      assert SentCovered(w, w.accepted[i]);
    }
    forall x | x in t.sends && Past(t.sends[x].stage) ensures PastOk(t, x) {
      assert PastOk(w, x);
    }
  }

  lemma StepKeepsInv(w: World, e: Event)
    requires Inv(w) && Enabled(w, e)
    ensures Inv(Next(w, e))
  {
    match e
    case CheckLimit(th, now) => CheckKeepsInv(w, th, now);
    case Accept(th) => AcceptKeepsInv(w, th);
    case Reopen(th) => ReopenKeepsInv(w, th);
    case Tidy(now) => TidyKeepsInv(w, now);
    case Start(_, _, _) => QuietKeepsInv(w, e);
    case Acquire(_) => QuietKeepsInv(w, e);
    case TurnAway(_) => QuietKeepsInv(w, e);
    case Abandon(_) => QuietKeepsInv(w, e);
  }

  ghost predicate ValidRun(w: World, es: seq<Event>)
    decreases |es|
  {
    es == [] || (Enabled(w, es[0]) && ValidRun(Next(w, es[0]), es[1..]))
  }

  function Run(w: World, es: seq<Event>): World
    requires ValidRun(w, es)
    decreases |es|
  {
    if es == [] then w else Run(Next(w, es[0]), es[1..])
  }

  lemma {:induction false} RunKeepsInv(w: World, es: seq<Event>)
    requires Inv(w) && ValidRun(w, es)
    ensures Inv(Run(w, es))
    decreases |es|
  {
    if es != [] {
      StepKeepsInv(w, es[0]);
      RunKeepsInv(Next(w, es[0]), es[1..]);
    }
  }

  /**
    At most once: in every interleaving of concurrent sends, full queues, reopened client ids, abandoned
    sends and cleanups, any two accepted messages of one account and client id were checked at least the
    whole remembered lifetime apart.
   */
  lemma AtMostOncePerLifetime(m: Memory, t: Instant, es: seq<Event>, i: nat, j: nat)
    requires ValidRun(World(m, map[], map[], [], map[], t), es)
    requires i < j < |Run(World(m, map[], map[], [], map[], t), es).accepted|
    ensures var accepted := Run(World(m, map[], map[], [], map[], t), es).accepted;
            accepted[i].account == accepted[j].account && accepted[i].clientId == accepted[j].clientId ==>
              accepted[j].at - accepted[i].at >= DEDUP_TTL
  {
    RunKeepsInv(World(m, map[], map[], [], map[], t), es);
  }

  // ---- what a send that ends without a message leaves behind ----

  /** No check of the client id in the run; without one nobody can reopen it either. */
  ghost predicate Unchecked(w: World, es: seq<Event>, a: Account, c: ClientId)
    requires ValidRun(w, es)
    decreases |es|
  {
    es == [] ||
    (&& (es[0].CheckLimit? ==> w.sends[es[0].th].account != a || w.sends[es[0].th].clientId != c)
     && Unchecked(Next(w, es[0]), es[1..], a, c))
  }

  ghost predicate NonePast(w: World, a: Account, c: ClientId) {
    forall th :: th in w.sends && w.sends[th].account == a && w.sends[th].clientId == c ==> !Past(w.sends[th].stage)
  }

  // A step that does not check the client id: its entry stays, unless a cleanup finds it expired.
  lemma StepRemembers(w: World, e: Event, a: Account, c: ClientId)
    requires Inv(w) && Enabled(w, e) && NonePast(w, a, c)
    requires e.CheckLimit? ==> w.sends[e.th].account != a || w.sends[e.th].clientId != c
    ensures var t, was := Next(w, e), Remembered(w.memory, a, c);
            && NonePast(t, a, c) && t.tidied >= w.tidied
            && (was.None? ==> Remembered(t.memory, a, c).None?)
            && (was.Some? && was.value > t.tidied ==> Remembered(t.memory, a, c) == was)
  {
    hide Shard, LocksOk, Apart, CheckState;
    match e
    case CheckLimit(th, now) => CheckRemembers(w.memory, w.sends[th].account, w.sends[th].clientId, now, a, c);
    case Reopen(th) => ForgetRemembers(w.memory, w.sends[th].account, w.sends[th].clientId, a, c);
    case Tidy(now) => TidyRemembers(w.memory, now, a, c);
    case _ =>
  }

  lemma {:induction false} RunRemembers(w: World, es: seq<Event>, a: Account, c: ClientId)
    requires Inv(w) && ValidRun(w, es) && Unchecked(w, es, a, c) && NonePast(w, a, c)
    ensures var t, was := Run(w, es), Remembered(w.memory, a, c);
            && t.tidied >= w.tidied
            && (was.None? ==> Remembered(t.memory, a, c).None?)
            && (was.Some? && was.value > t.tidied ==> Remembered(t.memory, a, c) == was)
    decreases |es|
  {
    hide Inv, NonePast, Enabled, Next;
    if es != [] {
      StepKeepsInv(w, es[0]);
      StepRemembers(w, es[0], a, c);
      RunRemembers(Next(w, es[0]), es[1..], a, c);
    }
  }

  lemma EndingFreesTheId(w: World, th: Thread, e: Event)
    requires Inv(w) && (e == Abandon(th) || e == Reopen(th)) && Enabled(w, e)
    ensures var s, t := w.sends[th], Next(w, e);
            && NonePast(t, s.account, s.clientId) && t.tidied == w.tidied
            && Remembered(t.memory, s.account, s.clientId)
               == if e.Abandon? then Remembered(w.memory, s.account, s.clientId) else None
  {
    var s := w.sends[th];
    assert PastOk(w, th);
    ForgetRemembers(w.memory, s.account, s.clientId, s.account, s.clientId);
    forall x | x in w.sends && x != th && w.sends[x].account == s.account && w.sends[x].clientId == s.clientId
      ensures !Past(w.sends[x].stage)
    {
      assert ShardOf(w.sends[x]) == ShardOf(s);
    }
  }

  /**
    A send that ends without a message, followed by any run that does not check its client id: still within the
    lifetime, the client id is then answered as a duplicate if and only if the send was abandoned. Turned away for
    lack of room, it may be tried again.
   */
  lemma DuplicateWithoutMessageIff(w: World, th: Thread, e: Event, es: seq<Event>, now: Instant)
    requires Inv(w) && (e == Abandon(th) || e == Reopen(th)) && Enabled(w, e) && ValidRun(Next(w, e), es)
    requires Unchecked(Next(w, e), es, w.sends[th].account, w.sends[th].clientId)
    requires SendClock(w, th) <= now < w.sends[th].stage.at + DEDUP_TTL && Run(Next(w, e), es).tidied <= now
    ensures var s := w.sends[th];
            CheckState(StateOf(Run(Next(w, e), es).memory, s.account), s.clientId, now).1 == DUPLICATE <==> e.Abandon?
  {
    hide Unchecked, NonePast, Next, ValidRun;
    var s := w.sends[th];
    assert PastOk(w, th);
    EndingFreesTheId(w, th, e);
    StepKeepsInv(w, e);
    RunRemembers(Next(w, e), es, s.account, s.clientId);
  }

  // ---- the lock is free once a send is over ----

  ghost predicate LocksExact(w: World) {
    forall n :: n in w.holders ==>
      w.holders[n] in w.sends && Holding(w.sends[w.holders[n]].stage) && ShardOf(w.sends[w.holders[n]]) == n
  }

  lemma StepKeepsLocksExact(w: World, e: Event)
    requires LocksOk(w) && LocksExact(w) && Enabled(w, e)
    ensures LocksExact(Next(w, e))
  {
    hide Shard, CheckState, MemoryNext;
  }

  lemma {:induction false} RunKeepsLocksExact(w: World, es: seq<Event>)
    requires Inv(w) && LocksExact(w) && ValidRun(w, es)
    ensures Inv(Run(w, es)) && LocksExact(Run(w, es))
    decreases |es|
  {
    hide LocksExact, Enabled, Next, Apart, AllCovered, PastOk;
    if es != [] {
      StepKeepsInv(w, es[0]);
      StepKeepsLocksExact(w, es[0]);
      RunKeepsLocksExact(Next(w, es[0]), es[1..]);
    }
  }

  /** The next step of a send that holds its shard, whatever the queue and the database answer. */
  function NextStep(w: World, th: Thread): Event
    requires th in w.sends
  {
    match w.sends[th].stage
    case Locked => CheckLimit(th, SendClock(w, th))
    case Admitted(_) => Accept(th)
    case Rejected(_) => Reopen(th)
    case _ => Acquire(th)
  }

  /**
    Nobody waits for nothing: after every run a shard is held exactly by a send between its lock and its outcome,
    and a waiting send either gets its shard or waits for one that can go on.
   */
  lemma NoDeadlock(m: Memory, t: Instant, es: seq<Event>, th: Thread)
    requires ValidRun(World(m, map[], map[], [], map[], t), es)
    ensures var w := Run(World(m, map[], map[], [], map[], t), es);
            && LocksOk(w) && LocksExact(w)
            && (th in w.sends && w.sends[th].stage == Waiting ==>
                  var n := ShardOf(w.sends[th]);
                  if n in w.holders then w.holders[n] in w.sends && Enabled(w, NextStep(w, w.holders[n]))
                  else Enabled(w, Acquire(th)))
  {
    hide Shard, Apart, AllCovered, PastOk;
    FreshInv(m, t);
    RunKeepsLocksExact(World(m, map[], map[], [], map[], t), es);
  }

  lemma FreshInv(m: Memory, t: Instant)
    ensures Inv(World(m, map[], map[], [], map[], t)) && LocksExact(World(m, map[], map[], [], map[], t))
  {}

  // ---- a send has one outcome ----

  ghost predicate Ends(w: World, e: Event, th: Thread) {
    || e == Accept(th) || e == Abandon(th) || e == Reopen(th)
    || (e.CheckLimit? && e.th == th && th in w.sends && !Admits(w, th, e.now))
  }

  /** Once a send is accepted, abandoned, refused or turned away it never takes another step, and its shard is free. */
  lemma OutcomeIsFinal(w: World, e: Event, es: seq<Event>, th: Thread)
    requires Enabled(w, e) && Ends(w, e, th) && ValidRun(Next(w, e), es)
    ensures ShardOf(w.sends[th]) !in Next(w, e).holders
    ensures var t := Run(Next(w, e), es);
            th in t.sends && t.sends[th] == Send(w.sends[th].account, w.sends[th].clientId, Finished)
  {
    hide Shard, CheckState;
    FinishedStays(Next(w, e), es, th);
  }

  lemma StepKeepsFinished(w: World, e: Event, th: Thread)
    requires Enabled(w, e) && th in w.sends && w.sends[th].stage == Finished
    ensures th in Next(w, e).sends && Next(w, e).sends[th] == w.sends[th]
  {
    hide Shard, CheckState, MemoryNext;
  }

  lemma {:induction false} FinishedStays(w: World, es: seq<Event>, th: Thread)
    requires ValidRun(w, es) && th in w.sends && w.sends[th].stage == Finished
    ensures th in Run(w, es).sends && Run(w, es).sends[th] == w.sends[th]
    decreases |es|
  {
    hide Next, Enabled;
    if es != [] {
      StepKeepsFinished(w, es[0], th);
      FinishedStays(Next(w, es[0]), es[1..], th);
    }
  }

  // Turned away, or over since then.
  predicate OutOfRoom(w: World, th: Thread) {
    th in w.sends && (w.sends[th].stage.Rejected? || w.sends[th].stage == Finished)
  }

  lemma StepKeepsOutOfRoom(w: World, e: Event, th: Thread)
    requires Enabled(w, e) && OutOfRoom(w, th)
    ensures OutOfRoom(Next(w, e), th) && e != Accept(th) && e != Abandon(th)
  {
    hide Shard, CheckState, MemoryNext;
  }

  lemma {:induction false} NeverAccepted(w: World, es: seq<Event>, th: Thread)
    requires ValidRun(w, es) && OutOfRoom(w, th)
    ensures Accept(th) !in es && Abandon(th) !in es
    decreases |es|
  {
    hide Next, Enabled, OutOfRoom;
    if es != [] {
      StepKeepsOutOfRoom(w, es[0], th);
      NeverAccepted(Next(w, es[0]), es[1..], th);
    }
  }

  /** A send turned away by a full queue is never accepted: all it still does is to reopen its client id. */
  lemma TurnedAwayOnlyReopens(w: World, es: seq<Event>, th: Thread)
    requires Enabled(w, TurnAway(th)) && ValidRun(Next(w, TurnAway(th)), es)
    ensures Accept(th) !in es && Abandon(th) !in es && Enabled(Next(w, TurnAway(th)), Reopen(th))
  {
    hide Shard, CheckState, MemoryNext;
    NeverAccepted(Next(w, TurnAway(th)), es, th);
  }

  function Acceptance(w: World, e: Event): seq<Sent>
    requires Enabled(w, e)
  {
    match e
    case Accept(th) => [Sent(w.sends[th].account, w.sends[th].clientId, w.sends[th].stage.at)]
    case _ => []
  }

  /** The messages accepted in a run, read off its events: who sent them, under which client id, checked when. */
  function Acceptances(w: World, es: seq<Event>): seq<Sent>
    requires ValidRun(w, es)
    decreases |es|
  {
    if es == [] then [] else Acceptance(w, es[0]) + Acceptances(Next(w, es[0]), es[1..])
  }

  function LimiterStep(w: World, e: Event): seq<MemoryLimiter.Event>
    requires Enabled(w, e)
  {
    match e
    case CheckLimit(th, now) => [Check(w.sends[th].account, w.sends[th].clientId, now)]
    case Reopen(th) => [Forget(w.sends[th].account, w.sends[th].clientId)]
    case Tidy(now) => [Cleanup(now)]
    case _ => []
  }

  /** The limiter's part of a run. */
  function LimiterSteps(w: World, es: seq<Event>): seq<MemoryLimiter.Event>
    requires ValidRun(w, es)
    decreases |es|
  {
    if es == [] then [] else LimiterStep(w, es[0]) + LimiterSteps(Next(w, es[0]), es[1..])
  }

  lemma StepHistory(w: World, e: Event)
    requires Enabled(w, e)
    ensures Next(w, e).accepted == w.accepted + Acceptance(w, e)
    ensures Next(w, e).memory == MemoryRun(w.memory, LimiterStep(w, e))
  {
    hide Shard, CheckState, MemoryNext;
    if LimiterStep(w, e) != [] { assert LimiterStep(w, e)[1..] == []; }
  }

  lemma {:induction false} MemoryRunConcat(m: Memory, es: seq<MemoryLimiter.Event>, fs: seq<MemoryLimiter.Event>)
    ensures MemoryRun(m, es + fs) == MemoryRun(MemoryRun(m, es), fs)
    decreases |es|
  {
    hide MemoryNext;
    if es == [] {
      assert es + fs == fs;
    } else {
      assert (es + fs)[1..] == es[1..] + fs;
      MemoryRunConcat(MemoryNext(m, es[0]), es[1..], fs);
    }
  }

  /** The history holds exactly what was accepted, and the limiter has taken exactly its own steps. */
  lemma {:induction false} HistoryIs(w: World, es: seq<Event>)
    requires ValidRun(w, es)
    ensures Run(w, es).accepted == w.accepted + Acceptances(w, es)
    ensures Run(w, es).memory == MemoryRun(w.memory, LimiterSteps(w, es))
    decreases |es|
  {
    hide Next, Enabled, Acceptance, LimiterStep;
    if es != [] {
      StepHistory(w, es[0]);
      HistoryIs(Next(w, es[0]), es[1..]);
      MemoryRunConcat(w.memory, LimiterStep(w, es[0]), LimiterSteps(Next(w, es[0]), es[1..]));
    }
  }

  // ---- the hash ----

  lemma FnvStep(text: string, hash: bv32, next: bv32)
    requires text != "" && Mixed(hash, text[0]) == next
    ensures Fnv(text, hash) == Fnv(text[1..], next)
  {}

  /** The published value of the 32-bit FNV-1a hash of one letter. */
  lemma FnvVector()
    ensures Fnv("a", 0x811c9dc5) == 0xe40c292c
  {
    FnvStep("a", 0x811c9dc5, 0xe40c292c);
  }

  /** A send's shard is the hash of both its names, the account first and a zero between them, modulo 64. */
  lemma ShardVectors(stage: Stage)
    ensures ShardOf(Send("a", "", stage)) == 4 && ShardOf(Send("", "a", stage)) == 26
  {
    assert "a" + "\0" + "" == "a\0" && "" + "\0" + "a" == "\0a";
    FnvStep("a\0", 0x811c9dc5, 0xe40c292c);
    FnvStep("\0", 0xe40c292c, 0x2b24d044);
    FnvStep("\0a", 0x811c9dc5, 0x50c5d1f);
    FnvStep("a", 0x50c5d1f, 0x70772d5a);
  }

  // ---- a send that is answered as sent although nothing was ever accepted ----

  const START: World := World(map[], map[], map[], [], map[], 0)

  /** A first send to a blocked pair, then the same send again: a duplicate of nothing. */
  lemma DuplicateOfNothing()
    ensures var es := [Start(1, "ann", "client-1"), Acquire(1), CheckLimit(1, 0), Abandon(1)];
            var w := Run(START, es);
            && Inv(START) && ValidRun(START, es) && w.accepted == []
            && CheckState(StateOf(w.memory, "ann"), "client-1", 1).1 == DUPLICATE
  {
    FreshInv(map[], 0);
    hide Fnv, Shard, LocksOk, PastOk, Apart, AllCovered, SentCovered, Covered, LocksExact;
    var w1 := Next(START, Start(1, "ann", "client-1"));
    var w2 := Next(w1, Acquire(1));
    assert Recent([], 0) + [0] == [0];
    var w3 := Next(w2, CheckLimit(1, 0));
    var w4 := Next(w3, Abandon(1));
    RunOne(w3, Abandon(1), []);
    RunOne(w2, CheckLimit(1, 0), [Abandon(1)]);
    RunOne(w1, Acquire(1), [CheckLimit(1, 0), Abandon(1)]);
    RunOne(START, Start(1, "ann", "client-1"), [Acquire(1), CheckLimit(1, 0), Abandon(1)]);
  }

  lemma RunOne(w: World, e: Event, es: seq<Event>)
    requires Enabled(w, e) && ValidRun(Next(w, e), es)
    ensures ValidRun(w, [e] + es) && Run(w, [e] + es) == Run(Next(w, e), es)
  {
    assert ([e] + es)[1..] == es;
  }
}
