/** What the write-behind path promises about single messages: kept, ordered, deleted for good, written once. */
module Delivery {
  import opened Common
  import opened MessageDb
  import opened Pending
  import opened WriteBehind
  import opened WriteThrough

  // ---- conservation ----

  ghost predicate Reachable(cfg: Config, s0: State, es: seq<Event>, s: State) {
    Init(s0) && ValidRun(cfg, s0, es) && s == Run(cfg, s0, es)
  }

  lemma ReachableInv(cfg: Config, s0: State, es: seq<Event>, s: State)
    requires Reachable(cfg, s0, es, s)
    ensures Inv(cfg, s) && Refines(s, ThroughRun(cfg, s0, ThroughInit(s0.db), es))
  {
    InitInv(cfg, s0);
    RunRefines(cfg, s0, ThroughInit(s0.db), es);
  }

  lemma EntryIff(cfg: Config, s: State, id: MessageId)
    requires Inv(cfg, s)
    ensures HasAny(s.data, id) <==> JobIn(Jobs(s), id) && !ForEveryone(Tombstone(s.db, id))
  {
    if HasAny(s.data, id) {
      var c :| c in s.data && Has(s.data[c], id);
      var i :| 0 <= i < |s.data[c]| && s.data[c][i].id == id;
      ListedSource(s, c, s.data[c][i]);
    }
    if JobIn(Jobs(s), id) && !ForEveryone(Tombstone(s.db, id)) {
      var j :| j in Jobs(s) && j.id == id;
      var v := Render(j, Tombstone(s.db, id));
      ListedSource(s, j.conversation, v);
      var list := Listed(s.data, j.conversation);
      var i :| 0 <= i < |list| && list[i] == v;
      assert Has(s.data[j.conversation], id);
    }
  }

  /**
    Nothing accepted is lost and nothing is kept in RAM without a writer: every known message has a
    row, or waits in RAM with a job that will write it, or was deleted for everyone; and an entry
    waits in RAM exactly while its job is unfinished and not deleted for everyone.
   */
  lemma Conservation(cfg: Config, s0: State, es: seq<Event>, s: State, id: MessageId)
    requires Reachable(cfg, s0, es, s)
    ensures HasAny(s.data, id) <==> JobIn(Jobs(s), id) && !ForEveryone(Tombstone(s.db, id))
    ensures id in s.authors ==> id in s.db.rows || HasAny(s.data, id) || ForEveryone(Tombstone(s.db, id))
    ensures forall r :: s.db.receipts[(id, r)] <= (if id in s.db.rows then 1 else 0)
  {
    ReachableInv(cfg, s0, es, s);
    EntryIff(cfg, s, id);
    var w := ThroughRun(cfg, s0, ThroughInit(s0.db), es);
    if id in s.authors && id !in s.db.rows && !JobIn(Jobs(s), id) {
      assert id in w.rows && w.rows[id].deleted == Tombstone(s.db, id);
    }
  }

  // ---- the deletion handler's lookup ----

  ghost predicate LookupFinds(s: State, id: MessageId, sender: Account) {
    if id in s.db.rows then s.db.rows[id].sender == sender
    else exists c, v :: v in Listed(s.data, c) && v.id == id && v.sender == sender
  }

  /** A sender found by the two-place lookup may act at once or after any further steps. */
  lemma LookupAuthorizes(cfg: Config, s: State, id: MessageId, sender: Account, es: seq<Event>, mode: Mode)
    requires Inv(cfg, s) && LookupFinds(s, id, sender) && ValidRun(cfg, s, es)
    ensures Enabled(Run(cfg, s, es), Delete(sender, id, mode))
  {
    if id !in s.db.rows {
      var c, v :| v in Listed(s.data, c) && v.id == id && v.sender == sender;
      ListedSource(s, c, v);
    }
    AuthorsStay(cfg, s, es, id);
  }

  lemma {:induction false} AuthorsStay(cfg: Config, s: State, es: seq<Event>, id: MessageId)
    requires id in s.authors && ValidRun(cfg, s, es)
    ensures id in Run(cfg, s, es).authors && Run(cfg, s, es).authors[id] == s.authors[id]
    decreases |es|
  {
    if es != [] {
      AuthorsStay(cfg, Next(cfg, s, es[0]), es[1..], id);
    }
  }

  // ---- deletions are final ----

  lemma {:induction false} MarksGrow(cfg: Config, s: State, es: seq<Event>, id: MessageId)
    requires id in s.db.tombstones && ValidRun(cfg, s, es)
    ensures id in Run(cfg, s, es).db.tombstones
    ensures ForEveryone(Tombstone(s.db, id)) ==> ForEveryone(Tombstone(Run(cfg, s, es).db, id))
    decreases |es|
  {
    if es != [] {
      MarksGrow(cfg, Next(cfg, s, es[0]), es[1..], id);
    }
  }

  /**
    After a deletion by the sender, whatever follows, no account ever sees the message's text again;
    after a deletion for everyone no account sees the message at all and RAM never holds it again.
   */
  lemma DeletionIsFinal(
      cfg: Config, s0: State, before: seq<Event>, s: State, account: Account, id: MessageId, mode: Mode,
      after: seq<Event>, a: Account, c: Conversation, v: View)
    requires Reachable(cfg, s0, before, s) && Enabled(s, Delete(account, id, mode))
    requires ValidRun(cfg, Next(cfg, s, Delete(account, id, mode)), after)
    ensures var t := Run(cfg, Next(cfg, s, Delete(account, id, mode)), after);
            && (v in Visible(t, a, c) && v.id == id ==> v.body == None && v.deleted)
            && (mode == Everyone ==> !HasAny(t.data, id))
            && (mode == Everyone && v in Visible(t, a, c) ==> v.id != id)
  {
    var d := Next(cfg, s, Delete(account, id, mode));
    ReachableInv(cfg, s0, before, s);
    StepKeepsInv(cfg, s, Delete(account, id, mode));
    RunKeepsInv(cfg, d, after);
    var t := Run(cfg, d, after);
    MarksGrow(cfg, d, after, id);
    EntryIff(cfg, t, id);
    if v in Visible(t, a, c) && v.id == id {
      if v !in Seen(t.db.rows, t.db.hidden, a, c) {
        ListedSource(t, c, v);
      }
    }
  }

  // ---- an accepted message stays readable ----

  ghost predicate Untouched(es: seq<Event>, id: MessageId, a: Account) {
    forall e :: e in es ==> !(e.Delete? && e.id == id) && !(e.HideRow? && e.id == id && e.account == a)
  }

  lemma {:induction false} UntouchedStays(cfg: Config, s: State, w: Through, es: seq<Event>, id: MessageId, a: Account)
    requires ValidRun(cfg, s, es) && Untouched(es, id, a) && id in s.authors && id in w.rows
    ensures var w' := ThroughRun(cfg, s, w, es);
            && id in w'.rows && w'.rows[id] == w.rows[id]
            && ((a, id) in w'.requested ==> (a, id) in w.requested)
    decreases |es|
  {
    if es != [] {
      var e := es[0];
      assert e in es;
      assert forall x :: x in es[1..] ==> x in es;
      UntouchedStays(cfg, Next(cfg, s, e), ThroughNext(w, e, Admitted(cfg, s, e)), es[1..], id, a);
    }
  }

  /**
    From the moment it is accepted, and through every later step including failed, repeated and
    unreported writes, a message nobody deletes is shown, exactly as it was sent and with the time it was
    stamped with, to every account that did not hide it.
   */
  lemma AcceptedStaysVisible(
      cfg: Config, s0: State, before: seq<Event>, s: State, job: Job, clock: Instant, after: seq<Event>, a: Account)
    requires Reachable(cfg, s0, before, s) && Fresh(s, job.id) && HasRoom(cfg, s)
    requires ValidRun(cfg, Next(cfg, s, Accept(job, clock)), after) && Untouched(after, job.id, a)
    ensures var t := Run(cfg, Next(cfg, s, Accept(job, clock)), after);
            View(job.id, job.clientId, job.conversation, job.sender, Some(job.body), Stamp(s, clock), false)
            in Visible(t, a, job.conversation)
  {
    var e := Accept(job, clock);
    var w := ThroughRun(cfg, s0, ThroughInit(s0.db), before);
    ReachableInv(cfg, s0, before, s);
    StepKeepsInv(cfg, s, e);
    StepRefines(cfg, s, w, e);
    var s1, w1 := Next(cfg, s, e), ThroughNext(w, e, Admitted(cfg, s, e));
    RunRefines(cfg, s1, w1, after);
    UntouchedStays(cfg, s1, w1, after, job.id, a);
    var t, w' := Run(cfg, s1, after), ThroughRun(cfg, s1, w1, after);
    NothingMissing(cfg, t, w', a, job.conversation, Render(job.(createdAt := Stamp(s, clock)), None));
  }

  // A mark changes nothing in a row but its text and itself.
  lemma {:induction false} RowStaysAsSent(cfg: Config, s: State, w: Through, es: seq<Event>, j: Job)
    requires Inv(cfg, s) && Refines(s, w) && ValidRun(cfg, s, es)
    requires j.id in s.authors && j.id in w.rows && TellsJob(w.rows[j.id], j, w.rows[j.id].deleted)
    ensures var w' := ThroughRun(cfg, s, w, es);
            j.id in w'.rows && TellsJob(w'.rows[j.id], j, w'.rows[j.id].deleted)
    decreases |es|
  {
    hide Inv, Refines;
    if es != [] {
      var e := es[0];
      StepKeepsInv(cfg, s, e);
      StepRefines(cfg, s, w, e);
      AuthorsStay(cfg, s, [e], j.id);
      RowStaysAsSent(cfg, Next(cfg, s, e), ThroughNext(w, e, Admitted(cfg, s, e)), es[1..], j);
    }
  }

  /**
    Whoever sees an accepted message, at any later time and whatever was deleted or hidden, sees it as it was sent:
    in its conversation, under its sender, client id and timestamp, and with its very text unless it has been
    retracted, in which case it is shown as deleted and without text.
   */
  lemma ShownAsSent(
      cfg: Config, s0: State, before: seq<Event>, s: State, job: Job, clock: Instant, after: seq<Event>,
      a: Account, c: Conversation, v: View)
    requires Reachable(cfg, s0, before, s) && Fresh(s, job.id) && HasRoom(cfg, s)
    requires ValidRun(cfg, Next(cfg, s, Accept(job, clock)), after)
    ensures var t := Run(cfg, Next(cfg, s, Accept(job, clock)), after);
            v in Visible(t, a, c) && v.id == job.id ==>
              && c == job.conversation && Tombstone(t.db, job.id) != Some(Everyone)
              && var live := Tombstone(t.db, job.id) == None;
                 v == View(job.id, job.clientId, c, job.sender, if live then Some(job.body) else None,
                           Stamp(s, clock), !live)
  {
    var e := Accept(job, clock);
    var w := ThroughRun(cfg, s0, ThroughInit(s0.db), before);
    ReachableInv(cfg, s0, before, s);
    StepKeepsInv(cfg, s, e);
    StepRefines(cfg, s, w, e);
    var s1, w1 := Next(cfg, s, e), ThroughNext(w, e, Admitted(cfg, s, e));
    RunRefines(cfg, s1, w1, after);
    RowStaysAsSent(cfg, s1, w1, after, job.(createdAt := Stamp(s, clock)));
    var t, w' := Run(cfg, s1, after), ThroughRun(cfg, s1, w1, after);
    if v in Visible(t, a, c) && v.id == job.id {
      NothingExtra(cfg, t, w', a, c, v);
      assert Marked(t.db, w');
    }
  }

  // ---- order ----

  /** Rows this process wrote are older than every waiting job, and last_message is the newest of them. */
  ghost predicate OrderOk(base: set<MessageId>, s: State) {
    && (forall id :: id in s.db.rows && id !in base ==> s.db.rows[id].createdAt <= s.lastCreatedAt)
    && (forall id, j :: id in s.db.rows && id !in base && j in Jobs(s) && j.id != id ==>
          s.db.rows[id].createdAt < j.createdAt)
    && (forall id :: id in s.db.rows && id !in base ==> NewestIs(base, s.db, id))
    && (forall j :: j in Jobs(s) ==> j.id !in base)
    && base <= s.db.rows.Keys
  }

  ghost predicate NewestIs(base: set<MessageId>, db: Db, id: MessageId)
    requires id in db.rows
  {
    var c := db.rows[id].conversation;
    && c in db.lastMessage && db.lastMessage[c] in db.rows && db.lastMessage[c] !in base
    && db.rows[db.lastMessage[c]].conversation == c
    && db.rows[db.lastMessage[c]].createdAt >= db.rows[id].createdAt
  }

  lemma PersistOrder(cfg: Config, base: set<MessageId>, s: State, members: set<Account>)
    requires Inv(cfg, s) && OrderOk(base, s) && s.inflight.Some?
    ensures OrderOk(base, s.(db := PersistTx(s.db, s.inflight.value, members)))
  {
    var j := s.inflight.value;
    var t := s.(db := PersistTx(s.db, j, members));
    assert Jobs(t) == Jobs(s) && Jobs(s)[0] == j;
    assert j in Jobs(s);
    if t.db != s.db {
      forall q | q in Jobs(s) && q.id != j.id ensures j.createdAt < q.createdAt {
        var i :| 0 <= i < |Jobs(s)| && Jobs(s)[i] == q;
      }
      forall id | id in t.db.rows && id !in base ensures NewestIs(base, t.db, id) {
        if id != j.id { assert NewestIs(base, s.db, id); }
      }
    }
  }

  lemma AttemptOrder(
      cfg: Config, base: set<MessageId>, s: State, members: set<Account>, committed: bool, reported: bool)
    requires Inv(cfg, s) && OrderOk(base, s) && s.inflight.Some?
    ensures OrderOk(base, Next(cfg, s, Attempt(members, committed, reported)))
  {
    hide Inv, PersistTx, NewestIs;
    var t := if committed then s.(db := PersistTx(s.db, s.inflight.value, members)) else s;
    if committed { PersistOrder(cfg, base, s, members); }
    if reported {
      assert Jobs(Settled(t, s.inflight.value)) == Jobs(t)[1..];
      assert forall q :: q in Jobs(t)[1..] ==> q in Jobs(t);
    }
  }

  lemma StepKeepsOrder(cfg: Config, base: set<MessageId>, s: State, e: Event)
    requires Inv(cfg, s) && OrderOk(base, s) && Enabled(s, e)
    ensures OrderOk(base, Next(cfg, s, e))
  {
    match e
    case Accept(job, clock) =>
    case Take => TakeKeepsInv(cfg, s);
    case Attempt(members, committed, reported) => AttemptOrder(cfg, base, s, members, committed, reported);
    case HideRow(_, _) => assert Jobs(Next(cfg, s, e)) == Jobs(s);
    case HideEntry(_, _) => assert Jobs(Next(cfg, s, e)) == Jobs(s);
    case Delete(account, id, mode) => MarkOrder(base, s, account, id, mode, Next(cfg, s, e).data);
  }

  lemma MarkOrder(base: set<MessageId>, s: State, account: Account, id: MessageId, mode: Mode, data: Lists)
    requires OrderOk(base, s)
    ensures OrderOk(base, s.(db := MarkTx(s.db, account, id, mode), data := data))
  {}

  lemma {:induction false} RunKeepsOrder(cfg: Config, base: set<MessageId>, s: State, es: seq<Event>)
    requires Inv(cfg, s) && OrderOk(base, s) && ValidRun(cfg, s, es)
    ensures OrderOk(base, Run(cfg, s, es))
    decreases |es|
  {
    if es != [] {
      StepKeepsInv(cfg, s, es[0]);
      StepKeepsOrder(cfg, base, s, es[0]);
      RunKeepsOrder(cfg, base, Next(cfg, s, es[0]), es[1..]);
    }
  }

  /**
    For any clock at all, even one running backwards: accepted timestamps strictly increase along
    the worker's order, every RAM list is that order restricted to its conversation, rows appear in
    acceptance order, and last_message is the newest row this process wrote to the conversation.
   */
  lemma QueueOrder(cfg: Config, s0: State, es: seq<Event>, s: State, c: Conversation)
    requires Reachable(cfg, s0, es, s)
    ensures Ordered(Jobs(s)) && OrderOk(s0.db.rows.Keys, s)
    ensures Listed(s.data, c) == Rendered(Jobs(s), c, s.db.tombstones)
  {
    InitInv(cfg, s0);
    assert OrderOk(s0.db.rows.Keys, s0);
    RunKeepsOrder(cfg, s0.db.rows.Keys, s0, es);
    ReachableInv(cfg, s0, es, s);
  }

  // ---- the RAM counter ----

  function LiveJobs(jobs: seq<Job>, tombs: map<MessageId, Mode>): nat {
    if jobs == [] then 0
    else (if ForEveryone(MarkIn(tombs, jobs[0].id)) then 0 else 1) + LiveJobs(jobs[1..], tombs)
  }

  lemma {:induction false} LiveAppend(jobs: seq<Job>, job: Job, tombs: map<MessageId, Mode>)
    ensures LiveJobs(jobs + [job], tombs) == LiveJobs(jobs, tombs) + LiveJobs([job], tombs)
  {
    if jobs == [] {
      assert jobs + [job] == [job];
    } else {
      assert (jobs + [job])[1..] == jobs[1..] + [job];
      LiveAppend(jobs[1..], job, tombs);
    }
  }

  lemma {:induction false} LiveMark(jobs: seq<Job>, tombs: map<MessageId, Mode>, id: MessageId, mode: Mode)
    requires Ordered(jobs)
    requires mode == Everyone || !ForEveryone(MarkIn(tombs, id))
    ensures LiveJobs(jobs, tombs[id := mode]) == LiveJobs(jobs, tombs)
              - (if JobIn(jobs, id) && mode == Everyone && !ForEveryone(MarkIn(tombs, id)) then 1 else 0)
  {
    if jobs != [] {
      LiveMark(jobs[1..], tombs, id, mode);
      if jobs[0].id == id {
        assert JobIn(jobs, id) && !JobIn(jobs[1..], id);
      } else {
        assert JobIn(jobs, id) <==> JobIn(jobs[1..], id) by {
          assert forall i :: 0 < i < |jobs| ==> jobs[i] == jobs[1..][i - 1];
          assert forall i :: 0 <= i < |jobs[1..]| ==> jobs[1..][i] == jobs[i + 1];
        }
      }
    }
  }

  lemma AcceptCount(s: State, j: Job)
    requires Fresh(s, j.id) && Total(s.data) == LiveJobs(Jobs(s), s.db.tombstones)
    ensures var t := Stored(s, j); Total(t.data) == LiveJobs(Jobs(t), t.db.tombstones)
  {
    var t := Stored(s, j);
    assert Jobs(t) == Jobs(s) + [j];
    LiveAppend(Jobs(s), j, s.db.tombstones);
    TotalUpdate(s.data, j.conversation, t.data[j.conversation]);
    assert t.data == WithList(s.data, j.conversation, t.data[j.conversation]);
  }

  lemma DeleteCount(cfg: Config, s: State, account: Account, id: MessageId, mode: Mode)
    requires Inv(cfg, s) && Total(s.data) == LiveJobs(Jobs(s), s.db.tombstones)
    ensures var t := Next(cfg, s, Delete(account, id, mode)); Total(t.data) == LiveJobs(Jobs(s), t.db.tombstones)
  {
    var t := Next(cfg, s, Delete(account, id, mode));
    ExactListsOk(s);
    DeleteTotal(s.data, id);
    EntryIff(cfg, s, id);
    match mode
    case Everyone => LiveMark(Jobs(s), s.db.tombstones, id, Everyone);
    case Retracted =>
      if !ForEveryone(Tombstone(s.db, id)) {
        LiveMark(Jobs(s), s.db.tombstones, id, Retracted);
        assert t.db.tombstones == s.db.tombstones[id := Retracted];
      }
  }

  lemma StepKeepsCount(cfg: Config, s: State, e: Event)
    requires Inv(cfg, s) && Enabled(s, e) && Total(s.data) == LiveJobs(Jobs(s), s.db.tombstones)
    ensures var t := Next(cfg, s, e); Total(t.data) == LiveJobs(Jobs(t), t.db.tombstones)
  {
    match e
    case Accept(job, clock) =>
      if HasRoom(cfg, s) { AcceptCount(s, job.(createdAt := Stamp(s, clock))); }
    case Take => TakeKeepsInv(cfg, s);
    case Attempt(members, committed, reported) => AttemptCount(cfg, s, members, committed, reported);
    case HideRow(_, _) => assert Jobs(Next(cfg, s, e)) == Jobs(s);
    case HideEntry(_, _) => assert Jobs(Next(cfg, s, e)) == Jobs(s);
    case Delete(account, id, mode) => DeleteCount(cfg, s, account, id, mode);
  }

  lemma AttemptCount(cfg: Config, s: State, members: set<Account>, committed: bool, reported: bool)
    requires Inv(cfg, s) && s.inflight.Some? && Total(s.data) == LiveJobs(Jobs(s), s.db.tombstones)
    ensures var t := Attempted(s, s.inflight.value, members, committed, reported);
            Total(t.data) == LiveJobs(Jobs(t), t.db.tombstones)
  {
    var t := if committed then s.(db := PersistTx(s.db, s.inflight.value, members)) else s;
    assert Jobs(t) == Jobs(s) && t.db.tombstones == s.db.tombstones;
    if reported { SettleCount(s, t.db); }
  }

  lemma SettleCount(s: State, db: Db)
    requires DataExact(s) && Ordered(Jobs(s)) && s.inflight.Some?
    requires Total(s.data) == LiveJobs(Jobs(s), s.db.tombstones) && db.tombstones == s.db.tombstones
    ensures var t := Settled(s.(db := db), s.inflight.value); Total(t.data) == LiveJobs(Jobs(t), db.tombstones)
  {
    var j := s.inflight.value;
    var list := Listed(s.data, j.conversation);
    assert Jobs(s)[0] == j && Jobs(s)[1..] == s.queue;
    assert Jobs(Settled(s.(db := db), j)) == s.queue;
    assert list == Rendered(Jobs(s), j.conversation, s.db.tombstones);
    RenderedTail(Jobs(s), j.conversation, s.db.tombstones);
    TotalUpdate(s.data, j.conversation, Without(list, j.id));
  }

  lemma {:induction false} RunKeepsCount(cfg: Config, s: State, es: seq<Event>)
    requires Inv(cfg, s) && ValidRun(cfg, s, es) && Total(s.data) == LiveJobs(Jobs(s), s.db.tombstones)
    ensures var t := Run(cfg, s, es); Total(t.data) == LiveJobs(Jobs(t), t.db.tombstones)
    decreases |es|
  {
    if es != [] {
      StepKeepsInv(cfg, s, es[0]);
      StepKeepsCount(cfg, s, es[0]);
      RunKeepsCount(cfg, Next(cfg, s, es[0]), es[1..]);
    }
  }

  /**
    The RAM entry count is always the number of unfinished jobs not deleted for everyone, so each
    message is counted off exactly once even when its write is reported after its deletion.
   */
  lemma CountIsUnfinishedJobs(cfg: Config, s0: State, es: seq<Event>, s: State)
    requires Reachable(cfg, s0, es, s)
    ensures Total(s.data) == LiveJobs(Jobs(s), s.db.tombstones) <= cfg.limit
  {
    InitInv(cfg, s0);
    RunKeepsCount(cfg, s0, es);
    ReachableInv(cfg, s0, es, s);
  }
}
