/**
  The simple system the write-behind path must look like: each accepted message is a row at
  once, and each deletion changes its row at once.
 */
module WriteThrough {
  import opened Common
  import opened MessageDb
  import opened Pending
  import opened WriteBehind

  // `requested` holds the hides whose first write has happened, `done` those whose second has too.
  datatype Through = Through(
    rows: map<MessageId, Row>,
    requested: set<(Account, MessageId)>,
    done: set<(Account, MessageId)>)

  /** The message a step admits, with the timestamp it is given. */
  ghost function Admitted(cfg: Config, s: State, e: Event): Option<Job> {
    if e.Accept? && HasRoom(cfg, s) then Some(e.job.(createdAt := Stamp(s, e.clock))) else None
  }

  function Deleted(row: Row, mode: Mode): Row {
    if mode.Everyone? || !ForEveryone(row.deleted) then row.(body := None, deleted := Some(mode)) else row
  }

  function ThroughNext(w: Through, e: Event, admitted: Option<Job>): Through {
    match e
    case Accept(_, _) =>
      if admitted.Some? then w.(rows := w.rows[admitted.value.id := RowOf(admitted.value, None)]) else w
    case Take => w
    case Attempt(_, _, _) => w
    case HideRow(account, id) => w.(requested := w.requested + {(account, id)})
    case HideEntry(account, id) => w.(done := w.done + {(account, id)})
    case Delete(_, id, mode) => if id in w.rows then w.(rows := w.rows[id := Deleted(w.rows[id], mode)]) else w
  }

  function ThroughInit(db: Db): Through {
    Through(db.rows, db.hidden, db.hidden)
  }

  ghost function ThroughRun(cfg: Config, s: State, w: Through, es: seq<Event>): Through
    decreases |es|
  {
    if es == [] then w
    else ThroughRun(cfg, Next(cfg, s, es[0]), ThroughNext(w, es[0], Admitted(cfg, s, es[0])), es[1..])
  }

  /** The messages of a conversation an account sees in the simple system, given its hides. */
  function Seen(rows: map<MessageId, Row>, hides: set<(Account, MessageId)>, a: Account, c: Conversation): set<View> {
    set id | id in rows && rows[id].conversation == c && !ForEveryone(rows[id].deleted) && (a, id) !in hides
      :: ViewOf(id, rows[id])
  }

  /** The query returns a row of the conversation with all its fields, unless it is hidden or deleted for everyone. */
  lemma QueryAnswers(
      rows: map<MessageId, Row>, hides: set<(Account, MessageId)>, a: Account, c: Conversation, v: View)
    ensures v in Seen(rows, hides, a, c) <==>
            && v.id in rows && (a, v.id) !in hides
            && var row := rows[v.id];
               && row.conversation == c && row.deleted != Some(Everyone)
               && v == View(v.id, row.clientId, c, row.sender, row.body, row.createdAt, row.deleted != None)
  {}

  predicate EntryHidden(s: State, a: Account, id: MessageId) {
    id in s.hiddenIn && a in s.hiddenIn[id]
  }

  /** What the list handler can show: the account's rows, then unhidden RAM entries with no such row. */
  function Visible(s: State, a: Account, c: Conversation): set<View> {
    var rows := Seen(s.db.rows, s.db.hidden, a, c);
    rows + set v | v in Listed(s.data, c) && !EntryHidden(s, a, v.id) && (forall r :: r in rows ==> r.id != v.id)
  }

  ghost predicate HidesOk(s: State, w: Through) {
    && w.requested == s.db.hidden
    && w.done <= w.requested
    && (forall a, id :: EntryHidden(s, a, id) ==> (a, id) in w.requested)
    && (forall a, i :: 0 <= i < |Jobs(s)| && (a, Jobs(s)[i].id) in w.done ==> EntryHidden(s, a, Jobs(s)[i].id))
  }

  ghost predicate Shows(db: Db, w: Through, j: Job) {
    j.id in w.rows && w.rows[j.id] == RowOf(j, Tombstone(db, j.id))
  }

  ghost predicate Known(authors: map<MessageId, Account>, w: Through) {
    w.rows.Keys == authors.Keys && forall id :: id in w.rows ==> w.rows[id].sender == authors[id]
  }

  ghost predicate Marked(db: Db, w: Through) {
    forall id :: id in w.rows ==> w.rows[id].deleted == Tombstone(db, id)
  }

  ghost predicate Agree(db: Db, w: Through) {
    forall id :: id in db.rows ==> id in w.rows && w.rows[id] == db.rows[id]
  }

  ghost predicate AllShown(db: Db, jobs: seq<Job>, w: Through) {
    forall i :: 0 <= i < |jobs| ==> Shows(db, w, jobs[i])
  }

  // A message without a row and without a job was deleted for everyone.
  ghost predicate Accounted(db: Db, jobs: seq<Job>, w: Through) {
    forall id :: id in w.rows && id !in db.rows && !JobIn(jobs, id) ==> ForEveryone(w.rows[id].deleted)
  }

  ghost predicate RowsOk(s: State, w: Through) {
    && Known(s.authors, w) && Marked(s.db, w) && Agree(s.db, w)
    && AllShown(s.db, Jobs(s), w) && Accounted(s.db, Jobs(s), w)
  }

  ghost predicate Refines(s: State, w: Through) {
    RowsOk(s, w) && HidesOk(s, w)
  }

  lemma AcceptRows(s: State, w: Through, j: Job)
    requires RowsOk(s, w) && Fresh(s, j.id)
    ensures RowsOk(Stored(s, j), w.(rows := w.rows[j.id := RowOf(j, None)]))
  {
    var t, w' := Stored(s, j), w.(rows := w.rows[j.id := RowOf(j, None)]);
    var jobs := Jobs(s);
    assert Jobs(t) == jobs + [j];
    assert Known(t.authors, w') && Marked(t.db, w') && Agree(t.db, w');
    assert AllShown(t.db, jobs + [j], w') by {
      forall i | 0 <= i < |jobs| ensures Shows(t.db, w', jobs[i]) {
        assert Shows(s.db, w, jobs[i]);
      }
    }
    AcceptAccounted(s.db, jobs, w, j);
  }

  lemma AcceptAccounted(db: Db, jobs: seq<Job>, w: Through, j: Job)
    requires Accounted(db, jobs, w)
    ensures Accounted(db, jobs + [j], w.(rows := w.rows[j.id := RowOf(j, None)]))
  {
    assert (jobs + [j])[|jobs|] == j;
    assert forall i :: 0 <= i < |jobs| ==> (jobs + [j])[i] == jobs[i];
  }

  lemma AcceptHides(s: State, w: Through, j: Job)
    requires HidesOk(s, w) && Fresh(s, j.id)
    ensures HidesOk(Stored(s, j), w.(rows := w.rows[j.id := RowOf(j, None)]))
  {
    var t, w' := Stored(s, j), w.(rows := w.rows[j.id := RowOf(j, None)]);
    assert Jobs(t) == Jobs(s) + [j];
    forall a, i | 0 <= i < |Jobs(t)| && (a, Jobs(t)[i].id) in w'.done ensures EntryHidden(t, a, Jobs(t)[i].id) {
      if i < |Jobs(s)| { assert Jobs(t)[i] == Jobs(s)[i]; }
    }
  }

  lemma AcceptRefines(cfg: Config, s: State, w: Through, job: Job, clock: Instant)
    requires Inv(cfg, s) && Refines(s, w) && Fresh(s, job.id)
    ensures var e := Accept(job, clock);
            Refines(Next(cfg, s, e), ThroughNext(w, e, Admitted(cfg, s, e)))
  {
    if HasRoom(cfg, s) {
      var j := job.(createdAt := Stamp(s, clock));
      AcceptRows(s, w, j);
      AcceptHides(s, w, j);
    }
  }

  lemma SameJobs(s: State, w: Through, t: State)
    requires Refines(s, w) && Jobs(t) == Jobs(s)
    requires t.db == s.db && t.hiddenIn == s.hiddenIn && t.authors == s.authors
    ensures Refines(t, w)
  {}

  lemma CommitRefines(cfg: Config, s: State, w: Through, members: set<Account>)
    requires Inv(cfg, s) && Refines(s, w) && s.inflight.Some?
    ensures Refines(s.(db := PersistTx(s.db, s.inflight.value, members)), w)
  {}

  lemma SettleRefines(cfg: Config, s: State, w: Through)
    requires Inv(cfg, s) && Refines(s, w) && s.inflight.Some?
    requires s.inflight.value.id in s.db.rows || ForEveryone(Tombstone(s.db, s.inflight.value.id))
    ensures Refines(Settled(s, s.inflight.value), w)
  {
    var t := Settled(s, s.inflight.value);
    assert Jobs(t) == Jobs(s)[1..] && Jobs(s)[0] == s.inflight.value;
    forall id | id in w.rows && id !in t.db.rows && !JobIn(Jobs(t), id) ensures ForEveryone(w.rows[id].deleted) {
      assert forall i :: 0 < i < |Jobs(s)| ==> Jobs(s)[i] == Jobs(t)[i - 1];
    }
  }

  lemma AttemptRefines(cfg: Config, s: State, w: Through, members: set<Account>, committed: bool, reported: bool)
    requires Inv(cfg, s) && Refines(s, w) && s.inflight.Some? && (reported ==> committed)
    ensures Refines(Next(cfg, s, Attempt(members, committed, reported)), w)
  {
    if committed {
      var t := s.(db := PersistTx(s.db, s.inflight.value, members));
      CommitRefines(cfg, s, w, members);
      CommitKeepsInv(cfg, s, members);
      if reported { SettleRefines(cfg, t, w); }
    }
  }

  lemma HideRefines(cfg: Config, s: State, w: Through, e: Event)
    requires Refines(s, w) && Enabled(s, e) && (e.HideRow? || e.HideEntry?)
    ensures Refines(Next(cfg, s, e), ThroughNext(w, e, None))
  {
    var t, w' := Next(cfg, s, e), ThroughNext(w, e, None);
    var jobs := Jobs(s);
    assert Jobs(t) == jobs;
    assert RowsOk(t, w') by {
      assert forall i :: 0 <= i < |jobs| ==> Shows(s.db, w, jobs[i]) ==> Shows(t.db, w', jobs[i]);
    }
    assert HidesOk(t, w') by {
      forall a, i | 0 <= i < |jobs| && (a, jobs[i].id) in w'.done ensures EntryHidden(t, a, jobs[i].id) {
        assert (a, jobs[i].id) in w.done ==> EntryHidden(s, a, jobs[i].id);
      }
    }
  }

  lemma DeleteShown(db: Db, w: Through, jobs: seq<Job>, account: Account, id: MessageId, mode: Mode)
    requires AllShown(db, jobs, w) && Marked(db, w) && id in w.rows && w.rows[id].sender == account
    ensures AllShown(MarkTx(db, account, id, mode), jobs, w.(rows := w.rows[id := Deleted(w.rows[id], mode)]))
  {
    var db', w' := MarkTx(db, account, id, mode), w.(rows := w.rows[id := Deleted(w.rows[id], mode)]);
    forall i | 0 <= i < |jobs| ensures Shows(db', w', jobs[i]) {
      assert Shows(db, w, jobs[i]);
    }
  }

  lemma DeleteRows(s: State, w: Through, account: Account, id: MessageId, mode: Mode, data: Lists)
    requires RowsOk(s, w) && id in s.authors && s.authors[id] == account
    ensures RowsOk(s.(db := MarkTx(s.db, account, id, mode), data := data),
                   w.(rows := w.rows[id := Deleted(w.rows[id], mode)]))
  {
    hide AllShown, Agree;
    var db := MarkTx(s.db, account, id, mode);
    assert Jobs(s.(db := db, data := data)) == Jobs(s);
    MarkFrame(s.db, w, account, id, mode);
    DeleteShown(s.db, w, Jobs(s), account, id, mode);
  }

  lemma MarkFrame(db: Db, w: Through, account: Account, id: MessageId, mode: Mode)
    requires Agree(db, w) && Marked(db, w) && id in w.rows && w.rows[id].sender == account
    ensures var db', w' := MarkTx(db, account, id, mode), w.(rows := w.rows[id := Deleted(w.rows[id], mode)]);
            && Agree(db', w') && db'.rows.Keys == db.rows.Keys
            && w'.rows[id].deleted == Tombstone(db', id)
            && forall x :: x != id ==> Tombstone(db', x) == Tombstone(db, x)
  {}

  lemma DeleteRefines(cfg: Config, s: State, w: Through, account: Account, id: MessageId, mode: Mode)
    requires Refines(s, w) && Enabled(s, Delete(account, id, mode))
    ensures var e := Delete(account, id, mode);
            Refines(Next(cfg, s, e), ThroughNext(w, e, None))
  {
    var t := Next(cfg, s, Delete(account, id, mode));
    assert Jobs(t) == Jobs(s);
    DeleteRows(s, w, account, id, mode, t.data);
  }

  lemma StepRefines(cfg: Config, s: State, w: Through, e: Event)
    requires Inv(cfg, s) && Refines(s, w) && Enabled(s, e)
    ensures Refines(Next(cfg, s, e), ThroughNext(w, e, Admitted(cfg, s, e)))
  {
    match e
    case Accept(job, clock) => AcceptRefines(cfg, s, w, job, clock);
    case Take => TakeKeepsInv(cfg, s); SameJobs(s, w, Next(cfg, s, e));
    case Attempt(members, committed, reported) => AttemptRefines(cfg, s, w, members, committed, reported);
    case HideRow(_, _) => HideRefines(cfg, s, w, e);
    case HideEntry(_, _) => HideRefines(cfg, s, w, e);
    case Delete(account, id, mode) => DeleteRefines(cfg, s, w, account, id, mode);
  }

  lemma {:induction false} RunRefines(cfg: Config, s: State, w: Through, es: seq<Event>)
    requires Inv(cfg, s) && Refines(s, w) && ValidRun(cfg, s, es)
    ensures Inv(cfg, Run(cfg, s, es)) && Refines(Run(cfg, s, es), ThroughRun(cfg, s, w, es))
    decreases |es|
  {
    if es != [] {
      StepKeepsInv(cfg, s, es[0]);
      StepRefines(cfg, s, w, es[0]);
      RunRefines(cfg, Next(cfg, s, es[0]), ThroughNext(w, es[0], Admitted(cfg, s, es[0])), es[1..]);
    }
  }

  /** In the simple system a hide is begun by its first write and finished by its second, and never undone. */
  lemma {:induction false} HidesAre(cfg: Config, s: State, w: Through, es: seq<Event>, a: Account, id: MessageId)
    ensures var w' := ThroughRun(cfg, s, w, es);
            && ((a, id) in w'.requested <==> (a, id) in w.requested || HideRow(a, id) in es)
            && ((a, id) in w'.done <==> (a, id) in w.done || HideEntry(a, id) in es)
    decreases |es|
  {
    hide Next;
    if es != [] {
      assert forall e :: e in es <==> e == es[0] || e in es[1..];
      HidesAre(cfg, Next(cfg, s, es[0]), ThroughNext(w, es[0], Admitted(cfg, s, es[0])), es[1..], a, id);
    }
  }

  // ---- what readers see ----

  lemma NothingExtra(cfg: Config, s: State, w: Through, a: Account, c: Conversation, v: View)
    requires Inv(cfg, s) && Refines(s, w) && v in Visible(s, a, c)
    ensures v in Seen(w.rows, w.done, a, c)
  {
    if v in Seen(s.db.rows, s.db.hidden, a, c) {
      assert v.id in w.rows && w.rows[v.id] == s.db.rows[v.id];
    } else {
      ListedSource(s, c, v);
      var j :| j in Jobs(s) && j.conversation == c && !ForEveryone(Tombstone(s.db, j.id))
               && v == Render(j, Tombstone(s.db, j.id));
      var i :| 0 <= i < |Jobs(s)| && Jobs(s)[i] == j;
      assert Shows(s.db, w, Jobs(s)[i]);
    }
  }

  lemma NothingMissing(cfg: Config, s: State, w: Through, a: Account, c: Conversation, v: View)
    requires Inv(cfg, s) && Refines(s, w) && v in Seen(w.rows, w.requested, a, c)
    ensures v in Visible(s, a, c)
  {
    var id := v.id;
    assert id in w.rows && v == ViewOf(id, w.rows[id]);
    if id in s.db.rows {
      assert v in Seen(s.db.rows, s.db.hidden, a, c);
    } else {
      var i :| 0 <= i < |Jobs(s)| && Jobs(s)[i].id == id;
      var j := Jobs(s)[i];
      assert Shows(s.db, w, Jobs(s)[i]);
      assert j in Jobs(s) && v == Render(j, Tombstone(s.db, j.id));
      ListedSource(s, c, v);
      assert v in Listed(s.data, c) && !EntryHidden(s, a, id);
    }
  }

  // ---- a hide between its two writes ----

  /** The account's hide is in the database and not yet in RAM, and the message still waits in RAM. */
  function HalfHidden(s: State, a: Account, c: Conversation): set<View> {
    set v | v in Listed(s.data, c) && (a, v.id) in s.db.hidden && !EntryHidden(s, a, v.id)
  }

  lemma HalfHiddenShown(cfg: Config, s: State, w: Through, a: Account, c: Conversation, v: View)
    requires Inv(cfg, s) && Refines(s, w)
    ensures v in Visible(s, a, c) <==> v in Seen(w.rows, w.requested, a, c) || v in HalfHidden(s, a, c)
  {
    if v in Visible(s, a, c) && v !in HalfHidden(s, a, c) {
      NothingExtra(cfg, s, w, a, c, v);
    }
    if v in Seen(w.rows, w.requested, a, c) {
      NothingMissing(cfg, s, w, a, c, v);
    }
  }

  /**
    In every reachable state an account sees exactly what the simple system shows with every begun hide applied,
    and besides it the messages whose hide is half done while they wait in RAM; the two systems show the same
    messages if and only if there are none.
   */
  lemma HalfDoneHides(cfg: Config, s0: State, es: seq<Event>, a: Account, c: Conversation)
    requires Init(s0) && ValidRun(cfg, s0, es)
    ensures var s, w := Run(cfg, s0, es), ThroughRun(cfg, s0, ThroughInit(s0.db), es);
            && Visible(s, a, c) == Seen(w.rows, w.requested, a, c) + HalfHidden(s, a, c)
            && (Visible(s, a, c) == Seen(w.rows, w.requested, a, c) <==> HalfHidden(s, a, c) == {})
  {
    InitInv(cfg, s0);
    RunRefines(cfg, s0, ThroughInit(s0.db), es);
    var s, w := Run(cfg, s0, es), ThroughRun(cfg, s0, ThroughInit(s0.db), es);
    forall v ensures v in Visible(s, a, c) <==> v in Seen(w.rows, w.requested, a, c) + HalfHidden(s, a, c) {
      HalfHiddenShown(cfg, s, w, a, c, v);
    }
    assert Seen(w.rows, w.requested, a, c) !! HalfHidden(s, a, c);
  }

  const NOTHING: State := State(Db(map[], map[], {}, multiset{}, map[]), map[], map[], [], None, 0, map[])

  /** A message accepted and then hidden in the database only: the account still sees it. */
  lemma HalfHideStillShows(cfg: Config, job: Job, a: Account)
    requires cfg.capacity > 0 && cfg.limit > 0
    ensures var es := [Accept(job, 1), HideRow(a, job.id)];
            var s := Run(cfg, NOTHING, es);
            && Init(NOTHING) && ValidRun(cfg, NOTHING, es)
            && Render(job.(createdAt := 1), None) in HalfHidden(s, a, job.conversation)
  {
    var e, f := Accept(job, 1), HideRow(a, job.id);
    var s1 := Next(cfg, NOTHING, e);
    assert [e, f][1..] == [f] && [f][1..] == [];
    assert ValidRun(cfg, s1, [f]) && Run(cfg, s1, [f]) == Next(cfg, s1, f);
  }

  /**
    Write-behind looks like write-through: after every interleaving of accepts, writes, repeated
    and unreported writes, hides and deletions, an account sees everything the simple system shows
    with every begun hide applied, and nothing it does not show with every finished hide applied.
    With no hide between its two writes the two systems show exactly the same messages.
   */
  lemma WriteBehindRefinesWriteThrough(cfg: Config, s0: State, es: seq<Event>, a: Account, c: Conversation)
    requires Init(s0) && ValidRun(cfg, s0, es)
    ensures var s, w := Run(cfg, s0, es), ThroughRun(cfg, s0, ThroughInit(s0.db), es);
            && Seen(w.rows, w.requested, a, c) <= Visible(s, a, c) <= Seen(w.rows, w.done, a, c)
            && (w.requested == w.done ==> Visible(s, a, c) == Seen(w.rows, w.done, a, c))
  {
    InitInv(cfg, s0);
    RunRefines(cfg, s0, ThroughInit(s0.db), es);
    var s, w := Run(cfg, s0, es), ThroughRun(cfg, s0, ThroughInit(s0.db), es);
    forall v | v in Visible(s, a, c) ensures v in Seen(w.rows, w.done, a, c) {
      NothingExtra(cfg, s, w, a, c, v);
    }
    forall v | v in Seen(w.rows, w.requested, a, c) ensures v in Visible(s, a, c) {
      NothingMissing(cfg, s, w, a, c, v);
    }
  }
}
