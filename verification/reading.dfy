/** Listing over the live write-behind state: every page is the page of the simple write-through system. */
module Reading {
  import opened Common
  import opened MessageDb
  import opened Pending
  import opened WriteBehind
  import opened WriteThrough
  import opened Delivery
  import opened Pages
  import opened Persistence

  /** Within one conversation no two messages share a timestamp. */
  ghost predicate TimesTell(rows: map<MessageId, Row>) {
    forall i, j :: i in rows && j in rows && i != j && rows[i].conversation == rows[j].conversation ==>
      rows[i].createdAt != rows[j].createdAt
  }

  // Stored rows are no newer than the bound; everything accepted since is newer, and stamped apart.
  ghost predicate StampsOk(base: map<MessageId, Row>, bound: Instant, s: State, w: Through) {
    && w.rows.Keys == s.authors.Keys
    && (forall i :: i in base ==> i in w.rows && w.rows[i].createdAt == base[i].createdAt <= bound
                                  && w.rows[i].conversation == base[i].conversation)
    && (forall i :: i in w.rows && i !in base ==> bound < w.rows[i].createdAt <= s.lastCreatedAt)
    && (forall i, j :: i in w.rows && j in w.rows && i !in base && j !in base && i != j ==>
          w.rows[i].createdAt != w.rows[j].createdAt)
  }

  ghost predicate ClockAhead(es: seq<Event>, bound: Instant) {
    forall e :: e in es && e.Accept? ==> e.clock > bound
  }

  lemma AcceptStamps(base: map<MessageId, Row>, bound: Instant, s: State, w: Through, j: Job)
    requires StampsOk(base, bound, s, w) && Fresh(s, j.id) && j.createdAt > bound && j.createdAt > s.lastCreatedAt
    ensures StampsOk(base, bound, Stored(s, j), w.(rows := w.rows[j.id := RowOf(j, None)]))
  {
    var w' := w.(rows := w.rows[j.id := RowOf(j, None)]);
    assert w'.rows.Keys == w.rows.Keys + {j.id};
    assert j.id !in w.rows && j.id !in base;
  }

  lemma DeleteStamps(base: map<MessageId, Row>, bound: Instant, s: State, w: Through, t: State, id: MessageId, row: Row)
    requires StampsOk(base, bound, s, w) && id in w.rows && t.authors == s.authors && t.lastCreatedAt == s.lastCreatedAt
    requires row.createdAt == w.rows[id].createdAt && row.conversation == w.rows[id].conversation
    ensures StampsOk(base, bound, t, w.(rows := w.rows[id := row]))
  {
    var w' := w.(rows := w.rows[id := row]);
    assert w'.rows.Keys == w.rows.Keys;
    forall i | i in w.rows ensures w'.rows[i].createdAt == w.rows[i].createdAt
      && w'.rows[i].conversation == w.rows[i].conversation {}
  }

  lemma StepKeepsStamps(cfg: Config, base: map<MessageId, Row>, bound: Instant, s: State, w: Through, e: Event)
    requires StampsOk(base, bound, s, w) && Enabled(s, e) && (e.Accept? ==> e.clock > bound)
    ensures StampsOk(base, bound, Next(cfg, s, e), ThroughNext(w, e, Admitted(cfg, s, e)))
  {
    match e
    case Accept(job, clock) =>
      if HasRoom(cfg, s) { AcceptStamps(base, bound, s, w, job.(createdAt := Stamp(s, clock))); }
    case Delete(_, id, mode) => DeleteStamps(base, bound, s, w, Next(cfg, s, e), id, Deleted(w.rows[id], mode));
    case Take =>
    case Attempt(_, _, _) =>
    case HideRow(_, _) =>
    case HideEntry(_, _) =>
  }

  lemma {:induction false} RunKeepsStamps(
      cfg: Config, base: map<MessageId, Row>, bound: Instant, s: State, w: Through, es: seq<Event>)
    requires StampsOk(base, bound, s, w) && ValidRun(cfg, s, es) && ClockAhead(es, bound)
    ensures StampsOk(base, bound, Run(cfg, s, es), ThroughRun(cfg, s, w, es))
    decreases |es|
  {
    if es != [] {
      var e := es[0];
      assert e in es && forall x :: x in es[1..] ==> x in es;
      StepKeepsStamps(cfg, base, bound, s, w, e);
      RunKeepsStamps(cfg, base, bound, Next(cfg, s, e), ThroughNext(w, e, Admitted(cfg, s, e)), es[1..]);
    }
  }

  /** When the stored rows have distinct times and the clock is past them, times stay distinct in every run. */
  lemma TimesTellInEveryRun(cfg: Config, s0: State, es: seq<Event>, bound: Instant)
    requires Init(s0) && ValidRun(cfg, s0, es) && TimesTell(s0.db.rows)
    requires (forall id :: id in s0.db.rows ==> s0.db.rows[id].createdAt <= bound) && ClockAhead(es, bound)
    ensures TimesTell(ThroughRun(cfg, s0, ThroughInit(s0.db), es).rows)
  {
    RunKeepsStamps(cfg, s0.db.rows, bound, s0, ThroughInit(s0.db), es);
  }

  function HiddenIds(s: State, a: Account): set<MessageId> {
    set id | id in s.hiddenIn && a in s.hiddenIn[id]
  }

  lemma ViewsComeFromRows(cfg: Config, s: State, w: Through, a: Account, c: Conversation)
    requires Inv(cfg, s) && Refines(s, w) && TimesTell(w.rows)
    ensures var all := Seen(s.db.rows, s.db.hidden, a, c) + Candidates(Listed(s.data, c), HiddenIds(s, a));
            IdsAndTimesTell(all) && all == Visible(s, a, c)
  {
    var rows := Seen(s.db.rows, s.db.hidden, a, c);
    var all := rows + Candidates(Listed(s.data, c), HiddenIds(s, a));
    forall v | v in all ensures v.id in w.rows && v == ViewOf(v.id, w.rows[v.id]) && v.conversation == c {
      if v !in rows {
        ListedSource(s, c, v);
        var j :| j in Jobs(s) && j.conversation == c && v == Render(j, Tombstone(s.db, j.id));
        var i :| 0 <= i < |Jobs(s)| && Jobs(s)[i] == j;
        assert Shows(s.db, w, Jobs(s)[i]);
      }
    }
    forall v | v in all ensures v in Visible(s, a, c) {
      if v !in rows {
        assert !EntryHidden(s, a, v.id);
        assert forall r :: r in rows && r.id == v.id ==> r == v;
      }
    }
  }

  /** Asks the store about each entry; the answer serves as well as the account's whole hidden set. */
  method HiddenEntries(p: Persister, account: Account, entries: seq<View>) returns (hidden: set<MessageId>)
    ensures Candidates(entries, hidden) == Candidates(entries, HiddenIds(p.Snapshot(), account))
  {
    hidden := {};
    var n := 0;
    while n < |entries|
      invariant 0 <= n <= |entries|
      invariant forall i :: 0 <= i < n ==>
                  (entries[i].id in hidden <==> EntryHidden(p.Snapshot(), account, entries[i].id))
      invariant forall id :: id in hidden ==> EntryHidden(p.Snapshot(), account, id)
    {
      var yes := p.pending.IsHidden(account, entries[n].id);
      if yes {
        hidden := hidden + {entries[n].id};
      }
      n := n + 1;
    }
  }

  /** The list handler on the live object; `fetched` is the answer of its database query. */
  method ListMessages(
      p: Persister, account: Account, c: Conversation, before: Instant, limit: nat, fetched: seq<View>,
      ghost w: Through)
    returns (page: seq<View>, nextCursor: Option<Instant>)
    requires p.Valid() && Refines(p.Snapshot(), w) && TimesTell(w.rows)
    requires limit > 0 && IsPage(fetched, Seen(p.db.rows, p.db.hidden, account, c), before, limit)
    ensures var all := Visible(p.Snapshot(), account, c);
            && IsPage(page, all - Dropped(p.Snapshot(), account, c, fetched, before), before, limit)
            && (ClientIdsTell(all) ==> IsPage(page, all, before, limit))
    ensures nextCursor == if |page| == limit then Some(page[limit - 1].createdAt) else None
  {
    ViewsComeFromRows(p.Cfg(), p.Snapshot(), w, account, c);
    ghost var rows, all := Seen(p.db.rows, p.db.hidden, account, c), Visible(p.Snapshot(), account, c);
    var pending := p.pending.List(c);
    var hidden := HiddenEntries(p, account, pending);
    page, nextCursor := ListPage(fetched, pending, hidden, before, limit, rows);
    SameDropped(p.Snapshot(), account, c, fetched, hidden, before);
    if ClientIdsTell(all) {
      ghost var right := PageExists(all, before, limit);
      PageRightIff(fetched, rows, pending, hidden, before, limit, page, right);
    }
  }

  /** The visible messages the client-id comparison drops, read off the fetched rows and the RAM list. */
  function Dropped(s: State, a: Account, c: Conversation, fetched: seq<View>, before: Instant): set<View> {
    Lost(fetched, Seen(s.db.rows, s.db.hidden, a, c), Listed(s.data, c), HiddenIds(s, a), before)
  }

  lemma SameDropped(s: State, a: Account, c: Conversation, fetched: seq<View>, hidden: set<MessageId>, before: Instant)
    requires Candidates(Listed(s.data, c), hidden) == Candidates(Listed(s.data, c), HiddenIds(s, a))
    ensures Lost(fetched, Seen(s.db.rows, s.db.hidden, a, c), Listed(s.data, c), hidden, before)
            == Dropped(s, a, c, fetched, before)
  {
    var list := Listed(s.data, c);
    forall v | v in list ensures v.id in hidden <==> v.id in HiddenIds(s, a) {
      assert v in Candidates(list, hidden) <==> v in Candidates(list, HiddenIds(s, a));
    }
    forall n | 0 <= n < |list|
      ensures Clashes(fetched, list, hidden, before, n) <==> Clashes(fetched, list, HiddenIds(s, a), before, n)
    {
      assert forall k :: 0 <= k < n ==> list[k] in list;
    }
  }

  /**
    In every reachable state with no hide half done, a page of what the write-behind path shows is the
    page the write-through system would give.
   */
  lemma PageMatchesSimpleSystem(
      cfg: Config, s0: State, es: seq<Event>, a: Account, c: Conversation, before: Instant, limit: nat,
      page: seq<View>, simple: seq<View>)
    requires Init(s0) && ValidRun(cfg, s0, es)
    requires var w := ThroughRun(cfg, s0, ThroughInit(s0.db), es);
             w.requested == w.done && IsPage(simple, Seen(w.rows, w.done, a, c), before, limit)
    requires IsPage(page, Visible(Run(cfg, s0, es), a, c), before, limit)
    ensures page == simple
  {
    WriteBehindRefinesWriteThrough(cfg, s0, es, a, c);
    PageIsUnique(page, simple, Visible(Run(cfg, s0, es), a, c), before, limit);
  }

  // ---- the list handler reads the database first and RAM a moment later ----

  /** What the handler can show when its rows come from one state and its RAM entries from a later one. */
  function SplitRead(s: State, t: State, a: Account, c: Conversation): set<View> {
    var rows := Seen(s.db.rows, s.db.hidden, a, c);
    rows + set v | v in Listed(t.data, c) && !EntryHidden(t, a, v.id) && (forall r :: r in rows ==> r.id != v.id)
  }

  /** How many writes a run reports as done. */
  function Reports(es: seq<Event>): nat {
    if es == [] then 0 else Reported(es[0]) + Reports(es[1..])
  }

  function Reported(e: Event): nat {
    if e.Attempt? && e.reported then 1 else 0
  }

  predicate DeletesForEveryone(es: seq<Event>, id: MessageId) {
    exists i :: 0 <= i < |es| && es[i].Delete? && es[i].id == id && es[i].mode.Everyone?
  }

  predicate HidesEntry(es: seq<Event>, a: Account, id: MessageId) {
    exists i :: 0 <= i < |es| && es[i].HideEntry? && es[i].id == id && es[i].account == a
  }

  lemma ConsDeletes(es: seq<Event>, id: MessageId)
    requires es != []
    ensures DeletesForEveryone(es, id)
            <==> (es[0].Delete? && es[0].id == id && es[0].mode.Everyone?) || DeletesForEveryone(es[1..], id)
  {
    assert forall i :: 0 < i < |es| ==> es[i] == es[1..][i - 1];
    assert forall i :: 0 <= i < |es[1..]| ==> es[1..][i] == es[i + 1];
  }

  lemma ConsHides(es: seq<Event>, a: Account, id: MessageId)
    requires es != []
    ensures HidesEntry(es, a, id)
            <==> (es[0].HideEntry? && es[0].id == id && es[0].account == a) || HidesEntry(es[1..], a, id)
  {
    assert forall i :: 0 < i < |es| ==> es[i] == es[1..][i - 1];
    assert forall i :: 0 <= i < |es[1..]| ==> es[1..][i] == es[i + 1];
  }

  // The jobs after some jobs are finished from the front and others added at the back.
  ghost predicate Moved(jobs: seq<Job>, finished: nat, added: seq<Job>, later: seq<Job>) {
    finished <= |jobs| && later == jobs[finished..] + added
  }

  lemma Unmoved(jobs: seq<Job>)
    ensures Moved(jobs, 0, [], jobs)
  {}

  lemma AttemptMovesJobs(s: State, members: set<Account>, committed: bool, reported: bool)
    requires s.inflight.Some?
    ensures var t := Attempted(s, s.inflight.value, members, committed, reported);
            Moved(Jobs(s), if reported then 1 else 0, [], Jobs(t))
  {
    assert Jobs(s)[1..] == s.queue;
  }

  lemma AcceptMovesJobs(s: State, j: Job)
    ensures Moved(Jobs(s), 0, [j], Jobs(Stored(s, j)))
  {}

  lemma NothingFinished(cfg: Config, s: State, e: Event)
    requires e.HideRow? || e.HideEntry? || e.Delete?
    ensures Jobs(Next(cfg, s, e)) == Jobs(s)
  {}

  // A step finishes the first job or none, and adds only a new one.
  lemma StepMovesJobs(cfg: Config, s: State, e: Event) returns (added: seq<Job>)
    requires Inv(cfg, s) && Enabled(s, e)
    ensures Moved(Jobs(s), Reported(e), added, Jobs(Next(cfg, s, e)))
    ensures forall k :: 0 <= k < |added| ==> added[k].id !in s.authors
  {
    hide DataExact, DbOk, ReceiptsOk, Signed, Moved;
    added := [];
    Unmoved(Jobs(s));
    match e
    case Accept(job, clock) =>
      if HasRoom(cfg, s) {
        added := [job.(createdAt := Stamp(s, clock))];
        AcceptMovesJobs(s, added[0]);
      }
    case Take => TakeKeepsInv(cfg, s);
    case Attempt(members, committed, reported) => AttemptMovesJobs(s, members, committed, reported);
    case _ => NothingFinished(cfg, s, e);
  }

  lemma OldJobs(jobs: seq<Job>, n: nat, added: seq<Job>, id: MessageId)
    requires n <= |jobs| && forall k :: 0 <= k < |added| ==> added[k].id != id
    ensures JobIn(jobs[n..] + added, id) <==> exists k :: n <= k < |jobs| && jobs[k].id == id
  {
    var later := jobs[n..] + added;
    if k :| n <= k < |jobs| && jobs[k].id == id { assert later[k - n].id == id; }
    if JobIn(later, id) {
      var k :| 0 <= k < |later| && later[k].id == id;
      assert k + n < |jobs| && jobs[k + n] == later[k];
    }
  }

  lemma {:induction false} FinishedStays(cfg: Config, s: State, es: seq<Event>, id: MessageId)
    requires Inv(cfg, s) && ValidRun(cfg, s, es) && id in s.authors && !JobIn(Jobs(s), id)
    ensures !JobIn(Jobs(Run(cfg, s, es)), id)
    decreases |es|
  {
    if es != [] {
      StepKeepsInv(cfg, s, es[0]);
      var added := StepMovesJobs(cfg, s, es[0]);
      OldJobs(Jobs(s), Reported(es[0]), added, id);
      FinishedStays(cfg, Next(cfg, s, es[0]), es[1..], id);
    }
  }

  lemma FirstFinishes(cfg: Config, s: State, e: Event)
    requires Inv(cfg, s) && Enabled(s, e) && Reported(e) == 1
    ensures Jobs(s) != [] && Jobs(s)[0].id in Next(cfg, s, e).authors && !JobIn(Jobs(Next(cfg, s, e)), Jobs(s)[0].id)
  {
    var added := StepMovesJobs(cfg, s, e);
    assert Jobs(s)[0] in Jobs(s);
    OldJobs(Jobs(s), 1, added, Jobs(s)[0].id);
  }

  /** The job at place i is unfinished after a run if and only if the run reported at most i writes. */
  lemma {:induction false} UnfinishedIff(cfg: Config, s: State, es: seq<Event>, i: nat)
    requires Inv(cfg, s) && ValidRun(cfg, s, es) && i < |Jobs(s)|
    ensures Inv(cfg, Run(cfg, s, es))
    ensures JobIn(Jobs(Run(cfg, s, es)), Jobs(s)[i].id) <==> Reports(es) <= i
    ensures Reports(es) <= i ==> Jobs(s)[i] in Jobs(Run(cfg, s, es))
    decreases |es|
  {
    hide Inv, Next, Enabled, Jobs;
    if es == [] {
      assert Jobs(s)[i] in Jobs(s);
    } else {
      var e, j, n := es[0], Jobs(s)[i], Next(cfg, s, es[0]);
      StepKeepsInv(cfg, s, e);
      if Reported(e) <= i {
        var added := StepMovesJobs(cfg, s, e);
        assert Jobs(n)[i - Reported(e)] == j;
        UnfinishedIff(cfg, n, es[1..], i - Reported(e));
      } else {
        FirstFinishes(cfg, s, e);
        RunKeepsInv(cfg, n, es[1..]);
        FinishedStays(cfg, n, es[1..], j.id);
      }
    }
  }

  lemma NoEvents(es: seq<Event>, id: MessageId)
    requires es == []
    ensures !DeletesForEveryone(es, id)
  {}

  lemma StepMarks(cfg: Config, s: State, e: Event, id: MessageId)
    ensures ForEveryone(Tombstone(Next(cfg, s, e).db, id))
            <==> ForEveryone(Tombstone(s.db, id)) || (e.Delete? && e.id == id && e.mode.Everyone?)
  {}

  lemma {:induction false} MarkedIff(cfg: Config, s: State, es: seq<Event>, id: MessageId)
    requires ValidRun(cfg, s, es)
    ensures ForEveryone(Tombstone(Run(cfg, s, es).db, id))
            <==> ForEveryone(Tombstone(s.db, id)) || DeletesForEveryone(es, id)
    decreases |es|
  {
    hide Next, Enabled, DeletesForEveryone;
    if es == [] {
      assert !DeletesForEveryone(es, id) by { NoEvents(es, id); }
    } else {
      ConsDeletes(es, id);
      StepMarks(cfg, s, es[0], id);
      MarkedIff(cfg, Next(cfg, s, es[0]), es[1..], id);
    }
  }

  lemma {:induction false} EntryHiddenIff(cfg: Config, s: State, es: seq<Event>, a: Account, id: MessageId)
    requires ValidRun(cfg, s, es)
    ensures EntryHidden(Run(cfg, s, es), a, id) <==> EntryHidden(s, a, id) || HidesEntry(es, a, id)
    decreases |es|
  {
    if es != [] {
      ConsHides(es, a, id);
      EntryHiddenIff(cfg, Next(cfg, s, es[0]), es[1..], a, id);
    }
  }

  // What the split read shows under an id that the first read did not return.
  predicate ShowsId(views: set<View>, id: MessageId) {
    exists v :: v in views && v.id == id
  }

  lemma EntryListed(cfg: Config, t: State, c: Conversation, id: MessageId)
    requires Inv(cfg, t)
    ensures (exists v :: v in Listed(t.data, c) && v.id == id)
            <==> !ForEveryone(Tombstone(t.db, id)) && exists j :: j in Jobs(t) && j.id == id && j.conversation == c
  {
    if v :| v in Listed(t.data, c) && v.id == id {
      ListedSource(t, c, v);
    }
    if j :| j in Jobs(t) && j.id == id && j.conversation == c && !ForEveryone(Tombstone(t.db, id)) {
      ListedSource(t, c, Render(j, Tombstone(t.db, id)));
    }
  }

  lemma SplitEntry(s: State, t: State, a: Account, c: Conversation, id: MessageId)
    requires !ShowsId(Seen(s.db.rows, s.db.hidden, a, c), id)
    ensures ShowsId(SplitRead(s, t, a, c), id)
            <==> !EntryHidden(t, a, id) && exists v :: v in Listed(t.data, c) && v.id == id
  {
    var rows := Seen(s.db.rows, s.db.hidden, a, c);
    if v :| v in Listed(t.data, c) && v.id == id && !EntryHidden(t, a, id) {
      assert forall r :: r in rows ==> r.id != v.id;
      assert v in SplitRead(s, t, a, c);
    }
  }

  /**
    Whatever runs between the two reads: a visible message that the first read did not return, standing at place
    i of the worker's jobs, is shown if and only if at most i writes were reported in between, nobody deleted it
    for everyone and the account did not finish hiding it.
   */
  lemma SplitReadShowsIff(cfg: Config, s: State, es: seq<Event>, a: Account, c: Conversation, i: nat)
    requires Inv(cfg, s) && ValidRun(cfg, s, es) && i < |Jobs(s)| && Jobs(s)[i].conversation == c
    requires ShowsId(Visible(s, a, c), Jobs(s)[i].id) && !ShowsId(Seen(s.db.rows, s.db.hidden, a, c), Jobs(s)[i].id)
    ensures ShowsId(SplitRead(s, Run(cfg, s, es), a, c), Jobs(s)[i].id)
            <==> Reports(es) <= i && !DeletesForEveryone(es, Jobs(s)[i].id) && !HidesEntry(es, a, Jobs(s)[i].id)
  {
    var id, t := Jobs(s)[i].id, Run(cfg, s, es);
    UnfinishedIff(cfg, s, es, i);
    MarkedIff(cfg, s, es, id);
    EntryHiddenIff(cfg, s, es, a, id);
    EntryListed(cfg, s, c, id);
    EntryListed(cfg, t, c, id);
    SplitEntry(s, t, a, c, id);
    SplitEntry(s, s, a, c, id);
    assert SplitRead(s, s, a, c) == Visible(s, a, c);
  }

  lemma RunOne(cfg: Config, s: State, e: Event)
    requires Enabled(s, e)
    ensures ValidRun(cfg, s, [e]) && Run(cfg, s, [e]) == Next(cfg, s, e) && Reports([e]) == Reported(e)
  {
    assert [e][1..] == [];
  }

  /** A write that is begun and reported between the two reads hides its message from that one page. */
  lemma WriteBetweenReadsHides(cfg: Config, s: State, members: set<Account>, a: Account)
    requires Inv(cfg, s) && s.inflight.Some?
    requires var j := s.inflight.value;
             j.id !in s.db.rows && !ForEveryone(Tombstone(s.db, j.id)) && !EntryHidden(s, a, j.id)
    ensures var j, es := s.inflight.value, [Attempt(members, true, true)];
            var v := Render(j, Tombstone(s.db, j.id));
            && ValidRun(cfg, s, es)
            && v in Visible(s, a, j.conversation) && v !in SplitRead(s, Run(cfg, s, es), a, j.conversation)
  {
    var j, e := s.inflight.value, Attempt(members, true, true);
    var v := Render(j, Tombstone(s.db, j.id));
    assert Jobs(s)[0] == j;
    ListedSource(s, j.conversation, v);
    RunOne(cfg, s, e);
    assert !ShowsId(Seen(s.db.rows, s.db.hidden, a, j.conversation), j.id);
    assert v in Visible(s, a, j.conversation);
    SplitReadShowsIff(cfg, s, [e], a, j.conversation, 0);
  }

  /** Every visible message is either returned by the first read or one of the worker's jobs. */
  lemma VisibleIsReadOrJob(cfg: Config, s: State, a: Account, c: Conversation, v: View)
    requires Inv(cfg, s) && v in Visible(s, a, c) && v !in Seen(s.db.rows, s.db.hidden, a, c)
    ensures exists i :: 0 <= i < |Jobs(s)| && Jobs(s)[i].id == v.id && Jobs(s)[i].conversation == c
  {
    ListedSource(s, c, v);
  }

  // ---- the deletion handler looks in the database first and in RAM a moment later ----

  /**
    Whatever runs between its two reads, the lookup of the message at place i of the worker's jobs answers
    "not found" if and only if its row was not there at the first read and by the second its write had been
    reported or it had been deleted for everyone.
   */
  lemma SplitLookupFailsIff(cfg: Config, s: State, es: seq<Event>, i: nat)
    requires Inv(cfg, s) && ValidRun(cfg, s, es) && i < |Jobs(s)|
    ensures var id := Jobs(s)[i].id;
            id !in s.db.rows && !HasAny(Run(cfg, s, es).data, id)
            <==> (id !in s.db.rows
                  && (Reports(es) > i || ForEveryone(Tombstone(s.db, id)) || DeletesForEveryone(es, id)))
  {
    UnfinishedIff(cfg, s, es, i);
    MarkedIff(cfg, s, es, Jobs(s)[i].id);
    EntryIff(cfg, Run(cfg, s, es), Jobs(s)[i].id);
  }

  /** A write that is begun and reported between the two looks: the lookup finds nothing, yet the message is stored. */
  lemma WriteBetweenLooksMisses(cfg: Config, s: State, members: set<Account>)
    requires Inv(cfg, s) && s.inflight.Some?
    requires s.inflight.value.id !in s.db.rows && Tombstone(s.db, s.inflight.value.id).None?
    ensures var j, es := s.inflight.value, [Attempt(members, true, true)];
            && ValidRun(cfg, s, es) && j.id !in s.db.rows && !HasAny(Run(cfg, s, es).data, j.id)
            && j.id in Run(cfg, s, es).db.rows && TellsJob(Run(cfg, s, es).db.rows[j.id], j, None)
  {
    assert Jobs(s)[0] == s.inflight.value;
    RunOne(cfg, s, Attempt(members, true, true));
    SplitLookupFailsIff(cfg, s, [Attempt(members, true, true)], 0);
  }
}
