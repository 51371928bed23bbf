/**
  The write-behind message path as a state machine: messages are accepted into RAM, one worker
  writes them, and deletions reach both sides. Every step is one critical section or one
  database transaction.
 */
module WriteBehind {
  import opened Common
  import opened MessageDb
  import opened Pending

  // Room in the job queue and in the pending store; the program uses 10000 for both.
  datatype Config = Config(capacity: nat, limit: nat)

  datatype State = State(
    db: Db,
    data: Lists,
    hiddenIn: map<MessageId, set<Account>>,
    queue: seq<Job>,
    inflight: Option<Job>,
    lastCreatedAt: Instant,
    authors: map<MessageId, Account>)  // history: who sent each stored or accepted message

  datatype Event =
    | Accept(job: Job, clock: Instant)
    | Take
    | Attempt(members: set<Account>, committed: bool, reported: bool)
    | HideRow(account: Account, id: MessageId)    // the hide handler's database write
    | HideEntry(account: Account, id: MessageId)  // and its later RAM write
    | Delete(account: Account, id: MessageId, mode: Mode)

  ghost predicate HasRoom(cfg: Config, s: State) {
    |s.queue| < cfg.capacity && Total(s.data) < cfg.limit
  }

  function Stamp(s: State, clock: Instant): Instant {
    if clock > s.lastCreatedAt then clock else s.lastCreatedAt + 1
  }

  /** The first instant that is not before the clock and after every earlier stamp. */
  lemma StampIsLeast(s: State, clock: Instant, t: Instant)
    ensures Stamp(s, clock) >= clock && Stamp(s, clock) > s.lastCreatedAt
    ensures t >= clock && t > s.lastCreatedAt ==> Stamp(s, clock) <= t
  {}

  function ViewOf(id: MessageId, row: Row): View {
    View(id, row.clientId, row.conversation, row.sender, row.body, row.createdAt, row.deleted.Some?)
  }

  /** The entry a job has in RAM under the given deletion mark. */
  function Render(job: Job, mark: Option<Mode>): View {
    ViewOf(job.id, RowOf(job, mark))
  }

  ghost predicate Fresh(s: State, id: MessageId) {
    && id !in s.authors && id !in s.db.rows && id !in s.db.tombstones && id !in s.hiddenIn
    && forall a :: (a, id) !in s.db.hidden
  }

  ghost predicate Enabled(s: State, e: Event) {
    match e
    case Accept(job, _) => Fresh(s, job.id)
    case Take => s.inflight.None? && s.queue != []
    case Attempt(_, committed, reported) => s.inflight.Some? && (reported ==> committed)
    case HideRow(_, id) => id in s.authors
    case HideEntry(account, id) => (account, id) in s.db.hidden
    case Delete(account, id, _) => id in s.authors && s.authors[id] == account
  }

  function Stored(s: State, job: Job): State {
    s.(data := s.data[job.conversation := Listed(s.data, job.conversation) + [Render(job, None)]],
       queue := s.queue + [job],
       lastCreatedAt := job.createdAt,
       authors := s.authors[job.id := job.sender])
  }

  /** After a reported success the worker drops the entry and moves on. */
  function Settled(s: State, job: Job): State {
    s.(inflight := None,
       data := WithList(s.data, job.conversation, Without(Listed(s.data, job.conversation), job.id)))
  }

  function Attempted(s: State, job: Job, members: set<Account>, committed: bool, reported: bool): State {
    var t := if committed then s.(db := PersistTx(s.db, job, members)) else s;
    if reported then Settled(t, job) else t
  }

  ghost function Next(cfg: Config, s: State, e: Event): State {
    match e
    case Accept(job, clock) => if HasRoom(cfg, s) then Stored(s, job.(createdAt := Stamp(s, clock))) else s
    case Take => if s.queue == [] then s else s.(inflight := Some(s.queue[0]), queue := s.queue[1..])
    case Attempt(members, committed, reported) =>
      if s.inflight.None? then s else Attempted(s, s.inflight.value, members, committed, reported)
    case HideRow(account, id) => s.(db := HideTx(s.db, account, id))
    case HideEntry(account, id) =>
      s.(hiddenIn := s.hiddenIn[id := (if id in s.hiddenIn then s.hiddenIn[id] else {}) + {account}])
    case Delete(account, id, mode) =>
      s.(db := MarkTx(s.db, account, id, mode),
         data := if mode.Everyone? then WithoutAll(s.data, id) else ScrubbedAll(s.data, id))
  }

  ghost predicate Init(s: State) {
    && DbOk(s.db) && ReceiptsOk(s.db)
    && s.data == map[] && s.hiddenIn == map[] && s.queue == [] && s.inflight == None
    && s.authors == (map id | id in s.db.rows :: s.db.rows[id].sender)
  }

  ghost predicate ValidRun(cfg: Config, s: State, es: seq<Event>)
    decreases |es|
  {
    es == [] || (Enabled(s, es[0]) && ValidRun(cfg, Next(cfg, s, es[0]), es[1..]))
  }

  ghost function Run(cfg: Config, s: State, es: seq<Event>): State
    decreases |es|
  {
    if es == [] then s else Run(cfg, Next(cfg, s, es[0]), es[1..])
  }

  // ---- the invariant ----

  function Jobs(s: State): seq<Job> {
    (if s.inflight.Some? then [s.inflight.value] else []) + s.queue
  }

  function MarkIn(tombs: map<MessageId, Mode>, id: MessageId): Option<Mode> {
    if id in tombs then Some(tombs[id]) else None
  }

  /** What a conversation's RAM list must be: its unwritten jobs in order, less those deleted for everyone. */
  function Rendered(jobs: seq<Job>, c: Conversation, tombs: map<MessageId, Mode>): seq<View> {
    if jobs == [] then []
    else
      var rest := Rendered(jobs[1..], c, tombs);
      if jobs[0].conversation == c && !ForEveryone(MarkIn(tombs, jobs[0].id))
      then [Render(jobs[0], MarkIn(tombs, jobs[0].id))] + rest
      else rest
  }

  ghost predicate JobIn(jobs: seq<Job>, id: MessageId) {
    exists i :: 0 <= i < |jobs| && jobs[i].id == id
  }

  ghost predicate Ordered(jobs: seq<Job>) {
    forall i, j :: 0 <= i < j < |jobs| ==> jobs[i].createdAt < jobs[j].createdAt && jobs[i].id != jobs[j].id
  }

  ghost predicate DataExact(s: State) {
    && (forall c :: c in s.data ==> s.data[c] != [])
    && (forall c :: Listed(s.data, c) == Rendered(Jobs(s), c, s.db.tombstones))
  }

  ghost predicate JobsOk(s: State) {
    && Ordered(Jobs(s))
    && (forall j :: j in Jobs(s) ==> j.createdAt <= s.lastCreatedAt)
    && (forall j :: j in Jobs(s) ==> j.id in s.authors && s.authors[j.id] == j.sender)
    && (forall j :: j in s.queue ==> j.id !in s.db.rows)
    && (s.inflight.Some? && s.inflight.value.id in s.db.rows ==>
          s.db.rows[s.inflight.value.id] == RowOf(s.inflight.value, Tombstone(s.db, s.inflight.value.id)))
  }

  ghost predicate Signed(s: State) {
    forall id :: id in s.db.rows ==> id in s.authors && s.authors[id] == s.db.rows[id].sender
  }

  ghost predicate Inv(cfg: Config, s: State) {
    && DbOk(s.db) && ReceiptsOk(s.db)
    && Signed(s) && JobsOk(s) && DataExact(s)
    && |s.queue| <= cfg.capacity && Total(s.data) <= cfg.limit
  }

  // ---- how the expected lists move ----

  lemma {:induction false} RenderedAppend(jobs: seq<Job>, job: Job, c: Conversation, tombs: map<MessageId, Mode>)
    ensures Rendered(jobs + [job], c, tombs) == Rendered(jobs, c, tombs) + Rendered([job], c, tombs)
  {
    if jobs == [] {
      assert jobs + [job] == [job];
    } else {
      assert (jobs + [job])[1..] == jobs[1..] + [job];
      RenderedAppend(jobs[1..], job, c, tombs);
    }
  }

  lemma {:induction false} RenderedSource(jobs: seq<Job>, c: Conversation, tombs: map<MessageId, Mode>, v: View)
    ensures v in Rendered(jobs, c, tombs) <==>
            exists j :: j in jobs && j.conversation == c && !ForEveryone(MarkIn(tombs, j.id))
                        && v == Render(j, MarkIn(tombs, j.id))
  {
    if jobs != [] {
      RenderedSource(jobs[1..], c, tombs, v);
      assert forall j :: j in jobs <==> j == jobs[0] || j in jobs[1..];
    }
  }

  lemma {:induction false} RenderedIds(jobs: seq<Job>, c: Conversation, tombs: map<MessageId, Mode>, id: MessageId)
    requires !JobIn(jobs, id)
    ensures !Has(Rendered(jobs, c, tombs), id)
  {
    if jobs != [] {
      assert jobs[0].id != id;
      RenderedIds(jobs[1..], c, tombs, id);
    }
  }

  lemma RenderedTail(jobs: seq<Job>, c: Conversation, tombs: map<MessageId, Mode>)
    requires jobs != [] && Ordered(jobs)
    ensures Without(Rendered(jobs, c, tombs), jobs[0].id) == Rendered(jobs[1..], c, tombs)
  {
    RenderedIds(jobs[1..], c, tombs, jobs[0].id);
    WithoutAbsent(Rendered(jobs[1..], c, tombs), jobs[0].id);
  }

  lemma {:induction false} RenderedFrame(
      jobs: seq<Job>, c: Conversation, tombs: map<MessageId, Mode>, id: MessageId, mode: Mode)
    requires !JobIn(jobs, id)
    ensures Rendered(jobs, c, tombs[id := mode]) == Rendered(jobs, c, tombs)
  {
    if jobs != [] {
      assert jobs[0].id != id;
      RenderedFrame(jobs[1..], c, tombs, id, mode);
    }
  }

  lemma {:induction false} RenderedDelete(jobs: seq<Job>, c: Conversation, tombs: map<MessageId, Mode>, id: MessageId)
    requires Ordered(jobs)
    ensures Rendered(jobs, c, tombs[id := Everyone]) == Without(Rendered(jobs, c, tombs), id)
  {
    if jobs != [] {
      RenderedDelete(jobs[1..], c, tombs, id);
    }
  }

  lemma {:induction false} RenderedRetract(jobs: seq<Job>, c: Conversation, tombs: map<MessageId, Mode>, id: MessageId)
    requires Ordered(jobs) && !ForEveryone(MarkIn(tombs, id))
    ensures Rendered(jobs, c, tombs[id := Retracted]) == Scrubbed(Rendered(jobs, c, tombs), id)
  {
    if jobs != [] {
      RenderedRetract(jobs[1..], c, tombs, id);
    }
  }

  lemma {:induction false} RenderedGone(jobs: seq<Job>, c: Conversation, tombs: map<MessageId, Mode>, id: MessageId)
    requires ForEveryone(MarkIn(tombs, id))
    ensures !Has(Rendered(jobs, c, tombs), id)
  {
    if jobs != [] {
      RenderedGone(jobs[1..], c, tombs, id);
    }
  }

  lemma {:induction false} RenderedDistinct(jobs: seq<Job>, c: Conversation, tombs: map<MessageId, Mode>)
    requires Ordered(jobs)
    ensures DistinctIds(Rendered(jobs, c, tombs))
  {
    if jobs != [] {
      RenderedDistinct(jobs[1..], c, tombs);
      RenderedIds(jobs[1..], c, tombs, jobs[0].id);
    }
  }

  lemma ExactListsOk(s: State)
    requires JobsOk(s) && DataExact(s)
    ensures ListsOk(s.data)
  {
    var jobs, tombs := Jobs(s), s.db.tombstones;
    forall c | c in s.data ensures DistinctIds(s.data[c]) {
      assert Listed(s.data, c) == s.data[c];
      RenderedDistinct(jobs, c, tombs);
    }
    forall c, i | c in s.data && 0 <= i < |s.data[c]| ensures s.data[c][i].conversation == c {
      ListedSource(s, c, s.data[c][i]);
    }
    forall c, d, id | c in s.data && d in s.data && Has(s.data[c], id) && Has(s.data[d], id) ensures c == d {
      var i :| 0 <= i < |s.data[c]| && s.data[c][i].id == id;
      var k :| 0 <= k < |s.data[d]| && s.data[d][k].id == id;
      ListedSource(s, c, s.data[c][i]);
      ListedSource(s, d, s.data[d][k]);
    }
  }

  lemma ListedSource(s: State, c: Conversation, v: View)
    requires DataExact(s)
    ensures v in Listed(s.data, c) <==>
            exists j :: j in Jobs(s) && j.conversation == c && !ForEveryone(Tombstone(s.db, j.id))
                        && v == Render(j, Tombstone(s.db, j.id))
  {
    RenderedSource(Jobs(s), c, s.db.tombstones, v);
    assert forall id :: MarkIn(s.db.tombstones, id) == Tombstone(s.db, id);
  }

  // ---- every step keeps the invariant ----

  lemma AcceptData(s: State, j: Job)
    requires DataExact(s) && Fresh(s, j.id)
    ensures Jobs(Stored(s, j)) == Jobs(s) + [j]
    ensures DataExact(Stored(s, j))
  {
    var t := Stored(s, j);
    assert Jobs(t) == Jobs(s) + [j];
    forall c ensures Listed(t.data, c) == Rendered(Jobs(t), c, t.db.tombstones) {
      RenderedAppend(Jobs(s), j, c, s.db.tombstones);
      assert Listed(s.data, c) == Rendered(Jobs(s), c, s.db.tombstones);
    }
  }

  lemma AcceptJobs(s: State, j: Job)
    requires JobsOk(s) && Fresh(s, j.id) && j.createdAt > s.lastCreatedAt
    requires Jobs(Stored(s, j)) == Jobs(s) + [j]
    ensures JobsOk(Stored(s, j))
  {}

  lemma AcceptKeepsInv(cfg: Config, s: State, job: Job, clock: Instant)
    requires Inv(cfg, s) && Fresh(s, job.id)
    ensures Inv(cfg, Next(cfg, s, Accept(job, clock)))
  {
    if HasRoom(cfg, s) {
      var j := job.(createdAt := Stamp(s, clock));
      var t := Stored(s, j);
      AcceptData(s, j);
      AcceptJobs(s, j);
      TotalUpdate(s.data, j.conversation, t.data[j.conversation]);
      assert t.data == WithList(s.data, j.conversation, t.data[j.conversation]);
    }
  }

  lemma TakeKeepsInv(cfg: Config, s: State)
    requires Inv(cfg, s) && s.inflight.None? && s.queue != []
    ensures Inv(cfg, Next(cfg, s, Take))
    ensures Jobs(Next(cfg, s, Take)) == Jobs(s)
  {
    var t := Next(cfg, s, Take);
    assert Jobs(t) == Jobs(s);
    assert t.inflight.value in s.queue;
    forall c ensures Listed(t.data, c) == Rendered(Jobs(t), c, t.db.tombstones) {}
  }

  lemma CommitKeepsInv(cfg: Config, s: State, members: set<Account>)
    requires Inv(cfg, s) && s.inflight.Some?
    ensures Inv(cfg, s.(db := PersistTx(s.db, s.inflight.value, members)))
  {
    var j := s.inflight.value;
    var t := s.(db := PersistTx(s.db, j, members));
    assert Jobs(t) == Jobs(s) && Jobs(s)[0] == j;
    forall i | 0 <= i < |s.queue| ensures s.queue[i].id != j.id {
      assert Jobs(s)[i + 1] == s.queue[i];
    }
    assert j in Jobs(s);
    ApplyKeepsDbOk(s.db, Persist(j, members));
    ApplyKeepsReceipts(s.db, Persist(j, members));
    assert t.db.tombstones == s.db.tombstones;
    forall c ensures Listed(t.data, c) == Rendered(Jobs(t), c, t.db.tombstones) {}
  }

  lemma SettleData(s: State)
    requires DataExact(s) && s.inflight.Some? && Ordered(Jobs(s))
    ensures Jobs(Settled(s, s.inflight.value)) == Jobs(s)[1..]
    ensures DataExact(Settled(s, s.inflight.value))
  {
    var t := Settled(s, s.inflight.value);
    assert Jobs(t) == s.queue == Jobs(s)[1..];
    forall c ensures Listed(t.data, c) == Rendered(Jobs(t), c, t.db.tombstones) {
      assert Listed(s.data, c) == Rendered(Jobs(s), c, s.db.tombstones);
      RenderedTail(Jobs(s), c, s.db.tombstones);
      if c != s.inflight.value.conversation {
        assert Rendered(Jobs(s), c, s.db.tombstones) == Rendered(s.queue, c, s.db.tombstones);
      }
    }
  }

  lemma SettleJobs(s: State)
    requires JobsOk(s) && s.inflight.Some?
    requires Jobs(Settled(s, s.inflight.value)) == Jobs(s)[1..]
    ensures JobsOk(Settled(s, s.inflight.value))
  {}

  lemma SettleKeepsInv(cfg: Config, s: State)
    requires Inv(cfg, s) && s.inflight.Some?
    ensures Inv(cfg, Settled(s, s.inflight.value))
  {
    var j := s.inflight.value;
    SettleData(s);
    SettleJobs(s);
    TotalUpdate(s.data, j.conversation, Without(Listed(s.data, j.conversation), j.id));
    WithoutShorter(Listed(s.data, j.conversation), j.id);
  }

  lemma AttemptKeepsInv(cfg: Config, s: State, members: set<Account>, committed: bool, reported: bool)
    requires Inv(cfg, s) && s.inflight.Some?
    ensures Inv(cfg, Next(cfg, s, Attempt(members, committed, reported)))
  {
    var t := if committed then s.(db := PersistTx(s.db, s.inflight.value, members)) else s;
    if committed { CommitKeepsInv(cfg, s, members); }
    if reported { SettleKeepsInv(cfg, t); }
  }

  lemma {:induction false} WithoutShorter(list: seq<View>, id: MessageId)
    ensures |Without(list, id)| <= |list|
  {
    if list != [] { WithoutShorter(list[1..], id); }
  }

  lemma HideKeepsInv(cfg: Config, s: State, e: Event)
    requires Inv(cfg, s) && (e.HideRow? || e.HideEntry?)
    ensures Inv(cfg, Next(cfg, s, e))
  {}

  lemma DeleteExact(s: State, account: Account, id: MessageId, mode: Mode)
    requires JobsOk(s) && DataExact(s)
    ensures var t := s.(db := MarkTx(s.db, account, id, mode),
                        data := if mode.Everyone? then WithoutAll(s.data, id) else ScrubbedAll(s.data, id));
            DataExact(t)
  {
    var t := s.(db := MarkTx(s.db, account, id, mode),
                data := if mode.Everyone? then WithoutAll(s.data, id) else ScrubbedAll(s.data, id));
    var jobs, tombs := Jobs(s), s.db.tombstones;
    assert Jobs(t) == jobs;
    forall c
      ensures Listed(t.data, c) == Rendered(jobs, c, t.db.tombstones)
      ensures c in t.data ==> t.data[c] != []
    {
      var list := Listed(s.data, c);
      assert list == Rendered(jobs, c, tombs);
      match mode {
        case Everyone =>
          RenderedDelete(jobs, c, tombs, id);
        case Retracted =>
          ScrubbedShape(list, id);
          if ForEveryone(MarkIn(tombs, id)) {
            RenderedGone(jobs, c, tombs, id);
          } else {
            RenderedRetract(jobs, c, tombs, id);
            assert t.db.tombstones == tombs[id := Retracted];
          }
      }
    }
  }

  lemma DeleteTotal(data: Lists, id: MessageId)
    requires ListsOk(data)
    ensures Total(WithoutAll(data, id)) == Total(data) - (if HasAny(data, id) then 1 else 0)
    ensures Total(ScrubbedAll(data, id)) == Total(data)
  {
    if HasAny(data, id) {
      var c :| c in data && Has(data[c], id);
      var i :| 0 <= i < |data[c]| && data[c][i].id == id;
      DeleteInPlace(data, id, c, i);
      TotalUpdate(data, c, data[c][..i] + data[c][i + 1..]);
      ScrubInPlace(data, id, c, i);
    } else {
      ScrubAbsent(data, id);
      forall c | c in data ensures Without(data[c], id) == data[c] {
        WithoutAbsent(data[c], id);
      }
      assert forall c :: c in data ==> data[c] != [];
      assert WithoutAll(data, id) == data;
    }
  }

  lemma DeleteJobs(s: State, account: Account, id: MessageId, mode: Mode, data: Lists)
    requires JobsOk(s) && Enabled(s, Delete(account, id, mode))
    ensures JobsOk(s.(db := MarkTx(s.db, account, id, mode), data := data))
  {}

  lemma DeleteDb(s: State, account: Account, id: MessageId, mode: Mode, data: Lists)
    requires DbOk(s.db) && ReceiptsOk(s.db) && Signed(s) && Enabled(s, Delete(account, id, mode))
    ensures var t := s.(db := MarkTx(s.db, account, id, mode), data := data);
            DbOk(t.db) && ReceiptsOk(t.db) && Signed(t)
  {}

  lemma DeleteKeepsInv(cfg: Config, s: State, account: Account, id: MessageId, mode: Mode)
    requires Inv(cfg, s) && Enabled(s, Delete(account, id, mode))
    ensures Inv(cfg, Next(cfg, s, Delete(account, id, mode)))
  {
    var t := Next(cfg, s, Delete(account, id, mode));
    ExactListsOk(s);
    DeleteTotal(s.data, id);
    DeleteExact(s, account, id, mode);
    DeleteJobs(s, account, id, mode, t.data);
    DeleteDb(s, account, id, mode, t.data);
  }

  lemma StepKeepsInv(cfg: Config, s: State, e: Event)
    requires Inv(cfg, s) && Enabled(s, e)
    ensures Inv(cfg, Next(cfg, s, e))
  {
    match e
    case Accept(job, clock) => AcceptKeepsInv(cfg, s, job, clock);
    case Take => TakeKeepsInv(cfg, s);
    case Attempt(members, committed, reported) => AttemptKeepsInv(cfg, s, members, committed, reported);
    case HideRow(_, _) => HideKeepsInv(cfg, s, e);
    case HideEntry(_, _) => HideKeepsInv(cfg, s, e);
    case Delete(account, id, mode) => DeleteKeepsInv(cfg, s, account, id, mode);
  }

  lemma InitInv(cfg: Config, s: State)
    requires Init(s)
    ensures Inv(cfg, s)
  {}

  lemma {:induction false} RunKeepsInv(cfg: Config, s: State, es: seq<Event>)
    requires Inv(cfg, s) && ValidRun(cfg, s, es)
    ensures Inv(cfg, Run(cfg, s, es))
    decreases |es|
  {
    if es != [] {
      StepKeepsInv(cfg, s, es[0]);
      RunKeepsInv(cfg, Next(cfg, s, es[0]), es[1..]);
    }
  }
}
