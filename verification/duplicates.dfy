/**
  The answer to a repeated send: the handler looks for the message in RAM, by its client id alone, and then in
  the database, among the sender's own rows. Anything may run between the two looks.
 */
module Duplicates {
  import opened Common
  import opened MessageDb
  import opened Pending
  import opened WriteBehind
  import opened WriteThrough
  import opened Delivery
  import opened Persistence
  import opened Reading

  /** The first entry of a RAM list with the client id that the account has not hidden, whoever sent it. */
  function FirstMatch(s: State, a: Account, key: ClientId, list: seq<View>): Option<View> {
    if list == [] then None
    else if list[0].clientId == key && !EntryHidden(s, a, list[0].id) then Some(list[0])
    else FirstMatch(s, a, key, list[1..])
  }

  predicate IsOwn(db: Db, a: Account, key: ClientId, id: MessageId)
    requires id in db.rows
  {
    && db.rows[id].sender == a && db.rows[id].clientId == key
    && !ForEveryone(db.rows[id].deleted) && (a, id) !in db.hidden
  }

  /** What the database query may answer with: the account's own unhidden messages of any conversation. */
  function Own(db: Db, a: Account, key: ClientId): set<View> {
    set id | id in db.rows && IsOwn(db, a, key, id) :: ViewOf(id, db.rows[id])
  }

  /** One of the rows, whichever the database picks, or none if there are none. */
  predicate IsOneOf(views: set<View>, one: Option<View>) {
    if one.Some? then one.value in views else views == {}
  }

  /** The answer when RAM is looked at in one state and the database, if need be, in a later one. */
  predicate Answers(s: State, t: State, a: Account, c: Conversation, key: ClientId, answer: Option<View>) {
    var first := FirstMatch(s, a, key, Listed(s.data, c));
    if first.Some? then answer == first else IsOneOf(Own(t.db, a, key), answer)
  }

  /** The duplicate branch of the send handler; `row` is the answer of its database query. */
  method AnswerDuplicate(
      p: Persister, account: Account, c: Conversation, key: ClientId, row: Option<View>, ghost later: State)
    returns (answer: Option<View>)
    requires IsOneOf(Own(later.db, account, key), row)
    ensures Answers(p.Snapshot(), later, account, c, key, answer)
  {
    var pending := p.pending.List(c);
    ghost var s := p.Snapshot();
    var n := 0;
    while n < |pending|
      invariant 0 <= n <= |pending|
      invariant FirstMatch(s, account, key, pending) == FirstMatch(s, account, key, pending[n..])
    {
      var hidden := p.pending.IsHidden(account, pending[n].id);
      if pending[n].clientId == key && !hidden {
        return Some(pending[n]);
      }
      n := n + 1;
    }
    return row;
  }

  // ---- which waiting message the look in RAM finds ----

  predicate Matches(s: State, a: Account, c: Conversation, key: ClientId, j: Job) {
    && j.conversation == c && j.clientId == key
    && !ForEveryone(MarkIn(s.db.tombstones, j.id)) && !EntryHidden(s, a, j.id)
  }

  function FirstAmong(s: State, a: Account, c: Conversation, key: ClientId, jobs: seq<Job>): Option<Job> {
    if jobs == [] then None
    else if Matches(s, a, c, key, jobs[0]) then Some(jobs[0])
    else FirstAmong(s, a, c, key, jobs[1..])
  }

  /** The earliest unwritten message of the conversation with this client id that the account can see. */
  function FirstJob(s: State, a: Account, c: Conversation, key: ClientId): Option<Job> {
    FirstAmong(s, a, c, key, Jobs(s))
  }

  lemma {:induction false} MatchIsAmong(s: State, a: Account, c: Conversation, key: ClientId, jobs: seq<Job>)
    ensures var first := FirstAmong(s, a, c, key, jobs);
            FirstMatch(s, a, key, Rendered(jobs, c, s.db.tombstones))
            == if first.Some? then Some(Render(first.value, MarkIn(s.db.tombstones, first.value.id))) else None
    ensures var first := FirstAmong(s, a, c, key, jobs);
            first.Some? ==> first.value in jobs && first.value.clientId == key
    decreases |jobs|
  {
    if jobs != [] {
      MatchIsAmong(s, a, c, key, jobs[1..]);
      var rest := Rendered(jobs[1..], c, s.db.tombstones);
      var head := Render(jobs[0], MarkIn(s.db.tombstones, jobs[0].id));
      assert ([head] + rest)[1..] == rest;
    }
  }

  lemma MatchIsFirstJob(cfg: Config, s: State, a: Account, c: Conversation, key: ClientId)
    requires Inv(cfg, s)
    ensures var first, job := FirstMatch(s, a, key, Listed(s.data, c)), FirstJob(s, a, c, key);
            && (first.Some? <==> job.Some?)
            && (job.Some? ==> job.value in Jobs(s) && job.value.clientId == key
                              && first.value == Render(job.value, MarkIn(s.db.tombstones, job.value.id)))
  {
    MatchIsAmong(s, a, c, key, Jobs(s));
    assert Listed(s.data, c) == Rendered(Jobs(s), c, s.db.tombstones);
  }

  lemma {:induction false} SomeMatch(s: State, a: Account, key: ClientId, list: seq<View>, v: View)
    requires v in list && v.clientId == key && !EntryHidden(s, a, v.id)
    ensures FirstMatch(s, a, key, list).Some?
    decreases |list|
  {
    if list[0] != v { SomeMatch(s, a, key, list[1..], v); }
  }

  // ---- a stored row stays where the second look finds it ----

  predicate HidesRow(es: seq<Event>, a: Account, id: MessageId) {
    exists i :: 0 <= i < |es| && es[i].HideRow? && es[i].id == id && es[i].account == a
  }

  lemma ConsHidesRow(es: seq<Event>, a: Account, id: MessageId)
    requires es != []
    ensures HidesRow(es, a, id)
            <==> (es[0].HideRow? && es[0].id == id && es[0].account == a) || HidesRow(es[1..], a, id)
  {
    assert forall i :: 0 < i < |es| ==> es[i] == es[1..][i - 1];
    assert forall i :: 0 <= i < |es[1..]| ==> es[1..][i] == es[i + 1];
  }

  // What no transaction changes in a row.
  predicate SameMessage(x: Row, y: Row) {
    x.conversation == y.conversation && x.sender == y.sender && x.clientId == y.clientId
  }

  lemma PersistKeepsRow(db: Db, job: Job, members: set<Account>, id: MessageId)
    requires id in db.rows
    ensures var t := PersistTx(db, job, members);
            id in t.rows && SameMessage(db.rows[id], t.rows[id]) && t.hidden == db.hidden
  {}

  lemma MarkKeepsRow(db: Db, account: Account, marked: MessageId, mode: Mode, id: MessageId)
    requires id in db.rows
    ensures var t := MarkTx(db, account, marked, mode);
            id in t.rows && SameMessage(db.rows[id], t.rows[id]) && t.hidden == db.hidden
  {}

  lemma StepKeepsRow(cfg: Config, s: State, e: Event, a: Account, id: MessageId)
    requires id in s.db.rows && Enabled(s, e)
    ensures var t := Next(cfg, s, e);
            && id in t.db.rows && SameMessage(s.db.rows[id], t.db.rows[id])
            && ((a, id) in t.db.hidden <==>
                  (a, id) in s.db.hidden || (e.HideRow? && e.id == id && e.account == a))
  {
    hide PersistTx, MarkTx, SameMessage;
    assert SameMessage(s.db.rows[id], s.db.rows[id]) by { Unchanged(s.db.rows[id]); }
    if e.Attempt? { PersistKeepsRow(s.db, s.inflight.value, e.members, id); }
    if e.Delete? { MarkKeepsRow(s.db, e.account, e.id, e.mode, id); }
  }

  lemma Unchanged(row: Row)
    ensures SameMessage(row, row)
  {}

  lemma {:induction false} RunKeepsRow(cfg: Config, s: State, es: seq<Event>, a: Account, id: MessageId)
    requires id in s.db.rows && ValidRun(cfg, s, es)
    ensures var t := Run(cfg, s, es);
            && id in t.db.rows && SameMessage(s.db.rows[id], t.db.rows[id])
            && ((a, id) in t.db.hidden <==> (a, id) in s.db.hidden || HidesRow(es, a, id))
    decreases |es|
  {
    hide Next, Enabled;
    if es != [] {
      ConsHidesRow(es, a, id);
      StepKeepsRow(cfg, s, es[0], a, id);
      RunKeepsRow(cfg, Next(cfg, s, es[0]), es[1..], a, id);
    }
  }

  // ---- the answer ----

  /** Whether the run deletes the message for everyone or takes its row out of the account's sight. */
  predicate Removes(es: seq<Event>, a: Account, id: MessageId) {
    DeletesForEveryone(es, id) || HidesRow(es, a, id)
  }

  /** The only message the account ever sent under the client id, as far as rows and jobs tell. */
  ghost predicate Sole(s: State, a: Account, key: ClientId, id: MessageId) {
    && (forall i :: i in s.db.rows && s.db.rows[i].sender == a && s.db.rows[i].clientId == key ==> i == id)
    && (forall j :: j in Jobs(s) && j.sender == a && j.clientId == key ==> j.id == id)
  }

  // A message in sight that is not waiting in RAM has a row, and the second look finds it unless the run removes it.
  lemma RowFoundIff(cfg: Config, s: State, es: seq<Event>, a: Account, c: Conversation, key: ClientId, v: View)
    requires Inv(cfg, s) && ValidRun(cfg, s, es) && v in Visible(s, a, c) && v.sender == a && v.clientId == key
    requires FirstJob(s, a, c, key).None?
    ensures var db := Run(cfg, s, es).db;
            v.id in db.rows && (IsOwn(db, a, key, v.id) <==> !Removes(es, a, v.id))
  {
    hide Jobs, Inv;
    MatchIsFirstJob(cfg, s, a, c, key);
    if v in Listed(s.data, c) && !EntryHidden(s, a, v.id) { SomeMatch(s, a, key, Listed(s.data, c), v); }
    assert v in Seen(s.db.rows, s.db.hidden, a, c);
    RunKeepsRow(cfg, s, es, a, v.id);
    MarkedIff(cfg, s, es, v.id);
    RunKeepsInv(cfg, s, es);
    MarksAgree(cfg, s, v.id);
    MarksAgree(cfg, Run(cfg, s, es), v.id);
  }

  lemma MarksAgree(cfg: Config, s: State, id: MessageId)
    requires Inv(cfg, s) && id in s.db.rows
    ensures s.db.rows[id].deleted == Tombstone(s.db, id)
  {}

  /**
    Whatever runs between the two looks, a message of the account's own that was in its sight at the first is
    answered with something unless the run removes it. When it is the only one the account sent under the client
    id, nothing is answered if and only if the run removes it and no message with that client id was waiting.
   */
  lemma UnansweredIff(
      cfg: Config, s: State, es: seq<Event>, a: Account, c: Conversation, key: ClientId, v: View,
      answer: Option<View>)
    requires Inv(cfg, s) && ValidRun(cfg, s, es) && v in Visible(s, a, c) && v.sender == a && v.clientId == key
    requires Answers(s, Run(cfg, s, es), a, c, key, answer)
    ensures answer.None? ==> Removes(es, a, v.id)
    ensures Sole(Run(cfg, s, es), a, key, v.id) ==>
              (answer.None? <==> FirstJob(s, a, c, key).None? && Removes(es, a, v.id))
  {
    hide Inv, Visible, Jobs, Removes, FirstJob;
    var db := Run(cfg, s, es).db;
    MatchIsFirstJob(cfg, s, a, c, key);
    if FirstJob(s, a, c, key).None? {
      RowFoundIff(cfg, s, es, a, c, key, v);
      if IsOwn(db, a, key, v.id) { assert ViewOf(v.id, db.rows[v.id]) in Own(db, a, key); }
    }
  }

  /**
    The answer to a message that is not removed carries its client id, and it is the account's own if and only if
    no message with that client id is waiting in the conversation or the first of those in sight is its own. An
    answer that is its own is the very message if the account sent no other under the client id.
   */
  lemma OwnAnswerIff(
      cfg: Config, s: State, es: seq<Event>, a: Account, c: Conversation, key: ClientId, v: View,
      answer: Option<View>)
    requires Inv(cfg, s) && ValidRun(cfg, s, es) && v in Visible(s, a, c) && v.sender == a && v.clientId == key
    requires Answers(s, Run(cfg, s, es), a, c, key, answer)
    ensures !Removes(es, a, v.id) ==>
              && answer.Some? && answer.value.clientId == key
              && (answer.value.sender == a <==>
                    FirstJob(s, a, c, key).None? || FirstJob(s, a, c, key).value.sender == a)
    ensures Sole(s, a, key, v.id) && Sole(Run(cfg, s, es), a, key, v.id) && answer.Some? && answer.value.sender == a ==>
              answer.value.id == v.id
  {
    hide Inv, Visible, Jobs, Removes, FirstJob;
    MatchIsFirstJob(cfg, s, a, c, key);
    UnansweredIff(cfg, s, es, a, c, key, v, answer);
  }

  // ---- a reachable run in which the answer is somebody else's message ----

  const CFG: Config := Config(10000, 10000)
  const BARE: State := State(Db(map[], map[], {}, multiset{}, map[]), map[], map[], [], None, 0, map[])

  function From(sender: Account, id: MessageId, at: Instant): Job {
    Job(id, "c", sender, "client-1", "hello", at)
  }

  // Both members choose the same client id, the other one first.
  function BothSend(): seq<Event> {
    [Accept(From("bob", "m1", 0), 1), Accept(From("ann", "m2", 0), 2)]
  }

  lemma BothAccepted()
    ensures var s := Run(CFG, BARE, BothSend());
            && ValidRun(CFG, BARE, BothSend()) && s.hiddenIn == map[] && s.db == BARE.db
            && Listed(s.data, "c") == [Render(From("bob", "m1", 1), None), Render(From("ann", "m2", 2), None)]
  {
    var e, f := BothSend()[0], BothSend()[1];
    var s1 := Stored(BARE, From("bob", "m1", 1));
    var s2 := Stored(s1, From("ann", "m2", 2));
    assert Listed(s1.data, "c") == [Render(From("bob", "m1", 1), None)];
    TotalUpdate(BARE.data, "c", s1.data["c"]);
    assert s1.data == WithList(BARE.data, "c", s1.data["c"]);
    assert Next(CFG, BARE, e) == s1 && Next(CFG, s1, f) == s2;
    assert BothSend()[1..] == [f] && [f][1..] == [];
    assert ValidRun(CFG, s1, [f]) && Run(CFG, s1, [f]) == s2;
  }

  /** Both messages are waiting when the second sender's client repeats its send: it is answered with the other's. */
  lemma AnotherMembersMessage(t: State, answer: Option<View>)
    requires Answers(Run(CFG, BARE, BothSend()), t, "ann", "c", "client-1", answer)
    ensures Init(BARE) && ValidRun(CFG, BARE, BothSend())
    ensures Render(From("ann", "m2", 2), None) in Visible(Run(CFG, BARE, BothSend()), "ann", "c")
    ensures answer == Some(Render(From("bob", "m1", 1), None))
  {
    BothAccepted();
    var s := Run(CFG, BARE, BothSend());
    var mine := Render(From("ann", "m2", 2), None);
    assert Listed(s.data, "c")[1] == mine;
    assert Seen(s.db.rows, s.db.hidden, "ann", "c") == {};
  }
}
