/**
  The message tables and the three transactions that write them: the idempotent write of a
  queued message, the shared deletion mark and the per-account hide.
 */
module MessageDb {
  import opened Common

  datatype Mode = Retracted | Everyone

  datatype Job = Job(
    id: MessageId,
    conversation: Conversation,
    sender: Account,
    clientId: ClientId,
    body: string,
    createdAt: Instant)

  // kind, deleted_at and deleted_mode are set together, so `deleted` stands for all three.
  datatype Row = Row(
    conversation: Conversation,
    sender: Account,
    clientId: ClientId,
    createdAt: Instant,
    body: Option<string>,
    deleted: Option<Mode>)

  datatype Db = Db(
    rows: map<MessageId, Row>,
    tombstones: map<MessageId, Mode>,
    hidden: set<(Account, MessageId)>,
    receipts: multiset<(MessageId, Account)>,
    lastMessage: map<Conversation, MessageId>)

  function Tombstone(db: Db, id: MessageId): Option<Mode> {
    if id in db.tombstones then Some(db.tombstones[id]) else None
  }

  /** The row a job stands for when the message carries the given deletion mark. */
  function RowOf(job: Job, mark: Option<Mode>): Row {
    Row(job.conversation, job.sender, job.clientId, job.createdAt,
        if mark.Some? then None else Some(job.body), mark)
  }

  predicate ForEveryone(mark: Option<Mode>) {
    match mark
    case Some(Everyone) => true
    case Some(Retracted) => false
    case None => false
  }

  function ReceiptsFor(id: MessageId, recipients: set<Account>): multiset<(MessageId, Account)> {
    multiset(set r | r in recipients :: (id, r))
  }

  /** The write of a queued message; `members` are the conversation's active members. */
  function PersistTx(db: Db, job: Job, members: set<Account>): Db {
    if ForEveryone(Tombstone(db, job.id)) || job.id in db.rows then
      db
    else
      db.(rows := db.rows[job.id := RowOf(job, Tombstone(db, job.id))],
          receipts := db.receipts + ReceiptsFor(job.id, members - {job.sender}),
          lastMessage := db.lastMessage[job.conversation := job.id])
  }

  function MarkTx(db: Db, account: Account, id: MessageId, mode: Mode): Db {
    var existing := Tombstone(db, id);
    var marked := if existing.None? || mode.Everyone? then db.tombstones[id := mode] else db.tombstones;
    var scrub := (mode.Everyone? || !ForEveryone(existing)) && id in db.rows && db.rows[id].sender == account;
    db.(tombstones := marked,
        rows := if scrub then db.rows[id := db.rows[id].(body := None, deleted := Some(mode))] else db.rows)
  }

  function HideTx(db: Db, account: Account, id: MessageId): Db {
    db.(hidden := db.hidden + {(account, id)})
  }

  datatype Tx =
    | Persist(job: Job, members: set<Account>)
    | Mark(account: Account, id: MessageId, mode: Mode)
    | Hide(account: Account, id: MessageId)

  function Apply(db: Db, tx: Tx): Db {
    match tx
    case Persist(job, members) => PersistTx(db, job, members)
    case Mark(account, id, mode) => MarkTx(db, account, id, mode)
    case Hide(account, id) => HideTx(db, account, id)
  }

  // The deletion handler marks a message only for the account that sent it.
  ghost predicate Legal(db: Db, tx: Tx) {
    tx.Mark? && tx.id in db.rows ==> db.rows[tx.id].sender == tx.account
  }

  ghost predicate LegalRun(db: Db, txs: seq<Tx>)
    decreases |txs|
  {
    txs == [] || (Legal(db, txs[0]) && LegalRun(Apply(db, txs[0]), txs[1..]))
  }

  function Replay(db: Db, txs: seq<Tx>): Db
    decreases |txs|
  {
    if txs == [] then db else Replay(Apply(db, txs[0]), txs[1..])
  }

  /** Every stored row shows exactly its tombstone, and a marked row has lost its text. */
  ghost predicate DbOk(db: Db) {
    && (forall id :: id in db.rows ==> db.rows[id].deleted == Tombstone(db, id))
    && (forall id :: id in db.rows && db.rows[id].deleted.Some? ==> db.rows[id].body == None)
  }

  lemma ApplyKeepsDbOk(db: Db, tx: Tx)
    requires DbOk(db) && Legal(db, tx)
    ensures DbOk(Apply(db, tx))
  {}

  // ---- what a history of transactions leaves behind ----

  ghost predicate Marks(txs: seq<Tx>, id: MessageId) {
    exists i :: 0 <= i < |txs| && txs[i].Mark? && txs[i].id == id
  }

  ghost predicate MarksEveryone(txs: seq<Tx>, id: MessageId) {
    exists i :: 0 <= i < |txs| && txs[i].Mark? && txs[i].id == id && txs[i].mode.Everyone?
  }

  /** A write of the message that no delete-for-everyone precedes. */
  ghost predicate WrittenInTime(txs: seq<Tx>, id: MessageId) {
    exists i :: 0 <= i < |txs| && txs[i].Persist? && txs[i].job.id == id && !MarksEveryone(txs[..i], id)
  }

  lemma ConsMarks(txs: seq<Tx>, id: MessageId)
    requires txs != []
    ensures Marks(txs, id) <==> (txs[0].Mark? && txs[0].id == id) || Marks(txs[1..], id)
    ensures MarksEveryone(txs, id) <==>
            (txs[0].Mark? && txs[0].id == id && txs[0].mode.Everyone?) || MarksEveryone(txs[1..], id)
  {}

  lemma ConsWritten(txs: seq<Tx>, id: MessageId)
    requires txs != []
    ensures WrittenInTime(txs, id) <==>
            (txs[0].Persist? && txs[0].job.id == id)
            || (WrittenInTime(txs[1..], id) && !(txs[0].Mark? && txs[0].id == id && txs[0].mode.Everyone?))
  {
    var head, tail := txs[0], txs[1..];
    if head.Persist? && head.job.id == id {
      assert txs[..0] == [];
      assert WrittenInTime(txs, id);
    }
    if WrittenInTime(tail, id) && !(head.Mark? && head.id == id && head.mode.Everyone?) {
      var i :| 0 <= i < |tail| && tail[i].Persist? && tail[i].job.id == id && !MarksEveryone(tail[..i], id);
      assert txs[..i + 1][1..] == tail[..i];
      ConsMarks(txs[..i + 1], id);
      assert txs[i + 1].Persist?;
    }
    if WrittenInTime(txs, id) && !(head.Persist? && head.job.id == id) {
      var i :| 0 <= i < |txs| && txs[i].Persist? && txs[i].job.id == id && !MarksEveryone(txs[..i], id);
      assert i > 0 && txs[..i][1..] == tail[..i - 1];
      ConsMarks(txs[..i], id);
      assert tail[i - 1].Persist?;
    }
  }

  /** A tombstone depends only on which marks were made, never on their order or on interleaved writes. */
  lemma {:induction false} TombstoneSummary(db: Db, txs: seq<Tx>, id: MessageId)
    ensures Tombstone(Replay(db, txs), id) ==
            if ForEveryone(Tombstone(db, id)) || MarksEveryone(txs, id) then Some(Everyone)
            else if Tombstone(db, id).Some? || Marks(txs, id) then Some(Retracted)
            else None
    decreases |txs|
  {
    if txs != [] {
      ConsMarks(txs, id);
      TombstoneSummary(Apply(db, txs[0]), txs[1..], id);
    }
  }

  /** A row appears exactly when some write came before every delete-for-everyone of its message. */
  lemma {:induction false} RowExistsIff(db: Db, txs: seq<Tx>, id: MessageId)
    ensures id in Replay(db, txs).rows <==>
            id in db.rows || (!ForEveryone(Tombstone(db, id)) && WrittenInTime(txs, id))
    decreases |txs|
  {
    if txs != [] {
      ConsWritten(txs, id);
      RowExistsIff(Apply(db, txs[0]), txs[1..], id);
    }
  }

  lemma {:induction false} ReplayKeepsDbOk(db: Db, txs: seq<Tx>)
    requires DbOk(db) && LegalRun(db, txs)
    ensures DbOk(Replay(db, txs))
    decreases |txs|
  {
    if txs != [] {
      ApplyKeepsDbOk(db, txs[0]);
      ReplayKeepsDbOk(Apply(db, txs[0]), txs[1..]);
    }
  }

  /**
    No resurrection, over every history of transactions in any order, with any number of repeated
    writes: a marked message never shows text again, its row carries the strongest mark ever made,
    and a message deleted for everyone before it was written is never written.
   */
  lemma NoResurrection(db: Db, txs: seq<Tx>, id: MessageId)
    requires DbOk(db) && LegalRun(db, txs)
    requires id in db.tombstones || Marks(txs, id)
    ensures var after := Replay(db, txs);
            && (id in after.rows ==> after.rows[id].body == None && after.rows[id].deleted == Tombstone(after, id))
            && Tombstone(after, id) ==
               Some(if ForEveryone(Tombstone(db, id)) || MarksEveryone(txs, id) then Everyone else Retracted)
            && (ForEveryone(Tombstone(db, id)) && id !in db.rows ==> id !in after.rows)
  {
    TombstoneSummary(db, txs, id);
    RowExistsIff(db, txs, id);
    ReplayKeepsDbOk(db, txs);
  }

  /** Once a job's transaction has taken effect, repeating it later changes nothing, whatever ran in between. */
  lemma CommitIsFinal(db: Db, job: Job, members: set<Account>, txs: seq<Tx>, members': set<Account>)
    ensures var after := Replay(PersistTx(db, job, members), txs);
            PersistTx(after, job, members') == after
  {
    var committed := PersistTx(db, job, members);
    TombstoneSummary(committed, txs, job.id);
    RowExistsIff(committed, txs, job.id);
  }

  // ---- what a row says ----

  /** The row of a message under a mark: all that was sent, without its text once it is marked. */
  predicate TellsJob(row: Row, job: Job, mark: Option<Mode>) {
    row == Row(job.conversation, job.sender, job.clientId, job.createdAt,
               if mark == None then Some(job.body) else None, mark)
  }

  lemma WriteTellsJob(db: Db, job: Job, members: set<Account>)
    requires job.id !in db.rows && Tombstone(db, job.id) != Some(Everyone)
    ensures var t := PersistTx(db, job, members);
            job.id in t.rows && TellsJob(t.rows[job.id], job, Tombstone(db, job.id))
  {}

  // From its creation on a row changes only with its message's mark.
  lemma {:induction false} RowFollowsMark(db: Db, txs: seq<Tx>, id: MessageId)
    requires DbOk(db) && LegalRun(db, txs) && id in db.rows
    ensures var t, row := Replay(db, txs), db.rows[id];
            && id in t.rows && DbOk(t)
            && t.rows[id] == row.(body := if Tombstone(t, id) == None then row.body else None,
                                  deleted := Tombstone(t, id))
    decreases |txs|
  {
    if txs != [] {
      ApplyKeepsDbOk(db, txs[0]);
      RowFollowsMark(Apply(db, txs[0]), txs[1..], id);
      if Tombstone(Apply(db, txs[0]), id) != None { MarkStays(Apply(db, txs[0]), txs[1..], id); }
    }
  }

  lemma MarkStays(db: Db, txs: seq<Tx>, id: MessageId)
    requires Tombstone(db, id) != None
    ensures Tombstone(Replay(db, txs), id) != None
  {
    TombstoneSummary(db, txs, id);
  }

  /**
    Over every history: a row that was not there at first is the row of one of the writes of its message, with the
    conversation, sender, client id and time sent, and with the very text unless it has been marked.
   */
  lemma {:induction false} RowTellsItsJob(db: Db, txs: seq<Tx>, id: MessageId)
    requires DbOk(db) && LegalRun(db, txs) && id !in db.rows && id in Replay(db, txs).rows
    ensures var t := Replay(db, txs);
            exists i :: 0 <= i < |txs| && txs[i].Persist? && txs[i].job.id == id
                        && TellsJob(t.rows[id], txs[i].job, Tombstone(t, id))
    decreases |txs|
  {
    var next, rest := Apply(db, txs[0]), txs[1..];
    ApplyKeepsDbOk(db, txs[0]);
    if id in next.rows {
      WriteTellsJob(db, txs[0].job, txs[0].members);
      RowFollowsMark(next, rest, id);
      if Tombstone(next, id) != None { MarkStays(next, rest, id); }
      assert TellsJob(Replay(db, txs).rows[id], txs[0].job, Tombstone(Replay(db, txs), id));
    } else {
      RowTellsItsJob(next, rest, id);
      var i :| 0 <= i < |rest| && rest[i].Persist? && rest[i].job.id == id
               && TellsJob(Replay(db, txs).rows[id], rest[i].job, Tombstone(Replay(db, txs), id));
      assert txs[i + 1] == rest[i];
    }
  }

  /** A message is hidden from exactly the accounts that hid it. */
  lemma {:induction false} HiddenIff(db: Db, txs: seq<Tx>, a: Account, id: MessageId)
    ensures (a, id) in Replay(db, txs).hidden <==> (a, id) in db.hidden || Hide(a, id) in txs
    decreases |txs|
  {
    if txs != [] {
      HiddenIff(Apply(db, txs[0]), txs[1..], a, id);
      assert Hide(a, id) in txs <==> Hide(a, id) == txs[0] || Hide(a, id) in txs[1..];
    }
  }

  /** Each account has at most one receipt per message, and only for a message with a row. */
  ghost predicate ReceiptsOk(db: Db) {
    forall id, r :: db.receipts[(id, r)] <= (if id in db.rows then 1 else 0)
  }

  lemma ApplyKeepsReceipts(db: Db, tx: Tx)
    requires ReceiptsOk(db)
    ensures ReceiptsOk(Apply(db, tx))
  {}
}
