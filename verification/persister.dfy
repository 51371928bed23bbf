/** The persister object: the in-place code whose steps are the events of the write-behind machine. */
module Persistence {
  import opened Common
  import opened MessageDb
  import opened Pending
  import opened WriteBehind
  import opened Delivery
  import opened Worker

  lemma FreshNotHeld(cfg: Config, s: State, id: MessageId)
    requires Inv(cfg, s) && Fresh(s, id)
    ensures !HasAny(s.data, id)
  {
    EntryIff(cfg, s, id);
  }

  class Persister {
    var db: Db  // the external database, changed only by transactions
    const pending: PendingStore
    var queue: seq<Job>
    var inflight: Option<Job>
    var lastCreatedAt: Instant
    const capacity: nat
    ghost var authors: map<MessageId, Account>

    ghost function Cfg(): Config {
      Config(capacity, pending.limit)
    }

    ghost function Snapshot(): State
      reads this, pending
    {
      State(db, pending.data, pending.hidden, queue, inflight, lastCreatedAt, authors)
    }

    ghost predicate Valid()
      reads this, pending
    {
      pending.Valid() && Inv(Cfg(), Snapshot())
    }

    constructor (db: Db, capacity: nat, pending: PendingStore)
      requires DbOk(db) && ReceiptsOk(db)
      requires pending.Valid() && pending.data == map[] && pending.hidden == map[]
      ensures Valid() && Init(Snapshot()) && this.db == db && this.pending == pending && this.capacity == capacity
    {
      this.db := db;
      this.pending := pending;
      this.capacity := capacity;
      queue, inflight, lastCreatedAt := [], None, 0;
      authors := map id | id in db.rows :: db.rows[id].sender;
      new;
      InitInv(Cfg(), Snapshot());
    }

    /** Reserves the RAM entry and the queue slot together, stamped later than everything before it. */
    method Accept(job: Job, clock: Instant) returns (ok: bool, stamped: Job)
      requires Valid() && Fresh(Snapshot(), job.id)
      modifies this, pending
      ensures Valid()
      ensures Snapshot() == Next(Cfg(), old(Snapshot()), WriteBehind.Accept(job, clock))
      ensures ok <==> HasRoom(Cfg(), old(Snapshot()))
      ensures ok ==> stamped == job.(createdAt := stamped.createdAt) && queue == old(queue) + [stamped]
      ensures stamped.createdAt > old(lastCreatedAt) && stamped.createdAt >= clock
    {
      hide Inv, ListsOk;
      ghost var before := Snapshot();
      var now := clock;
      if !(now > lastCreatedAt) {
        now := lastCreatedAt + 1;
      }
      stamped := job.(createdAt := now);
      if |queue| == capacity {
        return false, stamped;
      }
      FreshNotHeld(Cfg(), before, job.id);
      AcceptKeepsInv(Cfg(), before, job, clock);
      var added := pending.TryAppend(job.conversation, Render(stamped, None));
      if !added {
        return false, stamped;
      }
      if |queue| < capacity {
        queue := queue + [stamped];
        lastCreatedAt := now;
        authors := authors[job.id := job.sender];
        ok := true;
        assert Snapshot() == Stored(before, stamped);
      } else {
        assert false;  // the channel only drains while the lock is held: the rollback is dead
      }
    }

    method TakeJob()
      requires Valid() && inflight.None? && queue != []
      modifies this
      ensures Valid() && Snapshot() == Next(Cfg(), old(Snapshot()), Take)
    {
      TakeKeepsInv(Cfg(), Snapshot());
      inflight, queue := Some(queue[0]), queue[1..];
    }

    /** One attempt; the database decides whether it commits and whether the caller hears of it. */
    method DoPersist(members: set<Account>, committed: bool, reported: bool)
      requires Valid() && inflight.Some? && (reported ==> committed)
      modifies this, pending
      ensures !reported ==> inflight == old(inflight)
      ensures Valid() && Snapshot() == Next(Cfg(), old(Snapshot()), Attempt(members, committed, reported))
    {
      hide Inv, PersistTx;
      AttemptKeepsInv(Cfg(), Snapshot(), members, committed, reported);
      var job := inflight.value;
      if committed {
        db := PersistTx(db, job, members);
      }
      if !reported {
        return;
      }
      pending.Remove(job.conversation, job.id);
      inflight := None;
    }

    /** Tries until an attempt is reported as done, pausing longer after each failure. */
    method PersistWithRetry(outcome: Attempts) returns (pauses: seq<int>)
      requires Valid() && inflight.Some?
      modifies this, pending
      ensures Valid()
      ensures Snapshot()
              == Next(Cfg(), Retried(Cfg(), old(Snapshot()), outcome.failed), Attempt(outcome.members, true, true))
      ensures |pauses| == |outcome.failed| && forall k :: 0 <= k < |pauses| ==> pauses[k] == Backoff(k)
    {
      hide Inv, Next;
      ghost var before := Snapshot();
      pauses := [];
      var backoff := FIRST_BACKOFF;
      var attempt := 0;
      while attempt < |outcome.failed|
        invariant 0 <= attempt <= |outcome.failed| && |pauses| == attempt && backoff == Backoff(attempt)
        invariant Valid() && inflight.Some?
        invariant Retried(Cfg(), Snapshot(), outcome.failed[attempt..]) == Retried(Cfg(), before, outcome.failed)
        invariant forall k :: 0 <= k < |pauses| ==> pauses[k] == Backoff(k)
      {
        DoPersist(outcome.failed[attempt].members, outcome.failed[attempt].committed, false);
        assert outcome.failed[attempt..][1..] == outcome.failed[attempt + 1..];
        pauses := pauses + [backoff];
        backoff := backoff * 2;
        if backoff > MAX_BACKOFF {
          backoff := MAX_BACKOFF;
        }
        attempt := attempt + 1;
      }
      DoPersist(outcome.members, true, true);
    }

    /** The worker loop over all waiting jobs, each failing finitely often. */
    method Drain(script: seq<Attempts>)
      requires Valid() && |script| == |Jobs(Snapshot())|
      modifies this, pending
      ensures Valid() && Snapshot() == Served(Cfg(), old(Snapshot()), script)
      ensures queue == [] && inflight.None? && pending.data == map[] && pending.total == 0
      ensures db == WrittenOnce(old(db), old(Jobs(Snapshot())), script)
    {
      ghost var before := Snapshot();
      WorkerWritesEachJobOnce(Cfg(), before, script);
      var k := 0;
      while k < |script|
        invariant 0 <= k <= |script| && Valid() && |Jobs(Snapshot())| == |script| - k
        invariant Served(Cfg(), Snapshot(), script[k..]) == Served(Cfg(), before, script)
      {
        ServedOneShape(Cfg(), Snapshot(), script[k]);
        assert script[k..][1..] == script[k + 1..];
        if inflight.None? {
          TakeJob();
        }
        var _ := PersistWithRetry(script[k]);
        k := k + 1;
      }
    }

    /** The sender of a message, from its row or else from RAM. */
    method Lookup(id: MessageId) returns (sender: Option<Account>)
      requires Valid()
      ensures sender.Some? ==> LookupFinds(Snapshot(), id, sender.value)
      ensures sender.None? <==> id !in db.rows && !HasAny(pending.data, id)
    {
      if id in db.rows {
        return Some(db.rows[id].sender);
      }
      var found := pending.Find(id);
      if found.Some? {
        ghost var c :| c in pending.data && found.value in pending.data[c];
        assert found.value in Listed(Snapshot().data, c);
        return Some(found.value.sender);
      }
      sender := None;
    }

    /** Retract or delete for everyone, under the worker's lock; a failed mark changes nothing. */
    method DeleteShared(account: Account, id: MessageId, mode: Mode, markFails: bool) returns (ok: bool)
      requires Valid() && Enabled(Snapshot(), Delete(account, id, mode))
      modifies this, pending
      ensures Valid() && ok == !markFails
      ensures Snapshot()
              == if markFails then old(Snapshot()) else Next(Cfg(), old(Snapshot()), Delete(account, id, mode))
    {
      if markFails {
        return false;
      }
      DeleteKeepsInv(Cfg(), Snapshot(), account, id, mode);
      db := MarkTx(db, account, id, mode);
      if mode.Everyone? {
        var _ := pending.DeleteEverywhere(id);
      } else {
        var _ := pending.Retract(id);
      }
      ok := true;
    }

    method HideInDatabase(account: Account, id: MessageId)
      requires Valid()
      modifies this
      ensures Valid() && Snapshot() == Next(Cfg(), old(Snapshot()), HideRow(account, id))
    {
      HideKeepsInv(Cfg(), Snapshot(), HideRow(account, id));
      db := HideTx(db, account, id);
    }

    method HideInRam(account: Account, id: MessageId)
      requires Valid()
      modifies pending
      ensures Valid() && Snapshot() == Next(Cfg(), old(Snapshot()), HideEntry(account, id))
    {
      HideKeepsInv(Cfg(), Snapshot(), HideEntry(account, id));
      pending.Hide(account, id);
    }
  }
}
