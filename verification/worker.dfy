/** The write worker run to completion: any finite pattern of failed and unreported writes is one write per job. */
module Worker {
  import opened Common
  import opened MessageDb
  import opened Pending
  import opened WriteBehind

  // One unreported attempt: the members it read, and whether it had committed all the same.
  datatype Failure = Failure(members: set<Account>, committed: bool)

  // A job's failed attempts, then the members read by the attempt that is reported as done.
  datatype Attempts = Attempts(failed: seq<Failure>, members: set<Account>)

  const FIRST_BACKOFF: int := 200_000_000
  const MAX_BACKOFF: int := 10 * SECOND

  /** The pause after the given number of earlier failures. */
  function Backoff(failures: nat): (wait: int)
    ensures FIRST_BACKOFF <= wait <= MAX_BACKOFF
  {
    if failures == 0 then FIRST_BACKOFF
    else if Backoff(failures - 1) * 2 > MAX_BACKOFF then MAX_BACKOFF
    else Backoff(failures - 1) * 2
  }

  lemma {:induction false} BackoffSettles(n: nat, m: nat)
    requires n <= m
    ensures Backoff(n) <= Backoff(m)
    ensures n >= 6 ==> Backoff(n) == MAX_BACKOFF
    decreases m
  {
    if n < m {
      BackoffSettles(n, m - 1);
    } else if n > 6 {
      BackoffSettles(n - 1, m - 1);
    }
  }

  /** The first six pauses, each twice the one before it. */
  lemma FirstPauses()
    ensures Backoff(0) == 200_000_000 && Backoff(1) == 400_000_000 && Backoff(2) == 800_000_000
    ensures Backoff(3) == 1_600_000_000 && Backoff(4) == 3_200_000_000 && Backoff(5) == 6_400_000_000
  {
    assert Backoff(2) == Backoff(1) * 2 && Backoff(4) == Backoff(3) * 2;
  }

  ghost function Retried(cfg: Config, s: State, failed: seq<Failure>): State
    decreases |failed|
  {
    if failed == [] then s
    else Retried(cfg, Next(cfg, s, Attempt(failed[0].members, failed[0].committed, false)), failed[1..])
  }

  ghost function Started(cfg: Config, s: State): State {
    if s.inflight.None? then Next(cfg, s, Take) else s
  }

  ghost function ServedOne(cfg: Config, s: State, a: Attempts): State {
    Next(cfg, Retried(cfg, Started(cfg, s), a.failed), Attempt(a.members, true, true))
  }

  ghost function Served(cfg: Config, s: State, script: seq<Attempts>): State
    decreases |script|
  {
    if script == [] then s else Served(cfg, ServedOne(cfg, s, script[0]), script[1..])
  }

  /** The members read by the first attempt that committed. */
  function Writers(failed: seq<Failure>, last: set<Account>): set<Account> {
    if failed == [] then last
    else if failed[0].committed then failed[0].members
    else Writers(failed[1..], last)
  }

  function WrittenOnce(db: Db, jobs: seq<Job>, script: seq<Attempts>): Db
    requires |script| == |jobs|
    decreases |jobs|
  {
    if jobs == [] then db
    else WrittenOnce(PersistTx(db, jobs[0], Writers(script[0].failed, script[0].members)), jobs[1..], script[1..])
  }

  lemma {:induction false} RetriedShape(cfg: Config, s: State, failed: seq<Failure>, last: set<Account>)
    requires s.inflight.Some?
    ensures var t := Retried(cfg, s, failed);
            && t == s.(db := t.db)
            && PersistTx(t.db, s.inflight.value, last) == PersistTx(s.db, s.inflight.value, Writers(failed, last))
    decreases |failed|
  {
    if failed != [] {
      var m := Next(cfg, s, Attempt(failed[0].members, failed[0].committed, false));
      RetriedShape(cfg, m, failed[1..], last);
      if failed[0].committed {
        CommitIsFinal(s.db, s.inflight.value, failed[0].members, [], Writers(failed[1..], last));
        assert Replay(m.db, []) == m.db;
      }
    }
  }

  lemma {:induction false} RetriedInv(cfg: Config, s: State, failed: seq<Failure>)
    requires Inv(cfg, s) && s.inflight.Some?
    ensures Inv(cfg, Retried(cfg, s, failed)) && Retried(cfg, s, failed).inflight == s.inflight
    decreases |failed|
  {
    if failed != [] {
      AttemptKeepsInv(cfg, s, failed[0].members, failed[0].committed, false);
      RetriedInv(cfg, Next(cfg, s, Attempt(failed[0].members, failed[0].committed, false)), failed[1..]);
    }
  }

  lemma ServedOneShape(cfg: Config, s: State, a: Attempts)
    requires Inv(cfg, s) && Jobs(s) != []
    ensures var t := ServedOne(cfg, s, a);
            && Inv(cfg, t) && t.inflight.None? && Jobs(t) == Jobs(s)[1..]
            && t.db == PersistTx(s.db, Jobs(s)[0], Writers(a.failed, a.members))
  {
    var u := Started(cfg, s);
    if s.inflight.None? { TakeKeepsInv(cfg, s); }
    assert Jobs(u) == Jobs(s) && u.inflight.value == Jobs(s)[0];
    RetriedInv(cfg, u, a.failed);
    RetriedShape(cfg, u, a.failed, a.members);
    AttemptKeepsInv(cfg, Retried(cfg, u, a.failed), a.members, true, true);
    assert Jobs(ServedOne(cfg, s, a)) == u.queue == Jobs(s)[1..];
  }

  /**
    From any state the worker can be in, once the database fails only finitely often on each waiting
    job, everything is written out: the queue and RAM are empty and the database is exactly as if each
    job had been written once, however often a commit was repeated.
   */
  lemma {:induction false} WorkerWritesEachJobOnce(cfg: Config, s: State, script: seq<Attempts>)
    requires Inv(cfg, s) && |script| == |Jobs(s)|
    ensures var t := Served(cfg, s, script);
            && Inv(cfg, t) && t.queue == [] && t.inflight.None? && t.data == map[]
            && t.db == WrittenOnce(s.db, Jobs(s), script)
    decreases |script|
  {
    if script != [] {
      ServedOneShape(cfg, s, script[0]);
      WorkerWritesEachJobOnce(cfg, ServedOne(cfg, s, script[0]), script[1..]);
    } else {
      assert forall c :: c in s.data ==> Listed(s.data, c) == [];
    }
  }

  lemma {:induction false} OthersKept(db: Db, jobs: seq<Job>, script: seq<Attempts>, id: MessageId, r: Account)
    requires |script| == |jobs| && !JobIn(jobs, id)
    ensures var t := WrittenOnce(db, jobs, script);
            && t.tombstones == db.tombstones && t.hidden == db.hidden
            && (id in t.rows <==> id in db.rows) && (id in db.rows ==> t.rows[id] == db.rows[id])
            && t.receipts[(id, r)] == db.receipts[(id, r)]
    decreases |jobs|
  {
    if jobs != [] {
      assert jobs[0].id != id;
      assert forall i :: 0 <= i < |jobs[1..]| ==> jobs[1..][i] == jobs[i + 1];
      OthersKept(PersistTx(db, jobs[0], Writers(script[0].failed, script[0].members)), jobs[1..], script[1..], id, r);
    }
  }

  /**
    After the worker has run dry every job not deleted for everyone has its row, and a newly written
    one has exactly one receipt for each member read by its first committed attempt, except the sender.
   */
  lemma {:induction false} EachJobHasItsRow(db: Db, jobs: seq<Job>, script: seq<Attempts>, i: nat, r: Account)
    requires Ordered(jobs) && |script| == |jobs| && i < |jobs| && ReceiptsOk(db)
    ensures var t, j := WrittenOnce(db, jobs, script), jobs[i];
            && (!ForEveryone(Tombstone(db, j.id)) ==> j.id in t.rows)
            && (ForEveryone(Tombstone(db, j.id)) && j.id !in db.rows ==> j.id !in t.rows)
            && (!ForEveryone(Tombstone(db, j.id)) && j.id !in db.rows ==>
                  && TellsJob(t.rows[j.id], j, Tombstone(db, j.id))
                  && t.receipts[(j.id, r)] ==
                     if r in Writers(script[i].failed, script[i].members) && r != j.sender then 1 else 0)
    decreases |jobs|
  {
    var members := Writers(script[0].failed, script[0].members);
    var next := PersistTx(db, jobs[0], members);
    ApplyKeepsReceipts(db, Persist(jobs[0], members));
    if i == 0 {
      assert forall k :: 0 <= k < |jobs[1..]| ==> jobs[1..][k] == jobs[k + 1];
      OthersKept(next, jobs[1..], script[1..], jobs[0].id, r);
    } else {
      EachJobHasItsRow(next, jobs[1..], script[1..], i - 1, r);
    }
  }
}
