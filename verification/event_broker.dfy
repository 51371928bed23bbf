/** The broker object: its locked sections are the steps of the event machine. */
module Broker {
  import opened Common
  import opened EventLog

  /** A list names exactly these conversations, each once. */
  ghost predicate NamesOnce(ids: seq<Conversation>, named: set<Conversation>) {
    (forall c :: c in ids <==> c in named) && forall i, j :: 0 <= i < j < |ids| ==> ids[i] != ids[j]
  }

  class MessageEventBroker {
    var accounts: map<Account, AccountState>
    var waiterCount: int
    ghost var world: World  // the machine state, whose real part is the two fields above

    ghost predicate Tracks(w: World)
      reads this
    {
      accounts == w.accounts && waiterCount == w.waiterCount
    }

    ghost predicate Valid()
      reads this
    {
      Tracks(world) && Inv(world)
    }

    constructor ()
      ensures Valid() && Init(world)
    {
      accounts, waiterCount := map[], 0;
      world := START;
    }

    /** Drops the first account found without waiters, if there is one. */
    method TrimInactiveStates() returns (ghost victim: Option<Account>)
      requires |accounts| == MAX_ACCOUNTS
      modifies this`accounts
      ensures victim.Some? ==> victim.value in old(accounts) && old(accounts)[victim.value].waiters == {}
      ensures victim.None? ==> forall b :: b in old(accounts) ==> old(accounts)[b].waiters != {}
      ensures accounts == if victim.Some? then old(accounts) - {victim.value} else old(accounts)
    {
      victim := None;
      var todo := accounts.Keys;
      while todo != {}
        invariant todo <= accounts.Keys && accounts == old(accounts) && victim.None?
        invariant forall b :: b in accounts && b !in todo ==> accounts[b].waiters != {}
      {
        var a :| a in todo;
        if |accounts[a].waiters| == 0 {
          ghost var before := accounts.Keys;
          accounts := accounts - {a};
          victim := Some(a);
          assert accounts.Keys == before - {a};
          assert |accounts.Keys| < |before|;
          if |accounts| < MAX_ACCOUNTS {
            return;
          }
        }
        todo := todo - {a};
      }
    }

    /** Finds or creates the account's state, trimming once when the table is full. */
    method Open(a: Account) returns (found: bool, ghost victim: Option<Account>)
      requires |accounts| <= MAX_ACCOUNTS && accounts == world.accounts
      modifies this`accounts
      ensures VictimOk(world, a, victim) && accounts == Opened(world, a, victim).accounts
      ensures found <==> a in accounts
      ensures !found ==> |old(accounts)| == MAX_ACCOUNTS
      ensures !found ==> forall b :: b in old(accounts) ==> old(accounts)[b].waiters != {}
    {
      victim := None;
      if a in accounts {
        return true, victim;
      }
      if |accounts| >= MAX_ACCOUNTS {
        victim := TrimInactiveStates();
      }
      assert VictimOk(world, a, victim);
      ghost var roomy := Trimmed(world, victim);
      assert accounts == roomy.accounts;
      found := |accounts| < MAX_ACCOUNTS;
      if found {
        accounts := accounts[a := EMPTY_STATE];
      }
      assert accounts == Opened(world, a, victim).accounts;
    }

    /** Removes the entries a full index no longer covers. */
    static method Prune(changes: map<Conversation, nat>, minimum: nat) returns (kept: map<Conversation, nat>)
      ensures kept == Pruned(changes, minimum)
    {
      kept := changes;
      var todo := changes.Keys;
      while todo != {}
        invariant todo <= changes.Keys
        invariant forall c :: c in kept <==> c in changes && (c in todo || changes[c] > minimum)
        invariant forall c :: c in kept ==> kept[c] == changes[c]
      {
        var c :| c in todo;
        if changes[c] <= minimum {
          kept := kept - {c};
        }
        todo := todo - {c};
      }
    }

    /** Closes and forgets each waiter of an account, one at a time. */
    method WakeAll(a: Account) returns (ghost closed: set<Waiter>)
      requires a in accounts
      modifies this`accounts, this`waiterCount
      ensures accounts == old(accounts)[a := old(accounts)[a].(waiters := {})]
      ensures closed == old(accounts)[a].waiters && waiterCount == old(waiterCount) - |closed|
    {
      ghost var all := accounts[a].waiters;
      var left := accounts[a].waiters;
      closed := {};
      while left != {}
        invariant left <= all && closed == all - left && waiterCount == old(waiterCount) - |all| + |left|
        invariant accounts == old(accounts)[a := old(accounts)[a].(waiters := left)]
      {
        var x :| x in left;
        closed := closed + {x};
        left := left - {x};
        accounts := accounts[a := accounts[a].(waiters := left)];
        waiterCount := waiterCount - 1;
      }
    }

    /** The publish to an account that has a state. */
    method BumpState(a: Account, c: Conversation)
      requires a in accounts && Bumped(accounts[a], c).0 >= 0
      modifies this`accounts, this`waiterCount
      ensures accounts == old(accounts)[a := Bump(old(accounts)[a], c)]
      ensures waiterCount == old(waiterCount) - |old(accounts)[a].waiters|
    {
      var st := accounts[a];
      var changes := st.changes[c := st.version + 1];
      var minimum := st.minimum;
      if |changes| > MAX_CHANGES {
        minimum := st.version + 1 - MAX_CHANGES;
        changes := Prune(changes, minimum);
      }
      accounts := accounts[a := AccountState(changes, minimum, st.version + 1, st.waiters)];
      ghost var _ := WakeAll(a);
    }

    method PublishOne(a: Account, c: Conversation) returns (ghost e: Event)
      requires Valid()
      modifies this
      ensures Valid() && Enabled(old(world), e) && world == Next(old(world), e)
      ensures e.Publish? && e.account == a && e.conversation == c
    {
      hide WaitersOk, Indexed;
      Bounded(world);
      var found, victim := Open(a);
      e := Publish(a, c, victim);
      PublishReady(world, a, c, victim);
      if found {
        BumpState(a, c);
      }
      StepKeepsInv(world, e);
      world := Next(world, e);
    }

    /** Publishes to each listed account once, whatever repetitions the list has. */
    method PublishAll(members: seq<Account>, c: Conversation) returns (ghost trace: seq<Event>)
      requires Valid()
      modifies this
      ensures Valid() && Published(old(world), world, trace, members, c)
    {
      hide Inv, Published;
      ghost var before := world;
      trace := [];
      NothingPublished(world, c);
      var seen := {};
      var n := 0;
      while n < |members|
        invariant 0 <= n <= |members| && Valid()
        invariant Published(before, world, trace, members[..n], c) && Covers(seen, members[..n])
      {
        assert members[..n + 1] == members[..n] + [members[n]];
        seen, trace := PublishUnlessSeen(seen, members[n], c, before, trace, members[..n]);
        n := n + 1;
      }
      assert members[..n] == members;
    }

    // One turn of the loop above; `done` are the accounts before this one.
    method PublishUnlessSeen(seen: set<Account>, a: Account, c: Conversation,
                             ghost before: World, ghost trace: seq<Event>, ghost done: seq<Account>)
      returns (now: set<Account>, ghost longer: seq<Event>)
      requires Valid() && Published(before, world, trace, done, c) && Covers(seen, done)
      modifies this
      ensures Valid() && Published(before, world, longer, done + [a], c) && Covers(now, done + [a])
    {
      now, longer := seen, trace;
      if a in seen {
      } else {
        ghost var middle := world;
        ghost var e := PublishOne(a, c);
        OnceAppend(before, middle, trace, done, c, e);
        now, longer := seen + {a}, trace + [e];
      }
    }

    static method Changed(st: AccountState, after: nat) returns (ids: seq<Conversation>)
      ensures NamesOnce(ids, ChangedSince(st, after))
    {
      ids := [];
      var todo := st.changes.Keys;
      while todo != {}
        invariant todo <= st.changes.Keys
        invariant forall c :: c in ids <==> c in ChangedSince(st, after) && c !in todo
        invariant forall i, j :: 0 <= i < j < |ids| ==> ids[i] != ids[j]
      {
        var c :| c in todo;
        if st.changes[c] > after {
          ids := ids + [c];
        }
        todo := todo - {c};
      }
    }

    /** Answers from the account's state, or registers the waiter. */
    method Inspect(a: Account, after: nat, waiter: Waiter, ghost w: World)
      returns (resync: bool, ids: seq<Conversation>, version: nat, wait: bool)
      requires a in accounts && Tracks(w)
      modifies this`accounts, this`waiterCount
      ensures var reply := ReplyOf(w, a, after);
              && wait == reply.Registered? && resync == reply.Resync? && (!wait ==> version == reply.version)
              && (reply.Delta? ==> NamesOnce(ids, reply.ids))
      ensures if wait then Tracks(Enrolled(w, a, after, waiter)) else Tracks(w)
    {
      resync, ids, wait := false, [], false;
      var st := accounts[a];
      version := st.version;
      if after > st.version || after < st.minimum {
        resync := true;
        return;
      }
      if st.version > after {
        ids := Changed(st, after);
        return;
      }
      if |st.waiters| >= MAX_WAITERS_PER_ACCOUNT || waiterCount >= MAX_WAITERS {
        resync := true;
        return;
      }
      accounts := accounts[a := st.(waiters := st.waiters + {waiter})];
      waiterCount := waiterCount + 1;
      wait := true;
    }

    /** The first half of a long poll: answer at once, or register a fresh waiter. */
    method BeginWait(a: Account, after: nat, waiter: Waiter)
      returns (resync: bool, ids: seq<Conversation>, version: nat, wait: bool, ghost e: Event)
      requires Valid() && waiter !in world.issued
      modifies this
      ensures Valid() && Enabled(old(world), e) && world == Next(old(world), e)
      ensures e.Enter? && e.account == a && e.after == after && e.waiter == waiter
      ensures var reply := EnterReply(old(world), a, after, e.victim);
              && wait == reply.Registered? && resync == reply.Resync? && (!wait ==> version == reply.version)
              && (reply.Delta? ==> NamesOnce(ids, reply.ids))
    {
      hide WaitersOk, Indexed, Next, EnterReply, ReplyOf, Enrolled, Opened, NamesOnce;
      Bounded(world);
      var found, victim := Open(a);
      e := Enter(a, after, waiter, victim);
      EnterIs(world, a, after, waiter, victim);
      ghost var ready := Opened(world, a, victim);
      StepKeepsInv(world, e);
      if found {
        resync, ids, version, wait := Inspect(a, after, waiter, ready);
      } else {
        resync, ids, version, wait := true, [], 0, false;
      }
      world := Next(world, e);
    }

    /** The timeout branch: forget the waiter if it is still there, and report the version found. */
    method TimeOut(a: Account, waiter: Waiter) returns (version: nat)
      requires Valid() && waiter in world.issued && world.issued[waiter].account == a
      modifies this
      ensures Valid() && world == Next(old(world), Cancel(a, waiter))
      ensures version == CancelVersion(world, a)
    {
      version := Forget(a, waiter, world);
      StepKeepsInv(world, Cancel(a, waiter));
      world := Next(world, Cancel(a, waiter));
    }

    method Forget(a: Account, waiter: Waiter, ghost w: World) returns (version: nat)
      requires Tracks(w)
      modifies this`accounts, this`waiterCount
      ensures Tracks(Cancelled(w, a, waiter)) && version == CancelVersion(Cancelled(w, a, waiter), a)
    {
      version := 0;
      if a in accounts {
        version := accounts[a].version;
        if waiter in accounts[a].waiters {
          accounts := accounts[a := accounts[a].(waiters := accounts[a].waiters - {waiter})];
          waiterCount := waiterCount - 1;
        }
      }
    }
  }

  // ---- facts the methods need ----

  lemma Bounded(w: World)
    requires Inv(w)
    ensures |w.accounts| <= MAX_ACCOUNTS
  {}

  lemma EnterIs(w: World, a: Account, after: nat, waiter: Waiter, victim: Option<Account>)
    ensures var t, n := Opened(w, a, victim), Next(w, Enter(a, after, waiter, victim));
            var reply := EnterReply(w, a, after, victim);
            if a in t.accounts then
              reply == ReplyOf(t, a, after) && n == if reply.Registered? then Enrolled(t, a, after, waiter) else t
            else reply == Resync(0) && n == t
    ensures Opened(w, a, victim).waiterCount == w.waiterCount
  {}

  lemma NothingPublished(w: World, c: Conversation)
    ensures Published(w, w, [], [], c)
  {}

  lemma PublishReady(w: World, a: Account, c: Conversation, victim: Option<Account>)
    requires Inv(w) && VictimOk(w, a, victim)
    ensures var t := Opened(w, a, victim);
            a in t.accounts ==> a in t.log && Bumped(t.accounts[a], c).0 >= 0
  {
    OpenedIndexed(w, a, victim);
    var t := Opened(w, a, victim);
    if a in t.accounts { BumpKeepsIndex(t.accounts[a], t.log[a], c); }
  }

  /** One publish of the conversation for each distinct member. */
  ghost predicate PublishesOnce(trace: seq<Event>, members: seq<Account>, c: Conversation) {
    && (forall i :: 0 <= i < |trace| ==> trace[i].Publish? && trace[i].conversation == c && trace[i].account in members)
    && (forall i, j :: 0 <= i < j < |trace| ==> trace[i].account != trace[j].account)
    && (forall a :: a in members ==> exists i :: 0 <= i < |trace| && trace[i].account == a)
  }

  ghost predicate Published(before: World, after: World, trace: seq<Event>, members: seq<Account>, c: Conversation) {
    ValidRun(before, trace) && after == Run(before, trace) && PublishesOnce(trace, members, c)
  }

  ghost predicate Covers(seen: set<Account>, done: seq<Account>) {
    forall a :: a in seen <==> a in done
  }

  lemma TraceAppend(trace: seq<Event>, members: seq<Account>, c: Conversation, e: Event)
    requires PublishesOnce(trace, members, c) && e.Publish? && e.conversation == c && e.account !in members
    ensures PublishesOnce(trace + [e], members + [e.account], c)
  {
    var longer := trace + [e];
    forall a | a in members + [e.account] ensures exists i :: 0 <= i < |longer| && longer[i].account == a {
      if a == e.account {
        assert longer[|trace|].account == a;
      } else {
        var i :| 0 <= i < |trace| && trace[i].account == a;
        assert longer[i].account == a;
      }
    }
  }

  lemma OnceAppend(before: World, middle: World, trace: seq<Event>, members: seq<Account>, c: Conversation, e: Event)
    requires Published(before, middle, trace, members, c) && Enabled(middle, e)
    requires e.Publish? && e.conversation == c && e.account !in members
    ensures Published(before, Next(middle, e), trace + [e], members + [e.account], c)
  {
    RunAppend(before, trace, e);
    TraceAppend(trace, members, c, e);
  }

}
