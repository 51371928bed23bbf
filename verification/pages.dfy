/**
  Listing a conversation: the rows the query returns are merged with the RAM entries, sorted and
  cut to one page. Timestamps are integers here, so their order is the order of the instants.
 */
module Pages {
  import opened Common
  import opened Pending

  ghost predicate Descending(p: seq<View>) {
    forall i, j :: 0 <= i < j < |p| ==> p[i].createdAt > p[j].createdAt
  }

  /** The newest `limit` of the given messages that are older than the cursor, newest first. */
  ghost predicate IsPage(p: seq<View>, all: set<View>, before: Instant, limit: nat) {
    && Descending(p) && |p| <= limit
    && (forall v :: v in p ==> v in all && v.createdAt < before)
    && (forall v :: v in all && v.createdAt < before && v !in p ==>
          |p| == limit && forall u :: u in p ==> u.createdAt > v.createdAt)
  }

  // Two pages that agree so far agree on their next message: otherwise the older of the two is left out too early.
  lemma NextAgrees(p: seq<View>, q: seq<View>, all: set<View>, before: Instant, limit: nat, i: nat)
    requires IsPage(p, all, before, limit) && IsPage(q, all, before, limit)
    requires i < |p| && i <= |q| && p[..i] == q[..i]
    ensures i < |q| && p[i].createdAt <= q[i].createdAt
  {}

  lemma {:induction false} SameStart(p: seq<View>, q: seq<View>, all: set<View>, before: Instant, limit: nat, n: nat)
    requires IsPage(p, all, before, limit) && IsPage(q, all, before, limit) && n <= |p|
    ensures n <= |q| && p[..n] == q[..n]
  {
    if n > 0 {
      var i := n - 1;
      SameStart(p, q, all, before, limit, i);
      NextAgrees(p, q, all, before, limit, i);
      NextAgrees(q, p, all, before, limit, i);
      assert p[..n] == p[..i] + [p[i]] && q[..n] == q[..i] + [q[i]];
    }
  }

  lemma PageIsUnique(p: seq<View>, q: seq<View>, all: set<View>, before: Instant, limit: nat)
    requires IsPage(p, all, before, limit) && IsPage(q, all, before, limit)
    ensures p == q
  {
    SameStart(p, q, all, before, limit, |p|);
    SameStart(q, p, all, before, limit, |q|);
  }

  // ---- the merge ----

  predicate Shadows(m: View, v: View) {
    m.id == v.id || (v.clientId != "" && m.clientId == v.clientId)
  }

  /** The candidates appended, in order, to the messages collected so far. */
  function Merge(messages: seq<View>, pending: seq<View>, hidden: set<MessageId>, before: Instant): seq<View>
    decreases |pending|
  {
    if pending == [] then messages
    else
      var c := pending[0];
      var skip := c.id in hidden || !(c.createdAt < before) || exists m :: m in messages && Shadows(m, c);
      Merge(if skip then messages else messages + [c], pending[1..], hidden, before)
  }

  ghost predicate Candidate(v: View, pending: seq<View>, hidden: set<MessageId>, before: Instant) {
    v in pending && v.id !in hidden && v.createdAt < before
  }

  function Candidates(pending: seq<View>, hidden: set<MessageId>): set<View> {
    set v | v in pending && v.id !in hidden
  }

  ghost predicate IdsAndTimesTell(all: set<View>) {
    forall u, v :: u in all && v in all && (u.id == v.id || u.createdAt == v.createdAt) ==> u == v
  }

  ghost predicate ClientIdsTell(all: set<View>) {
    forall u, v :: u in all && v in all && u.clientId == v.clientId && u.clientId != "" ==> u == v
  }

  ghost predicate DistinctViews(p: seq<View>) {
    forall i, j :: 0 <= i < j < |p| ==> p[i] != p[j]
  }

  lemma {:induction false} MergeElements(
      messages: seq<View>, pending: seq<View>, hidden: set<MessageId>, before: Instant)
    requires DistinctViews(messages)
    ensures var m := Merge(messages, pending, hidden, before);
            && DistinctViews(m) && messages <= m
            && (forall v :: v in m ==> v in messages || Candidate(v, pending, hidden, before))
            && (forall v :: Candidate(v, pending, hidden, before) && v !in m ==>
                  exists u :: u in m && u != v && Shadows(u, v))
    decreases |pending|
  {
    if pending != [] {
      var c := pending[0];
      var skip := c.id in hidden || !(c.createdAt < before) || exists m :: m in messages && Shadows(m, c);
      var next := if skip then messages else messages + [c];
      assert !skip ==> c !in messages by {
        if c in messages { assert Shadows(c, c); }
      }
      MergeElements(next, pending[1..], hidden, before);
      var m := Merge(next, pending[1..], hidden, before);
      assert forall v :: v in next ==> v in m;
      assert forall v :: v in pending <==> v == c || v in pending[1..];
      if Candidate(c, pending, hidden, before) && c !in m {
        var u :| u in messages && Shadows(u, c);
        assert u in m;
      }
    }
  }

  lemma {:induction false} ShorterThan(p: seq<View>, q: seq<View>)
    requires DistinctViews(p) && forall v :: v in p ==> v in q
    ensures |p| <= |q|
    decreases |p|
  {
    if p != [] {
      var last := p[|p| - 1];
      assert last in p;
      var k :| 0 <= k < |q| && q[k] == last;
      var q' := q[..k] + q[k + 1..];
      var p' := p[..|p| - 1];
      forall v | v in p' ensures v in q' {
        var i :| 0 <= i < |p'| && p'[i] == v;
        assert p[i] == v && v != last;
        assert v in p;
        var n :| 0 <= n < |q| && q[n] == v;
        if n < k { assert q'[n] == v; } else { assert q'[n - 1] == v; }
      }
      ShorterThan(p', q');
    }
  }

  // A row outside the query's full page is older than everything the cut keeps.
  lemma OlderThanCut(fetched: seq<View>, sorted: seq<View>, v: View, k: nat, limit: nat)
    requires Descending(fetched) && Descending(sorted) && |fetched| == limit && k < |sorted| && k < limit
    requires forall f :: f in fetched ==> f in sorted && f.createdAt > v.createdAt
    ensures sorted[k].createdAt > v.createdAt
  {
    if sorted[k].createdAt <= v.createdAt {
      assert forall n :: k <= n < |sorted| ==> sorted[n].createdAt <= sorted[k].createdAt;
      forall f | f in fetched ensures f in sorted[..k] {
        var n :| 0 <= n < |sorted| && sorted[n] == f;
        assert sorted[..k][n] == f;
      }
      ShorterThan(fetched, sorted[..k]);
    }
  }

  function Cut(sorted: seq<View>, limit: nat): seq<View> {
    if |sorted| > limit then sorted[..limit] else sorted
  }

  /** Sorting and cutting any duplicate-free merge of the top rows with more messages gives the page of them all. */
  lemma MergedPage(
      fetched: seq<View>, rows: set<View>, extra: set<View>, sorted: seq<View>, before: Instant, limit: nat)
    requires IsPage(fetched, rows, before, limit)
    requires Descending(sorted)
    requires forall v :: v in sorted <==> v in fetched || (v in extra && v.createdAt < before)
    ensures IsPage(Cut(sorted, limit), rows + extra, before, limit)
  {
    var page := Cut(sorted, limit);
    assert forall v :: v in page ==> v in sorted;
    assert forall n :: 0 <= n < |page| ==> sorted[n] == page[n] && sorted[n] in page;
    forall v | v in rows + extra && v.createdAt < before && v !in page
      ensures |page| == limit && forall u :: u in page ==> u.createdAt > v.createdAt
    {
      if v in sorted {
        var k :| 0 <= k < |sorted| && sorted[k] == v;
      } else {
        ShorterThan(fetched, sorted);
        forall u | u in page ensures u.createdAt > v.createdAt {
          var k :| 0 <= k < |page| && page[k] == u;
          OlderThanCut(fetched, sorted, v, k, limit);
        }
      }
    }
  }

  ghost predicate NewestFirst(list: seq<View>) {
    forall i, j :: 0 <= i < j < |list| ==> list[i].createdAt >= list[j].createdAt
  }

  method Insert(sorted: seq<View>, v: View) returns (longer: seq<View>)
    requires NewestFirst(sorted)
    ensures NewestFirst(longer) && multiset(longer) == multiset(sorted) + multiset{v}
  {
    var k := 0;
    while k < |sorted| && sorted[k].createdAt >= v.createdAt
      invariant 0 <= k <= |sorted|
      invariant forall i :: 0 <= i < k ==> sorted[i].createdAt >= v.createdAt
    {
      k := k + 1;
    }
    assert sorted == sorted[..k] + sorted[k..];
    longer := sorted[..k] + [v] + sorted[k..];
  }

  /** Newest first, with the given messages and no others. */
  method SortNewestFirst(list: seq<View>) returns (sorted: seq<View>)
    ensures NewestFirst(sorted) && multiset(sorted) == multiset(list)
  {
    sorted := [];
    var n := 0;
    while n < |list|
      invariant 0 <= n <= |list|
      invariant NewestFirst(sorted) && multiset(sorted) == multiset(list[..n])
    {
      assert list[..n + 1] == list[..n] + [list[n]];
      sorted := Insert(sorted, list[n]);
      n := n + 1;
    }
    assert list[..n] == list;
  }

  lemma SortedDistinct(list: seq<View>, sorted: seq<View>)
    requires multiset(sorted) == multiset(list) && DistinctViews(list)
    requires NewestFirst(sorted)
    requires forall u, v :: u in list && v in list && u.createdAt == v.createdAt ==> u == v
    ensures Descending(sorted) && forall v :: v in sorted <==> v in list
  {
    forall v ensures v in sorted <==> v in list {
      assert v in multiset(sorted) <==> v in multiset(list);
    }
    forall i, j | 0 <= i < j < |sorted| ensures sorted[i].createdAt > sorted[j].createdAt {
      assert sorted[i] in list && sorted[j] in list;
      if sorted[i].createdAt == sorted[j].createdAt {
        assert sorted == sorted[..i] + [sorted[i]] + sorted[i + 1..j] + [sorted[j]] + sorted[j + 1..];
        assert multiset(list)[sorted[i]] >= 2;
        DistinctCount(list, sorted[i]);
      }
    }
  }

  lemma {:induction false} DistinctCount(list: seq<View>, v: View)
    requires DistinctViews(list)
    ensures multiset(list)[v] <= 1
    decreases |list|
  {
    if list != [] {
      var rest := list[..|list| - 1];
      assert list == rest + [list[|list| - 1]];
      DistinctCount(rest, v);
      if v == list[|list| - 1] {
        assert v !in rest;
        assert v !in multiset(rest);
      }
    }
  }

  predicate Eligible(v: View, hidden: set<MessageId>, before: Instant) {
    v.id !in hidden && v.createdAt < before
  }

  predicate Names(messages: seq<View>, c: ClientId) {
    exists i :: 0 <= i < |messages| && messages[i].clientId == c
  }

  /** Entry n carries the client id of a fetched message or of an eligible entry before it. */
  predicate Clashes(fetched: seq<View>, pending: seq<View>, hidden: set<MessageId>, before: Instant, n: nat)
    requires n < |pending|
  {
    && pending[n].clientId != ""
    && (|| Names(fetched, pending[n].clientId)
        || exists k :: 0 <= k < n && Eligible(pending[k], hidden, before) && pending[k].clientId == pending[n].clientId)
  }

  /** What the handler loses: eligible entries without a row that clash wherever they stand in the list. */
  function Lost(fetched: seq<View>, rows: set<View>, pending: seq<View>, hidden: set<MessageId>, before: Instant)
    : set<View>
  {
    set v | v in pending && Eligible(v, hidden, before) && v !in rows
            && forall n :: 0 <= n < |pending| && pending[n] == v ==> Clashes(fetched, pending, hidden, before, n)
  }

  // An unhidden entry shares its id with no other message.
  ghost predicate IdsTell(messages: seq<View>, pending: seq<View>, hidden: set<MessageId>) {
    forall u, v :: (u in messages || u in pending) && v in pending && v.id !in hidden && u.id == v.id ==> u == v
  }

  // The entry, unless already there, is collected where it first stands without a clash.
  ghost predicate Collected(
      messages: seq<View>, pending: seq<View>, hidden: set<MessageId>, before: Instant, v: View)
  {
    v in messages || exists n :: 0 <= n < |pending| && pending[n] == v && !Clashes(messages, pending, hidden, before, n)
  }

  // The next messages name what the old ones do, and the client id of this entry if it is eligible.
  ghost predicate AlsoNames(messages: seq<View>, v: View, next: seq<View>, hidden: set<MessageId>, before: Instant) {
    forall c :: c != "" ==> (Names(next, c) <==> Names(messages, c) || (Eligible(v, hidden, before) && v.clientId == c))
  }

  lemma ClashesLater(
      messages: seq<View>, next: seq<View>, pending: seq<View>, hidden: set<MessageId>, before: Instant, n: nat)
    requires 0 < n < |pending| && AlsoNames(messages, pending[0], next, hidden, before)
    ensures Clashes(next, pending[1..], hidden, before, n - 1) <==> Clashes(messages, pending, hidden, before, n)
  {
    var c, tail := pending[n].clientId, pending[1..];
    assert tail[n - 1] == pending[n];
    assert forall k :: 0 <= k < n - 1 ==> tail[k] == pending[k + 1];
    assert forall k :: 0 < k < n ==> pending[k] == tail[k - 1];
  }

  // What the merge does with the first entry: afterwards its client id is among those named.
  lemma FirstEntry(messages: seq<View>, pending: seq<View>, hidden: set<MessageId>, before: Instant)
    returns (next: seq<View>)
    requires pending != [] && IdsTell(messages, pending, hidden)
    ensures Merge(messages, pending, hidden, before) == Merge(next, pending[1..], hidden, before)
    ensures next == messages || (next == messages + [pending[0]] && Eligible(pending[0], hidden, before))
    ensures AlsoNames(messages, pending[0], next, hidden, before)
    ensures Eligible(pending[0], hidden, before) ==>
              (pending[0] in next <==> pending[0] in messages || !Clashes(messages, pending, hidden, before, 0))
  {
    var c := pending[0];
    var skip := c.id in hidden || !(c.createdAt < before) || exists m :: m in messages && Shadows(m, c);
    next := if skip then messages else messages + [c];
    if !skip {
      assert next[|messages|] == c && forall i :: 0 <= i < |messages| ==> next[i] == messages[i];
      assert forall i :: 0 <= i < |messages| ==> messages[i] in messages && !Shadows(messages[i], c);
    } else if Eligible(c, hidden, before) {
      var m :| m in messages && Shadows(m, c);
      var i :| 0 <= i < |messages| && messages[i] == m;
      assert m.clientId == c.clientId;
    }
  }

  /** The merge collects an eligible entry if and only if it is already there or stands somewhere without a clash. */
  lemma {:induction false} MergeCollectsIff(
      messages: seq<View>, pending: seq<View>, hidden: set<MessageId>, before: Instant, v: View)
    requires IdsTell(messages, pending, hidden) && Candidate(v, pending, hidden, before)
    ensures v in Merge(messages, pending, hidden, before) <==> Collected(messages, pending, hidden, before, v)
    decreases |pending|
  {
    hide Merge, Clashes, Names;
    var next := FirstEntry(messages, pending, hidden, before);
    var tail := pending[1..];
    assert forall u :: u in tail ==> u in pending;
    assert forall n :: 0 < n < |pending| ==> pending[n] == tail[n - 1];
    forall n | 0 < n < |pending|
      ensures Clashes(next, tail, hidden, before, n - 1) <==> Clashes(messages, pending, hidden, before, n)
    {
      ClashesLater(messages, next, pending, hidden, before, n);
    }
    if v in tail {
      MergeCollectsIff(next, tail, hidden, before, v);
    } else {
      MergeOfOthers(next, tail, hidden, before, v);
    }
  }

  lemma {:induction false} MergeOfOthers(
      messages: seq<View>, pending: seq<View>, hidden: set<MessageId>, before: Instant, v: View)
    requires v !in pending
    ensures v in Merge(messages, pending, hidden, before) <==> v in messages
    decreases |pending|
  {
    if pending != [] {
      var c := pending[0];
      var skip := c.id in hidden || !(c.createdAt < before) || exists m :: m in messages && Shadows(m, c);
      MergeOfOthers(if skip then messages else messages + [c], pending[1..], hidden, before, v);
    }
  }

  /** What is lost is what the merge leaves out, of the entries that have no row. */
  lemma LostIsLeftOut(
      fetched: seq<View>, rows: set<View>, pending: seq<View>, hidden: set<MessageId>, before: Instant, limit: nat,
      v: View)
    requires IsPage(fetched, rows, before, limit) && IdsAndTimesTell(rows + Candidates(pending, hidden))
    requires Candidate(v, pending, hidden, before) && v !in rows
    ensures v in Lost(fetched, rows, pending, hidden, before) <==> v !in Merge(fetched, pending, hidden, before)
  {
    assert forall u :: u in fetched ==> u in rows;
    assert IdsTell(fetched, pending, hidden);
    MergeCollectsIff(fetched, pending, hidden, before, v);
  }

  /** The query's rows and the RAM entries, less what the merge loses. */
  ghost function Kept(fetched: seq<View>, rows: set<View>, pending: seq<View>, hidden: set<MessageId>, before: Instant)
    : set<View>
  {
    rows + Candidates(pending, hidden) - Lost(fetched, rows, pending, hidden, before)
  }

  method Collect(fetched: seq<View>, pending: seq<View>, hidden: set<MessageId>, before: Instant)
    returns (messages: seq<View>)
    ensures messages == Merge(fetched, pending, hidden, before)
  {
    messages := fetched;
    var n := 0;
    while n < |pending|
      invariant 0 <= n <= |pending|
      invariant Merge(messages, pending[n..], hidden, before) == Merge(fetched, pending, hidden, before)
    {
      var candidate := pending[n];
      assert pending[n..][0] == candidate && pending[n..][1..] == pending[n + 1..];
      if candidate.id !in hidden && candidate.createdAt < before {
        var duplicate := false;
        var k := 0;
        while k < |messages|
          invariant 0 <= k <= |messages|
          invariant duplicate <==> exists i :: 0 <= i < k && Shadows(messages[i], candidate)
        {
          duplicate := duplicate || Shadows(messages[k], candidate);
          k := k + 1;
        }
        assert duplicate <==> exists m :: m in messages && Shadows(m, candidate);
        if !duplicate {
          messages := messages + [candidate];
        }
      }
      n := n + 1;
    }
  }

  /**
    The list handler's page from the query's rows and the RAM entries: the newest messages of both,
    less only what the client-id comparison loses, with a cursor exactly when the page is full.
   */
  method ListPage(
      fetched: seq<View>, pending: seq<View>, hidden: set<MessageId>, before: Instant, limit: nat,
      ghost rows: set<View>)
    returns (page: seq<View>, nextCursor: Option<Instant>)
    requires limit > 0 && IsPage(fetched, rows, before, limit)
    requires IdsAndTimesTell(rows + Candidates(pending, hidden))
    ensures IsPage(page, Kept(fetched, rows, pending, hidden, before), before, limit)
    ensures nextCursor == if |page| == limit then Some(page[limit - 1].createdAt) else None
  {
    page := Merged(fetched, pending, hidden, before, limit, rows);
    nextCursor := if |page| == limit then Some(page[|page| - 1].createdAt) else None;
  }

  method Merged(
      fetched: seq<View>, pending: seq<View>, hidden: set<MessageId>, before: Instant, limit: nat,
      ghost rows: set<View>)
    returns (page: seq<View>)
    requires IsPage(fetched, rows, before, limit)
    requires IdsAndTimesTell(rows + Candidates(pending, hidden))
    ensures IsPage(page, Kept(fetched, rows, pending, hidden, before), before, limit)
  {
    if |pending| == 0 {
      assert Kept(fetched, rows, pending, hidden, before) == rows;
      return fetched;
    }
    var messages := Collect(fetched, pending, hidden, before);
    messages := SortNewestFirst(messages);
    MergeSorted(fetched, pending, hidden, before, limit, rows, messages);
    page := if |messages| > limit then messages[..limit] else messages;
  }

  lemma KeptIs(
      fetched: seq<View>, pending: seq<View>, hidden: set<MessageId>, before: Instant, limit: nat, rows: set<View>)
    requires IsPage(fetched, rows, before, limit) && IdsAndTimesTell(rows + Candidates(pending, hidden))
    ensures var merged := Merge(fetched, pending, hidden, before);
            var extra := set v | v in Candidates(pending, hidden) && (v.createdAt < before ==> v in merged);
            rows + extra == Kept(fetched, rows, pending, hidden, before)
  {
    forall v | v in Candidates(pending, hidden) && v.createdAt < before && v !in rows
      ensures v in Lost(fetched, rows, pending, hidden, before) <==> v !in Merge(fetched, pending, hidden, before)
    {
      LostIsLeftOut(fetched, rows, pending, hidden, before, limit, v);
    }
  }

  lemma MergeSorted(
      fetched: seq<View>, pending: seq<View>, hidden: set<MessageId>, before: Instant, limit: nat, rows: set<View>,
      sorted: seq<View>)
    requires IsPage(fetched, rows, before, limit) && IdsAndTimesTell(rows + Candidates(pending, hidden))
    requires multiset(sorted) == multiset(Merge(fetched, pending, hidden, before))
    requires NewestFirst(sorted)
    ensures IsPage(Cut(sorted, limit), Kept(fetched, rows, pending, hidden, before), before, limit)
  {
    var merged := Merge(fetched, pending, hidden, before);
    var extra := set v | v in Candidates(pending, hidden) && (v.createdAt < before ==> v in merged);
    MergedIs(fetched, pending, hidden, before, limit, rows);
    SortedDistinct(merged, sorted);
    MergedPage(fetched, rows, extra, sorted, before, limit);
    KeptIs(fetched, pending, hidden, before, limit, rows);
  }

  lemma MergedIs(
      fetched: seq<View>, pending: seq<View>, hidden: set<MessageId>, before: Instant, limit: nat, rows: set<View>)
    requires IsPage(fetched, rows, before, limit) && IdsAndTimesTell(rows + Candidates(pending, hidden))
    ensures var merged := Merge(fetched, pending, hidden, before);
            && DistinctViews(merged)
            && (forall v :: v in merged ==> v in rows + Candidates(pending, hidden))
            && (forall u, v :: u in merged && v in merged && u.createdAt == v.createdAt ==> u == v)
            && (forall v :: v in merged <==>
                  v in fetched || (v in Candidates(pending, hidden) && v.createdAt < before && v in merged))
  {
    MergeElements(fetched, pending, hidden, before);
    var merged := Merge(fetched, pending, hidden, before);
    assert forall i :: 0 <= i < |fetched| ==> merged[i] == fetched[i];
  }

  // ---- what the client-id comparison costs ----

  /** A lost message shares its nonempty client id with another message of the conversation. */
  lemma LostSharesClientId(
      fetched: seq<View>, rows: set<View>, pending: seq<View>, hidden: set<MessageId>, before: Instant, limit: nat,
      v: View)
    requires IsPage(fetched, rows, before, limit) && IdsAndTimesTell(rows + Candidates(pending, hidden))
    requires v in Lost(fetched, rows, pending, hidden, before)
    ensures v.clientId != ""
    ensures exists u :: u in rows + Candidates(pending, hidden) && u != v && u.clientId == v.clientId
  {
    MergeElements(fetched, pending, hidden, before);
    LostIsLeftOut(fetched, rows, pending, hidden, before, limit, v);
    var u :| u in Merge(fetched, pending, hidden, before) && u != v && Shadows(u, v);
    assert u in fetched ==> u in rows;
    assert u in rows + Candidates(pending, hidden);
  }

  /**
    The page is right exactly when no message of the right page is lost to the client-id comparison;
    in particular it is right whenever client ids tell the conversation's messages apart.
   */
  lemma PageRightIff(
      fetched: seq<View>, rows: set<View>, pending: seq<View>, hidden: set<MessageId>, before: Instant, limit: nat,
      page: seq<View>, right: seq<View>)
    requires IsPage(fetched, rows, before, limit)
    requires IdsAndTimesTell(rows + Candidates(pending, hidden))
    requires IsPage(page, Kept(fetched, rows, pending, hidden, before), before, limit)
    requires IsPage(right, rows + Candidates(pending, hidden), before, limit)
    ensures page == right <==> forall v :: v in right ==> v !in Lost(fetched, rows, pending, hidden, before)
    ensures ClientIdsTell(rows + Candidates(pending, hidden)) ==> page == right
  {
    var all := rows + Candidates(pending, hidden);
    var lost := Lost(fetched, rows, pending, hidden, before);
    if forall v :: v in right ==> v !in lost {
      PageIsUnique(page, right, all - lost, before, limit);
    }
    if ClientIdsTell(all) {
      forall v | v in right ensures v !in lost {
        if v in lost { LostSharesClientId(fetched, rows, pending, hidden, before, limit, v); }
      }
    }
  }

  /** Two members who pick the same client id: the newer message, still in RAM, is missing from the page. */
  lemma SharedClientIdLosesMessage()
    ensures var stored := View("m1", "client-1", "c", "ann", Some("hi"), 1, false);
            var waiting := View("m2", "client-1", "c", "bob", Some("yo"), 2, false);
            && IdsAndTimesTell({stored} + Candidates([waiting], {}))
            && IsPage([stored], {stored}, 10, 5)
            && IsPage([waiting, stored], {stored} + Candidates([waiting], {}), 10, 5)
            && Merge([stored], [waiting], {}, 10) == [stored]
  {
    var stored := View("m1", "client-1", "c", "ann", Some("hi"), 1, false);
    var waiting := View("m2", "client-1", "c", "bob", Some("yo"), 2, false);
    assert Shadows(stored, waiting);
    assert [waiting][0] == waiting && [waiting][1..] == [];
    assert Merge([stored], [], {}, 10) == [stored];
  }

  // ---- following the cursor ----

  lemma Newest(all: set<View>) returns (m: View)
    requires all != {}
    ensures m in all && forall v :: v in all ==> v.createdAt <= m.createdAt
    decreases |all|
  {
    m :| m in all;
    var rest := all - {m};
    if rest != {} {
      var n := Newest(rest);
      if n.createdAt > m.createdAt { m := n; }
    }
  }

  lemma {:induction false} PageExists(all: set<View>, before: Instant, limit: nat) returns (p: seq<View>)
    requires IdsAndTimesTell(all)
    ensures IsPage(p, all, before, limit)
    decreases limit
  {
    var older := set v | v in all && v.createdAt < before;
    p := [];
    if limit > 0 && older != {} {
      var m := Newest(older);
      var rest := PageExists(all, m.createdAt, limit - 1);
      p := [m] + rest;
      assert forall v :: v in p <==> v == m || v in rest;
    } else if limit > 0 {
      assert forall v :: v in all && v.createdAt < before ==> v in older;
    }
  }

  /** A walk over an unchanging conversation: each full page's cursor starts the next page. */
  ghost predicate Walk(pages: seq<seq<View>>, all: set<View>, before: Instant, limit: nat)
    decreases |pages|
  {
    && pages != [] && limit > 0 && IsPage(pages[0], all, before, limit)
    && if |pages[0]| == limit then Walk(pages[1..], all, pages[0][limit - 1].createdAt, limit) else |pages| == 1
  }

  function Flat(pages: seq<seq<View>>): seq<View> {
    if pages == [] then [] else pages[0] + Flat(pages[1..])
  }

  /** Following the cursors lists every message older than the start exactly once, newest first. */
  lemma {:induction false} WalkListsEachOnce(pages: seq<seq<View>>, all: set<View>, before: Instant, limit: nat)
    requires Walk(pages, all, before, limit)
    ensures Descending(Flat(pages))
    ensures forall v :: v in Flat(pages) <==> v in all && v.createdAt < before
    decreases |pages|
  {
    var first := pages[0];
    if |first| == limit {
      var last := first[limit - 1];
      assert last in first;
      WalkListsEachOnce(pages[1..], all, last.createdAt, limit);
      var rest := Flat(pages[1..]);
      forall v | v in all && v.createdAt < before && v !in first ensures v in rest {
        assert last.createdAt > v.createdAt;
      }
      assert forall i :: 0 <= i < |rest| ==> rest[i] in rest;
      assert forall i :: 0 <= i < limit ==> first[i].createdAt >= last.createdAt && first[i] in first;
    } else {
      assert pages[1..] == [];
      assert Flat(pages) == first;
    }
  }

  lemma {:induction false} WalkEnds(all: set<View>, before: Instant, limit: nat) returns (pages: seq<seq<View>>)
    requires IdsAndTimesTell(all) && limit > 0
    ensures Walk(pages, all, before, limit)
    decreases |set v | v in all && v.createdAt < before|
  {
    var first := PageExists(all, before, limit);
    pages := [first];
    if |first| == limit {
      var last := first[limit - 1];
      assert last in first;
      var older, oldest := set v | v in all && v.createdAt < before, set v | v in all && v.createdAt < last.createdAt;
      assert oldest <= older && last in older && last !in oldest;
      assert oldest < older;
      SubsetSmaller(oldest, older);
      var rest := WalkEnds(all, last.createdAt, limit);
      pages := [first] + rest;
      assert pages[1..] == rest;
    }
  }

  lemma {:induction false} SubsetSmaller(a: set<View>, b: set<View>)
    requires a < b
    ensures |a| < |b|
    decreases |a|
  {
    if a != {} {
      var v, x :| v in a && x in b && x !in a;
      assert a - {v} <= b - {v} && x in b - {v} && x !in a - {v};
      SubsetSmaller(a - {v}, b - {v});
    }
  }
}
