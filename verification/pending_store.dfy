/**
  The RAM store of accepted but not yet written messages: one list per conversation, a global
  entry count, and the accounts each message is hidden from.
 */
module Pending {
  import opened Common

  datatype View = View(
    id: MessageId,
    clientId: ClientId,
    conversation: Conversation,
    sender: Account,
    body: Option<string>,
    createdAt: Instant,
    deleted: bool)

  type Lists = map<Conversation, seq<View>>

  function Listed(data: Lists, c: Conversation): seq<View> {
    if c in data then data[c] else []
  }

  function Without(list: seq<View>, id: MessageId): seq<View> {
    if list == [] then []
    else if list[0].id == id then Without(list[1..], id)
    else [list[0]] + Without(list[1..], id)
  }

  function Scrubbed(list: seq<View>, id: MessageId): seq<View> {
    if list == [] then []
    else [if list[0].id == id then list[0].(body := None, deleted := true) else list[0]] + Scrubbed(list[1..], id)
  }

  function WithList(data: Lists, c: Conversation, list: seq<View>): Lists {
    if list == [] then data - {c} else data[c := list]
  }

  function WithoutAll(data: Lists, id: MessageId): Lists {
    map c | c in data && Without(data[c], id) != [] :: Without(data[c], id)
  }

  function ScrubbedAll(data: Lists, id: MessageId): Lists {
    map c | c in data :: Scrubbed(data[c], id)
  }

  ghost predicate Has(list: seq<View>, id: MessageId) {
    exists i :: 0 <= i < |list| && list[i].id == id
  }

  ghost predicate HasAny(data: Lists, id: MessageId) {
    exists c :: c in data && Has(data[c], id)
  }

  ghost predicate DistinctIds(list: seq<View>) {
    forall i, j :: 0 <= i < j < |list| ==> list[i].id != list[j].id
  }

  /** Every entry sits in its own conversation's nonempty list, and no id occurs twice anywhere. */
  ghost predicate ListsOk(data: Lists) {
    && (forall c :: c in data ==> data[c] != [] && DistinctIds(data[c]))
    && (forall c, i :: c in data && 0 <= i < |data[c]| ==> data[c][i].conversation == c)
    && (forall c, d, id :: c in data && d in data && Has(data[c], id) && Has(data[d], id) ==> c == d)
  }

  ghost function Total(data: Lists): nat
    decreases |data|
  {
    if data == map[] then 0
    else var c :| c in data; |data[c]| + Total(data - {c})
  }

  lemma {:induction false} TotalSplit(data: Lists, c: Conversation)
    requires c in data
    ensures Total(data) == |data[c]| + Total(data - {c})
    decreases |data|
  {
    var d :| d in data && Total(data) == |data[d]| + Total(data - {d});
    if d != c {
      TotalSplit(data - {d}, c);
      TotalSplit(data - {c}, d);
      assert data - {d} - {c} == data - {c} - {d};
    }
  }

  lemma TotalUpdate(data: Lists, c: Conversation, list: seq<View>)
    ensures Total(WithList(data, c, list)) == Total(data) - |Listed(data, c)| + |list|
  {
    var rest := data - {c};
    if c in data {
      TotalSplit(data, c);
    } else {
      assert rest == data;
    }
    if list != [] {
      TotalSplit(data[c := list], c);
      assert data[c := list] - {c} == rest;
    }
  }

  lemma {:induction false} WithoutAbsent(list: seq<View>, id: MessageId)
    requires !Has(list, id)
    ensures Without(list, id) == list
  {
    if list != [] {
      assert list[0].id != id;
      WithoutAbsent(list[1..], id);
    }
  }

  lemma {:induction false} WithoutAt(list: seq<View>, id: MessageId, i: nat)
    requires DistinctIds(list) && i < |list| && list[i].id == id
    ensures Without(list, id) == list[..i] + list[i + 1..]
  {
    if i == 0 {
      WithoutAbsent(list[1..], id);
    } else {
      WithoutAt(list[1..], id, i - 1);
      assert list[..i] == [list[0]] + list[1..][..i - 1];
    }
  }

  lemma {:induction false} ScrubbedAt(list: seq<View>, id: MessageId, i: nat)
    requires i < |list|
    ensures |Scrubbed(list, id)| == |list|
    ensures Scrubbed(list, id)[i] == if list[i].id == id then list[i].(body := None, deleted := true) else list[i]
  {
    if i > 0 {
      ScrubbedAt(list[1..], id, i - 1);
    } else if |list| > 1 {
      ScrubbedAt(list[1..], id, 0);
    }
  }

  lemma ScrubbedShape(list: seq<View>, id: MessageId)
    ensures |Scrubbed(list, id)| == |list|
    ensures forall i :: 0 <= i < |list| ==> Scrubbed(list, id)[i].id == list[i].id
    ensures forall i :: 0 <= i < |list| ==> Scrubbed(list, id)[i].conversation == list[i].conversation
    ensures !Has(list, id) ==> Scrubbed(list, id) == list
  {}

  class PendingStore {
    var data: Lists
    var hidden: map<MessageId, set<Account>>
    const limit: nat
    var total: int

    ghost predicate Valid()
      reads this
    {
      ListsOk(data) && total == Total(data) && total <= limit
    }

    constructor (limit: nat)
      ensures Valid() && data == map[] && hidden == map[] && this.limit == limit
    {
      this.limit := limit;
      data, hidden, total := map[], map[], 0;
    }

    method TryAppend(c: Conversation, msg: View) returns (ok: bool)
      requires Valid() && msg.conversation == c && !HasAny(data, msg.id)
      modifies this`data, this`total
      ensures Valid()
      ensures ok <==> Total(old(data)) < limit
      ensures data == if ok then old(data)[c := Listed(old(data), c) + [msg]] else old(data)
    {
      if total >= limit {
        return false;
      }
      hide ListsOk, Has;
      TotalUpdate(data, c, Listed(data, c) + [msg]);
      ghost var before := data;
      data := data[c := Listed(data, c) + [msg]];
      total := total + 1;
      AppendOk(before, c, msg);
      ok := true;
    }

    method List(c: Conversation) returns (out: seq<View>)
      ensures out == Listed(data, c)
    {
      out := if c in data then data[c] else [];
    }

    method Remove(c: Conversation, id: MessageId)
      requires Valid()
      modifies this`data, this`total
      ensures Valid()
      ensures data == WithList(old(data), c, Without(Listed(old(data), c), id))
    {
      var list := if c in data then data[c] else [];
      var i := 0;
      while i < |list|
        invariant 0 <= i <= |list|
        invariant forall k :: 0 <= k < i ==> list[k].id != id
      {
        if list[i].id == id {
          WithoutAt(list, id, i);
          Splice(c, i);
          return;
        }
        i := i + 1;
      }
      WithoutAbsent(list, id);
      assert WithList(data, c, list) == data;
    }

    // Drops entry i of a list, and the list itself when nothing is left of it.
    method Splice(c: Conversation, i: nat)
      requires Valid() && c in data && i < |data[c]|
      modifies this`data, this`total
      ensures Valid()
      ensures data == WithList(old(data), c, old(data)[c][..i] + old(data)[c][i + 1..])
    {
      ghost var before := data;
      TotalUpdate(data, c, data[c][..i] + data[c][i + 1..]);
      data := data[c := data[c][..i] + data[c][i + 1..]];
      total := total - 1;
      if data[c] == [] {
        data := data - {c};
      }
      assert data == WithList(before, c, before[c][..i] + before[c][i + 1..]);
      SublistsOk(before, data);
    }

    method Find(id: MessageId) returns (found: Option<View>)
      ensures found.Some? <==> HasAny(data, id)
      ensures found.Some? ==> found.value.id == id && exists c :: c in data && found.value in data[c]
    {
      var todo := data.Keys;
      while todo != {}
        invariant todo <= data.Keys
        invariant forall c :: c in data && c !in todo ==> !Has(data[c], id)
      {
        var c :| c in todo;
        var i := 0;
        while i < |data[c]|
          invariant 0 <= i <= |data[c]|
          invariant forall k :: 0 <= k < i ==> data[c][k].id != id
        {
          if data[c][i].id == id {
            assert Has(data[c], id);
            return Some(data[c][i]);
          }
          i := i + 1;
        }
        todo := todo - {c};
      }
      found := None;
    }

    method Hide(account: Account, id: MessageId)
      modifies this`hidden
      ensures hidden == old(hidden)[id := (if id in old(hidden) then old(hidden)[id] else {}) + {account}]
    {
      if id !in hidden {
        hidden := hidden[id := {}];
      }
      hidden := hidden[id := hidden[id] + {account}];
    }

    method IsHidden(account: Account, id: MessageId) returns (yes: bool)
      ensures yes <==> id in hidden && account in hidden[id]
    {
      yes := id in hidden && account in hidden[id];
    }

    method Retract(id: MessageId) returns (found: bool)
      requires Valid()
      modifies this`data
      ensures Valid()
      ensures found <==> HasAny(old(data), id)
      ensures data == ScrubbedAll(old(data), id)
    {
      var todo := data.Keys;
      while todo != {}
        invariant todo <= data.Keys
        invariant forall c :: c in data && c !in todo ==> !Has(data[c], id)
      {
        var c :| c in todo;
        var i := 0;
        while i < |data[c]|
          invariant 0 <= i <= |data[c]|
          invariant forall k :: 0 <= k < i ==> data[c][k].id != id
        {
          if data[c][i].id == id {
            ScrubInPlace(data, id, c, i);
            data := data[c := data[c][i := data[c][i].(body := None, deleted := true)]];
            return true;
          }
          i := i + 1;
        }
        todo := todo - {c};
      }
      ScrubAbsent(data, id);
      found := false;
    }

    method DeleteEverywhere(id: MessageId) returns (found: bool)
      requires Valid()
      modifies this`data, this`total
      ensures Valid()
      ensures found <==> HasAny(old(data), id)
      ensures data == WithoutAll(old(data), id)
    {
      var todo := data.Keys;
      while todo != {}
        invariant todo <= data.Keys
        invariant forall c :: c in data && c !in todo ==> !Has(data[c], id)
      {
        var c :| c in todo;
        var i := 0;
        while i < |data[c]|
          invariant 0 <= i <= |data[c]|
          invariant forall k :: 0 <= k < i ==> data[c][k].id != id
        {
          if data[c][i].id == id {
            DeleteInPlace(data, id, c, i);
            Splice(c, i);
            return true;
          }
          i := i + 1;
        }
        todo := todo - {c};
      }
      forall c | c in data ensures Without(data[c], id) == data[c] {
        WithoutAbsent(data[c], id);
      }
      found := false;
    }
  }

  // ---- facts the methods need ----

  lemma AppendOk(before: Lists, c: Conversation, msg: View)
    requires ListsOk(before) && msg.conversation == c && !HasAny(before, msg.id)
    ensures ListsOk(before[c := Listed(before, c) + [msg]])
  {
    var data := before[c := Listed(before, c) + [msg]];
    assert forall d, id :: d in before && Has(before[d], id) ==> HasAny(before, id);
    forall d, id | d in data && Has(data[d], id)
      ensures (d == c && id == msg.id) || (d in before && Has(before[d], id))
    {
      var i :| 0 <= i < |data[d]| && data[d][i].id == id;
      if d == c && i < |data[d]| - 1 {
        assert before[d][i].id == id;
      }
    }
    assert DistinctIds(data[c]) by {
      forall i | 0 <= i < |data[c]| - 1 ensures data[c][i].id != msg.id {
        assert c in before && before[c][i] == data[c][i];
        assert Has(before[c], before[c][i].id);
      }
    }
  }

  lemma ScrubAbsent(data: Lists, id: MessageId)
    requires !HasAny(data, id)
    ensures ScrubbedAll(data, id) == data
  {
    forall c | c in data ensures Scrubbed(data[c], id) == data[c] {
      ScrubbedShape(data[c], id);
    }
  }

  lemma ScrubInPlace(data: Lists, id: MessageId, c: Conversation, i: nat)
    requires ListsOk(data) && c in data && i < |data[c]| && data[c][i].id == id
    ensures data[c := data[c][i := data[c][i].(body := None, deleted := true)]] == ScrubbedAll(data, id)
    ensures ListsOk(ScrubbedAll(data, id)) && Total(ScrubbedAll(data, id)) == Total(data)
  {
    var after := data[c := data[c][i := data[c][i].(body := None, deleted := true)]];
    assert Has(data[c], id);
    forall d | d in data ensures after[d] == Scrubbed(data[d], id) {
      ScrubbedShape(data[d], id);
      if d == c {
        forall k | 0 <= k < |data[c]| ensures after[c][k] == Scrubbed(data[c], id)[k] {
          ScrubbedAt(data[c], id, k);
        }
      }
    }
    assert after == ScrubbedAll(data, id);
    SameIdsOk(data, after);
    TotalUpdate(data, c, after[c]);
    assert WithList(data, c, after[c]) == after;
  }

  lemma SameIdsOk(before: Lists, after: Lists)
    requires ListsOk(before) && before.Keys == after.Keys
    requires forall c :: c in before ==> |after[c]| == |before[c]|
    requires forall c, k :: c in before && 0 <= k < |before[c]| ==>
               after[c][k].id == before[c][k].id && after[c][k].conversation == before[c][k].conversation
    ensures ListsOk(after)
  {
    forall c, id | c in after && Has(after[c], id) ensures Has(before[c], id) {
      var k :| 0 <= k < |after[c]| && after[c][k].id == id;
      assert before[c][k].id == id;
    }
  }

  lemma DeleteInPlace(data: Lists, id: MessageId, c: Conversation, i: nat)
    requires ListsOk(data) && c in data && i < |data[c]| && data[c][i].id == id
    ensures WithList(data, c, data[c][..i] + data[c][i + 1..]) == WithoutAll(data, id)
  {
    assert Has(data[c], id);
    WithoutAt(data[c], id, i);
    forall d | d in data && d != c ensures Without(data[d], id) == data[d] {
      WithoutAbsent(data[d], id);
    }
  }

  lemma SublistsOk(before: Lists, after: Lists)
    requires ListsOk(before)
    requires forall c :: c in after ==> c in before && after[c] != [] && DistinctIds(after[c])
    requires forall c, v :: c in after && v in after[c] ==> v in before[c]
    ensures ListsOk(after)
  {
    forall c, id | c in after && Has(after[c], id) ensures Has(before[c], id) {
      var k :| 0 <= k < |after[c]| && after[c][k].id == id;
      assert after[c][k] in before[c];
    }
    forall c, i | c in after && 0 <= i < |after[c]| ensures after[c][i].conversation == c {
      assert after[c][i] in before[c];
    }
  }
}
