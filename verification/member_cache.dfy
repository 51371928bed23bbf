/** The bounded cache of member lists. */
module Members {
  import opened Common
  import opened Groups

  class MemberCache {
    var data: Cache

    constructor ()
      ensures data == map[]
    {
      data := map[];
    }

    method Get(g: Conversation) returns (members: Option<seq<Account>>)
      ensures members == if g in data then Some(data[g]) else None
    {
      if g !in data {
        return None;
      }
      members := Some(data[g]);
    }

    /** Stores a list; a full cache first drops one conversation of the map's choosing. */
    method Set(g: Conversation, members: seq<Account>, ghost hint: Conversation) returns (ghost victim: Conversation)
      requires |data| <= MAX_CACHED
      modifies this
      ensures data == CacheSet(old(data), g, members, victim)
      ensures victim == hint || victim in old(data)
      ensures g !in old(data) && |old(data)| >= MAX_CACHED ==> victim in old(data)
    {
      victim := hint;
      if g !in data && |data| >= MAX_CACHED {
        var id :| id in data;
        data := data - {id};
        victim := id;
      }
      data := data[g := members];
    }

    method Delete(g: Conversation)
      modifies this
      ensures data == old(data) - {g}
    {
      data := data - {g};
    }

    method Clear()
      modifies this
      ensures data == map[]
    {
      data := map[];
    }

    /** Whether the account is a member, and whether the cache could tell. */
    method IsMember(g: Conversation, a: Account) returns (member: bool, known: bool)
      ensures known <==> g in data
      ensures member <==> g in data && a in data[g]
    {
      if g !in data {
        return false, false;
      }
      var members := data[g];
      var i := 0;
      while i < |members|
        invariant 0 <= i <= |members| && a !in members[..i]
      {
        if members[i] == a {
          return true, true;
        }
        i := i + 1;
      }
      return false, true;
    }
  }
}
