/**
 * The client's id-keyed user cache (`usersMap`). A batch of users from the
 * server is merged into it without dropping older entries; users without an
 * id are skipped, and within a batch the last user with an id wins. The
 * server's replies are parameters.
 */
module UsersCache {
  import opened Wrappers
  import opened ClientUser

  /** `i` is the last position in the batch holding a user with this id. */
  predicate LastWithId(users: seq<User>, k: string, i: int) {
    0 <= i < |users| && users[i].id == Some(k)
    && forall j :: i < j < |users| ==> users[j].id != Some(k)
  }

  /** The entries one batch contributes: each truthy id mapped to the last batch user carrying it. */
  function NewEntries(users: seq<User>): (r: map<string, User>)
    ensures forall k :: k in r ==> k != "" && r[k].id == Some(k)
    ensures forall k :: k in r <==> k != "" && exists i :: 0 <= i < |users| && users[i].id == Some(k)
    decreases |users|
  {
    if users == [] then map[]
    else
      var front := users[..|users| - 1];
      var earlier := NewEntries(front);
      var u := users[|users| - 1];
      assert forall i :: 0 <= i < |front| ==> users[i] == front[i];
      if Truthy(u.id) then earlier[u.id.value := u] else earlier
  }

  /** Within a batch the last user with an id is the one its entry holds. */
  lemma {:induction false} NewEntriesLastWins(users: seq<User>, k: string, i: int)
    requires k != "" && LastWithId(users, k, i)
    ensures k in NewEntries(users) && NewEntries(users)[k] == users[i]
    decreases |users|
  {
    var front := users[..|users| - 1];
    if i < |users| - 1 {
      assert LastWithId(front, k, i);
      NewEntriesLastWins(front, k, i);
    }
  }

  /** After a merge, an id of the batch maps to the last batch user with that id. */
  lemma MergeLastWins(cache: map<string, User>, users: seq<User>, k: string, i: int)
    requires k != "" && LastWithId(users, k, i)
    ensures k in cache + NewEntries(users) && (cache + NewEntries(users))[k] == users[i]
  {
    NewEntriesLastWins(users, k, i);
  }

  /** A merge never drops an entry, and ids outside the batch keep their old value. */
  lemma MergeKeepsOthers(cache: map<string, User>, users: seq<User>, k: string)
    requires k in cache
    ensures k in cache + NewEntries(users)
    ensures (forall i :: 0 <= i < |users| ==> users[i].id != Some(k))
            ==> (cache + NewEntries(users))[k] == cache[k]
  {
  }

  /** A batch of users none of which has a truthy id leaves the cache as it was. */
  lemma MergeWithoutIds(cache: map<string, User>, users: seq<User>)
    requires forall i :: 0 <= i < |users| ==> !Truthy(users[i].id)
    ensures cache + NewEntries(users) == cache
  {
    assert NewEntries(users) == map[];
  }

  class Cache {
    var usersMap: map<string, User>

    constructor ()
      ensures usersMap == map[]
    {
      usersMap := map[];
    }

    /** `saveToCache`: builds the batch's entries one user at a time, then merges them over the old map. */
    method SaveToCache(users: seq<User>)
      modifies this
      ensures usersMap == old(usersMap) + NewEntries(users)
    {
      var newEntries: map<string, User> := map[];
      for i := 0 to |users|
        invariant newEntries == NewEntries(users[..i])
      {
        assert users[..i + 1][..i] == users[..i];
        if Truthy(users[i].id) {
          newEntries := newEntries[users[i].id.value := users[i]];
        }
      }
      assert users[..|users|] == users;
      usersMap := usersMap + newEntries;
    }

    /**
     * `searchUsers`: with an empty query or before mounting nothing happens;
     * otherwise the server's list is merged, and a failed request changes nothing.
     */
    method SearchUsers(query: string, mounted: bool, fetched: Option<seq<User>>) returns (requested: bool)
      modifies this
      ensures requested <==> query != "" && mounted
      ensures usersMap == if requested && fetched.Some? then old(usersMap) + NewEntries(fetched.value)
                          else old(usersMap)
    {
      if query == "" || !mounted {
        return false;
      }
      if fetched.Some? {
        SaveToCache(fetched.value);
      }
      return true;
    }

    /** `fetchAllUsers`: the same merge for the full list, guarded by mounting only. */
    method FetchAllUsers(mounted: bool, fetched: Option<seq<User>>) returns (requested: bool)
      modifies this
      ensures requested == mounted
      ensures usersMap == if mounted && fetched.Some? then old(usersMap) + NewEntries(fetched.value)
                          else old(usersMap)
    {
      if !mounted {
        return false;
      }
      if fetched.Some? {
        SaveToCache(fetched.value);
      }
      return true;
    }

    /** `getUserById`: the cache entry for the id, or undefined. */
    function GetUserById(id: string): (r: Option<User>)
      reads this
      ensures r.Some? <==> id in usersMap
      ensures r.Some? ==> r.value == usersMap[id]
    {
      if id in usersMap then Some(usersMap[id]) else None
    }
  }

  /**
   * After a batch is saved, `getUserById` finds each batch id's last batch
   * user, and answers any id the batch lacks as it did before the save.
   */
  lemma LookupAfterSave(c: Cache, before: map<string, User>, users: seq<User>, id: string, i: int)
    requires c.usersMap == before + NewEntries(users)
    ensures id != "" && LastWithId(users, id, i) ==> c.GetUserById(id) == Some(users[i])
    ensures (forall j :: 0 <= j < |users| ==> users[j].id != Some(id))
            ==> c.GetUserById(id) == if id in before then Some(before[id]) else None
  {
    if id != "" && LastWithId(users, id, i) {
      MergeLastWins(before, users, id, i);
    }
  }
}
