/**
 * Presence tracking: every connected socket of a user is a member of the Redis set
 * `socket_user:<userId>`. A user is online while that set exists; Redis removes a
 * set together with its last member, so a set that exists is never empty.
 */
module SocketState {
  import opened Collections

  const Prefix := "socket_user:"

  function Key(userId: string): string {
    Prefix + userId
  }

  lemma KeyInjective(a: string, b: string)
    ensures Key(a) == Key(b) <==> a == b
  {
    if Key(a) == Key(b) {
      assert a == Key(a)[|Prefix|..] && b == Key(b)[|Prefix|..];
    }
  }

  /** The sets of the store: a key present holds at least one member. */
  type Store = map<string, set<string>>

  ghost predicate NoEmptySets(store: Store) {
    forall k :: k in store ==> store[k] != {}
  }

  function Members(store: Store, key: string): set<string> {
    if key in store then store[key] else {}
  }

  /** `SADD key socketId`. */
  function AddSocket(store: Store, userId: string, socketId: string): (r: Store)
    ensures NoEmptySets(store) ==> NoEmptySets(r)
    ensures Members(r, Key(userId)) == Members(store, Key(userId)) + {socketId}
    ensures forall k :: k != Key(userId) ==> (k in r <==> k in store) && Members(r, k) == Members(store, k)
  {
    store[Key(userId) := Members(store, Key(userId)) + {socketId}]
  }

  /** `SREM key socketId`, then `DEL key` when the set became empty. */
  function RemoveSocket(store: Store, userId: string, socketId: string): (r: Store)
    ensures NoEmptySets(store) ==> NoEmptySets(r)
    ensures Members(r, Key(userId)) == Members(store, Key(userId)) - {socketId}
    ensures Key(userId) in r <==> Members(r, Key(userId)) != {}
    ensures forall k :: k != Key(userId) ==> (k in r <==> k in store) && Members(r, k) == Members(store, k)
  {
    var rest := Members(store, Key(userId)) - {socketId};
    if rest == {} then store - {Key(userId)} else store[Key(userId) := rest]
  }

  /** Connecting a new socket and disconnecting it again leaves the store as it was. */
  lemma AddRemoveRoundTrip(store: Store, userId: string, socketId: string)
    requires NoEmptySets(store) && socketId !in Members(store, Key(userId))
    ensures RemoveSocket(AddSocket(store, userId, socketId), userId, socketId) == store
  {
    var r := RemoveSocket(AddSocket(store, userId, socketId), userId, socketId);
    assert forall k :: k in r <==> k in store;
  }

  /** A user with two sockets stays online when one of them disconnects. */
  lemma OtherSocketKeepsOnline(store: Store, userId: string, a: string, b: string)
    requires a != b && {a, b} <= Members(store, Key(userId))
    ensures Key(userId) in RemoveSocket(store, userId, a)
  {
    assert b in Members(RemoveSocket(store, userId, a), Key(userId));
  }

  /** The ids of a list whose set exists in the store. */
  function OnlineAmong(store: Store, ids: seq<string>): set<string> {
    if |ids| == 0 then {}
    else OnlineAmong(store, ids[..|ids| - 1]) + (if Key(ids[|ids| - 1]) in store then {ids[|ids| - 1]} else {})
  }

  lemma {:induction false} OnlineAmongMembers(store: Store, ids: seq<string>)
    requires NoEmptySets(store)
    ensures forall u :: u in OnlineAmong(store, ids) <==> u in ids && Members(store, Key(u)) != {}
  {
    if |ids| > 0 {
      OnlineAmongMembers(store, ids[..|ids| - 1]);
      assert ids == ids[..|ids| - 1] + [ids[|ids| - 1]];
    }
  }

  class SocketStateService {
    var redis: Store

    ghost predicate Valid()
      reads this
    {
      NoEmptySets(redis)
    }

    constructor ()
      ensures Valid() && redis == map[]
    {
      redis := map[];
    }

    /** `add(userId, socketId)`: always reports success. */
    method Add(userId: string, socketId: string) returns (ok: bool)
      requires Valid()
      modifies this
      ensures Valid() && ok
      ensures redis == AddSocket(old(redis), userId, socketId)
    {
      var key := Key(userId);
      redis := redis[key := Members(redis, key) + {socketId}];
      ok := true;
    }

    /** `remove(userId, socketId)`: true exactly when it was the user's last socket. */
    method Remove(userId: string, socketId: string) returns (wentOffline: bool)
      requires Valid()
      modifies this
      ensures Valid()
      ensures redis == RemoveSocket(old(redis), userId, socketId)
      ensures wentOffline <==> Key(userId) !in redis
    {
      var key := Key(userId);
      var rest := Members(redis, key) - {socketId};
      if rest == {} {
        redis := redis - {key};
      } else {
        redis := redis[key := rest];
      }
      var count := |rest|;
      wentOffline := count == 0;
    }

    /** `isOnline(userId)`: the user's set exists, that is, the user has a socket. */
    method IsOnline(userId: string) returns (online: bool)
      requires Valid()
      ensures online <==> Members(redis, Key(userId)) != {}
    {
      online := Key(userId) in redis;
    }

    /** `getSocketIds(userId)`: the members of the user's set, none for an unknown user. */
    method GetSocketIds(userId: string) returns (ids: set<string>)
      ensures ids == Members(redis, Key(userId))
      ensures ids == {} <==> Key(userId) !in redis || redis[Key(userId)] == {}
    {
      ids := Members(redis, Key(userId));
    }

    /** `getOnlineUsers(userIds)`: one existence check per distinct id; the ids whose set exists. */
    method GetOnlineUsers(userIds: seq<string>) returns (online: set<string>)
      requires Valid()
      ensures forall u :: u in online <==> u in userIds && Members(redis, Key(u)) != {}
    {
      if |userIds| == 0 {
        return {};
      }
      var uniqueIds := Dedup(userIds);
      online := {};
      for i := 0 to |uniqueIds|
        invariant online == OnlineAmong(redis, uniqueIds[..i])
      {
        assert uniqueIds[..i + 1][..i] == uniqueIds[..i];
        var count := if Key(uniqueIds[i]) in redis then 1 else 0;
        if count == 1 {
          online := online + {uniqueIds[i]};
        }
      }
      assert uniqueIds[..|uniqueIds|] == uniqueIds;
      OnlineAmongMembers(redis, uniqueIds);
      DedupFacts(userIds);
    }
  }
}
