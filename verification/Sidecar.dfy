/** The hooks of one replica as they run: the maps and sets they update in place, and the handle each
    store keeps to finish with. */
module Sidecar {
  import opened Documents
  import opened Eviction

  lemma AddThenRemove(active: map<Room, set<Token>>, room: Room, token: Token)
    requires token !in TokensOf(active, room) && (room in active ==> active[room] != {})
    ensures RemoveToken(AddToken(active, room, token), room, token) == active
  {
    assert TokensOf(AddToken(active, room, token), room) - {token} == TokensOf(active, room);
  }

  lemma SettleParts(s: Replica, token: Token, outcome: Outcome, rejected: set<Room>, failed: map<Room, nat>)
    requires token in s.running
    requires var work := s.running[token];
      && rejected == (if outcome.LimitHit? && !work.retry then s.rejected + {work.room} else s.rejected)
      && failed == match outcome
                   case Committed => s.failed - {work.room}
                   case LimitHit => s.failed
                   case Broken(snapshot) =>
                     if work.retry || work.room in s.evicting then s.failed else s.failed[work.room := snapshot]
    ensures Settle(s, token, outcome)
         == s.(active := RemoveToken(s.active, s.running[token].room, token), running := s.running - {token},
               rejected := rejected, failed := failed)
  {
  }

  class Hooks {
    const stores: ActiveStores
    var handles: map<Token, TokenSet>
    var evicting: set<Room>
    var rejected: set<Room>
    var failed: map<Room, nat>
    ghost var running: map<Token, Work>
    ghost var reached: map<Token, Room>
    ghost var evictions: map<nat, Eviction>

    ghost function View(): Replica
      reads this, stores, stores.stores.Values
    {
      Replica(stores.View(), evicting, rejected, failed, running, reached, evictions)
    }

    ghost predicate HandlesInv()
      reads `handles, `running, stores
    {
      forall token :: token in running ==>
        && token in handles && running[token].room in stores.stores
        && handles[token] == stores.stores[running[token].room]
    }

    ghost predicate Valid()
      reads `handles, `running, `reached, stores, stores.stores.Values
    {
      stores.Valid() && Exact(stores.View(), running, reached) && HandlesInv()
    }

    constructor ()
      ensures Valid() && fresh(stores) && View() == IDLE
    {
      stores := new ActiveStores();
      handles, evicting, rejected, failed := map[], {}, {}, map[];
      running, reached, evictions := map[], map[], map[];
      new;
      forall room ensures TokensOf(stores.View(), room) == RunningIn(running, room) {
      }
    }

    /** onStoreDocument up to its first await: count the store as active, then check availability; a
        refused store queues the document unless the room is being evicted, and is no longer active. */
    method StoreStarts(room: Room, token: Token, snapshot: nat) returns (proceeds: bool)
      requires Valid() && Enabled(View(), Event.StoreStarts(room, token, snapshot))
      modifies this, stores, stores.stores.Values
      ensures Valid() && View() == Step(old(View()), Event.StoreStarts(room, token, snapshot))
      ensures proceeds == old(Available(View(), room))
    {
      proceeds := Enter(room, token, false);
      if !proceeds && room !in evicting {
        failed := failed[room := snapshot];
      }
    }

    /** What a store and a retry share: refused, they leave no trace in the active stores. */
    method Enter(room: Room, token: Token, retry: bool) returns (proceeds: bool)
      requires Valid() && token !in reached
      modifies this, stores, stores.stores.Values
      ensures Valid() && proceeds == old(Available(View(), room))
      ensures View() == if proceeds then Reach(old(View()), room, token, retry) else old(View())
    {
      AddKeepsExact(stores.View(), running, reached, token, Work(room, retry));
      assert TokensOf(stores.View(), room) == RunningIn(running, room);
      AddThenRemove(stores.View(), room, token);
      var handle := Count(room, token);
      proceeds := room !in rejected && room !in evicting;
      if proceeds {
        Proceed(room, token, handle, retry);
      } else {
        Withdraw(room, token, handle);
      }
    }

    /** The store or retry is no longer active; the others of its room keep their handles. */
    method Withdraw(room: Room, token: Token, handle: TokenSet)
      requires stores.Valid() && HandlesInv() && room in stores.stores && stores.stores[room] == handle
      requires token in handle.tokens && Exact(RemoveToken(stores.View(), room, token), running, reached)
      modifies stores, handle
      ensures Valid() && stores.View() == RemoveToken(old(stores.View()), room, token)
    {
      ghost var mates := RunningIn(running, room);
      assert TokensOf(RemoveToken(stores.View(), room, token), room) == mates;
      stores.Finish(room, token, handle);
      forall other | other in running && running[other].room == room ensures room in stores.stores {
        assert other in mates;
      }
    }

    method Count(room: Room, token: Token) returns (handle: TokenSet)
      requires stores.Valid() && HandlesInv()
      modifies stores, stores.stores.Values
      ensures stores.Valid() && HandlesInv()
      ensures stores.View() == AddToken(old(stores.View()), room, token)
      ensures room in stores.stores && stores.stores[room] == handle
      ensures if room in old(stores.stores) then handle == old(stores.stores[room]) else fresh(handle)
    {
      handle := stores.BeginStore(room, token);
    }

    method Proceed(room: Room, token: Token, handle: TokenSet, retry: bool)
      requires stores.Valid() && HandlesInv() && room in stores.stores && stores.stores[room] == handle
      requires Exact(stores.View(), running[token := Work(room, retry)], reached[token := room])
      modifies this`running, this`reached, this`handles
      ensures Valid()
      ensures running == old(running)[token := Work(room, retry)]
      ensures reached == old(reached)[token := room]
    {
      running, reached := running[token := Work(room, retry)], reached[token := room];
      handles := handles[token := handle];
    }

    /** One turn of the retry loop up to its first await. */
    method RetryStarts(room: Room, token: Token) returns (proceeds: bool)
      requires Valid() && Enabled(View(), Event.RetryStarts(room, token))
      modifies this, stores, stores.stores.Values
      ensures Valid() && View() == Step(old(View()), Event.RetryStarts(room, token))
      ensures proceeds == old(Available(View(), room))
    {
      proceeds := Enter(room, token, true);
    }

    /** The rest of a store or a retry once its transaction has ended. */
    method Settles(token: Token, outcome: Outcome, room: Room, retry: bool)
      requires Valid() && token in running && running[token] == Work(room, retry)
      modifies this, stores, stores.stores.Values
      ensures Valid() && View() == Settle(old(View()), token, outcome)
    {
      ghost var before := View();
      Record(outcome, room, retry);
      assert View() == before.(rejected := rejected, failed := failed);
      Leave(token, room);
      assert View() == before.(active := RemoveToken(before.active, room, token),
                               running := before.running - {token}, rejected := rejected, failed := failed);
      SettleParts(before, token, outcome, rejected, failed);
    }

    method Record(outcome: Outcome, room: Room, retry: bool)
      modifies this`failed, this`rejected
      ensures rejected == if outcome.LimitHit? && !retry then old(rejected) + {room} else old(rejected)
      ensures failed == match outcome
                        case Committed => old(failed) - {room}
                        case LimitHit => old(failed)
                        case Broken(snapshot) =>
                          if retry || room in evicting then old(failed) else old(failed)[room := snapshot]
    {
      match outcome {
        case Committed =>
          failed := failed - {room};
        case LimitHit =>
          if !retry {
            rejected := rejected + {room};
          }
        case Broken(snapshot) =>
          if !retry && room !in evicting {
            failed := failed[room := snapshot];
          }
      }
    }

    method Leave(token: Token, room: Room)
      requires Valid() && token in running && running[token].room == room
      modifies this`running, stores, stores.stores.Values
      ensures Valid()
      ensures stores.View() == RemoveToken(old(stores.View()), room, token) && running == old(running) - {token}
    {
      ghost var active := stores.View();
      RemoveKeepsExact(active, running, reached, token);
      var handle := handles[token];
      assert token in handle.tokens by {
        assert TokensOf(active, room) == RunningIn(running, room);
        assert active[room] == handle.tokens;
      }
      running := running - {token};
      assert stores.View() == active;
      Withdraw(room, token, handle);
    }

    /** evictLocalRoom up to the wait for stores. */
    method EvictBegins(ghost id: nat, room: Room)
      requires Valid() && Enabled(View(), Event.EvictBegins(id, room))
      modifies this
      ensures Valid() && View() == Step(old(View()), Event.EvictBegins(id, room))
    {
      evictions := Step(View(), Event.EvictBegins(id, room)).evictions;
      evicting := evicting + {room};
      failed := failed - {room};
    }

    /** The condition on which the wait for stores ends. */
    method EvictDrains(ghost id: nat, room: Room) returns (drained: bool)
      requires Valid() && id in evictions && evictions[id].room == room
      modifies this`evictions
      ensures Valid() && drained == old(Enabled(View(), Event.EvictDrains(id)))
      ensures drained ==> View() == Step(old(View()), Event.EvictDrains(id))
      ensures !drained ==> View() == old(View())
    {
      drained := room !in stores.stores;
      if drained {
        evictions := evictions[id := evictions[id].(drained := true)];
      }
    }

    /** The end of evictLocalRoom, by return or by exception. */
    method EvictEnds(ghost id: nat, room: Room, ok: bool)
      requires Valid() && Enabled(View(), Event.EvictEnds(id, ok)) && evictions[id].room == room
      modifies this
      ensures Valid() && View() == Step(old(View()), Event.EvictEnds(id, ok))
    {
      if ok {
        failed := failed - {room};
      }
      evicting, rejected := evicting - {room}, rejected - {room};
      evictions := Exposed(evictions, room) - {id};
      assert stores.View() == old(stores.View());
    }

    /** The catch block of a rejection whose eviction failed. */
    method RejectionLifts(room: Room)
      requires Valid()
      modifies this`rejected
      ensures Valid() && View() == Step(old(View()), Event.RejectionLifts(room))
    {
      rejected := rejected - {room};
    }
  }
}
