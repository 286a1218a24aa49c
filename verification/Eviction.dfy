/** Evicting a room on one replica, while stores and retries of it start, settle and fail. */
module Eviction {
  import opened Documents

  type Room = nat
  type Token = nat

  // ---------- The active stores ----------

  function TokensOf(active: map<Room, set<Token>>, room: Room): set<Token> {
    if room in active then active[room] else {}
  }

  function AddToken(active: map<Room, set<Token>>, room: Room, token: Token): map<Room, set<Token>> {
    active[room := TokensOf(active, room) + {token}]
  }

  function RemoveToken(active: map<Room, set<Token>>, room: Room, token: Token): map<Room, set<Token>> {
    var rest := TokensOf(active, room) - {token};
    if rest == {} then active - {room} else active[room := rest]
  }

  /** The set object a finished store is removed from is the one it was added to, which need not be
      the one the map holds later. */
  class TokenSet {
    var tokens: set<Token>

    constructor ()
      ensures tokens == {}
    {
      tokens := {};
    }
  }

  class ActiveStores {
    var stores: map<Room, TokenSet>

    ghost predicate Valid()
      reads this, stores.Values
    {
      && (forall room :: room in stores ==> stores[room].tokens != {})
      && forall a, b :: a in stores && b in stores && a != b ==> stores[a] != stores[b]
    }

    ghost function View(): map<Room, set<Token>>
      reads this, stores.Values
    {
      map room | room in stores :: stores[room].tokens
    }

    constructor ()
      ensures Valid() && View() == map[]
    {
      stores := map[];
    }

    method BeginStore(room: Room, token: Token) returns (handle: TokenSet)
      requires Valid()
      modifies this, if room in stores then {stores[room]} else {}
      ensures Valid() && View() == AddToken(old(View()), room, token)
      ensures room in stores && stores[room] == handle
      ensures room !in old(stores) ==> fresh(handle)
      ensures forall other :: other in old(stores) ==> other in stores && stores[other] == old(stores[other])
    {
      if room in stores {
        handle := stores[room];
      } else {
        handle := new TokenSet();
        stores := stores[room := handle];
      }
      handle.tokens := handle.tokens + {token};
    }

    /** A handle whose token is unfinished is still the set the map holds, because a set is only
        dropped when it is empty; a kept room keeps its set object. */
    method Finish(room: Room, token: Token, handle: TokenSet)
      requires Valid() && room in stores && stores[room] == handle && token in handle.tokens
      modifies this, handle
      ensures Valid() && View() == RemoveToken(old(View()), room, token)
      ensures forall other :: other in stores ==> other in old(stores) && stores[other] == old(stores[other])
      ensures forall other :: other in old(stores) && other != room ==> other in stores
      ensures room in stores <==> old(handle.tokens) != {token}
    {
      handle.tokens := handle.tokens - {token};
      if handle.tokens == {} {
        stores := stores - {room};
      }
    }
  }

  // ---------- One replica ----------

  /** A store or retry that reached the database and has not settled. */
  datatype Work = Work(room: Room, retry: bool)

  /** `reached`: the room's stores that had reached the database when the eviction began.
      `guarded`: no other eviction of the room has ended since then. */
  datatype Eviction = Eviction(room: Room, reached: set<Token>, drained: bool, guarded: bool)

  datatype Replica = Replica(
    active: map<Room, set<Token>>,
    evicting: set<Room>,
    rejected: set<Room>,
    failed: map<Room, nat>,
    running: map<Token, Work>,
    reached: map<Token, Room>,      // every store that ever got past the availability check
    evictions: map<nat, Eviction>)

  const IDLE := Replica(map[], {}, {}, map[], map[], map[], map[])

  /** `Broken`: the transaction failed, or a service command's store gave up on its projection. */
  datatype Outcome = Committed | LimitHit | Broken(snapshot: nat)

  datatype Event =
    | StoreStarts(room: Room, token: Token, snapshot: nat)
    | RetryStarts(room: Room, token: Token)
    | Settles(token: Token, outcome: Outcome)
    | EvictBegins(id: nat, room: Room)
    | EvictDrains(id: nat)
    | EvictEnds(id: nat, ok: bool)
    | RejectionLifts(room: Room)  // a rejected room whose eviction could not even be announced

  predicate Available(s: Replica, room: Room) {
    room !in s.rejected && room !in s.evicting
  }

  predicate Enabled(s: Replica, e: Event) {
    match e
    case StoreStarts(_, token, _) => token !in s.reached
    case RetryStarts(room, token) => room in s.failed && token !in s.reached
    case Settles(token, _) => token in s.running
    case EvictBegins(id, _) => id !in s.evictions
    case EvictDrains(id) => id in s.evictions && s.evictions[id].room !in s.active
    case EvictEnds(id, ok) => id in s.evictions && (ok ==> s.evictions[id].drained)
    case RejectionLifts(_) => true
  }

  /** Everything up to the first await of a store that is let through. */
  function Reach(s: Replica, room: Room, token: Token, retry: bool): Replica {
    s.(active := AddToken(s.active, room, token), running := s.running[token := Work(room, retry)],
       reached := s.reached[token := room])
  }

  function Step(s: Replica, e: Event): Replica
    requires Enabled(s, e)
  {
    match e
    case StoreStarts(room, token, snapshot) =>
      if Available(s, room) then Reach(s, room, token, false)
      else if room in s.evicting then s
      else s.(failed := s.failed[room := snapshot])
    case RetryStarts(room, token) =>
      if Available(s, room) then Reach(s, room, token, true) else s
    case Settles(token, outcome) => Settle(s, token, outcome)
    case EvictBegins(id, room) =>
      s.(evicting := s.evicting + {room}, failed := s.failed - {room},
         evictions := s.evictions[id := Eviction(room, ReachedOf(s, room), false, true)])
    case EvictDrains(id) => s.(evictions := s.evictions[id := s.evictions[id].(drained := true)])
    case EvictEnds(id, ok) =>
      var room := s.evictions[id].room;
      s.(evicting := s.evicting - {room}, rejected := s.rejected - {room},
         failed := if ok then s.failed - {room} else s.failed, evictions := Exposed(s.evictions, room) - {id})
    case RejectionLifts(room) => s.(rejected := s.rejected - {room})
  }

  /** One flag serves every eviction of a room: the end of one exposes the others. */
  function Exposed(evictions: map<nat, Eviction>, room: Room): map<nat, Eviction> {
    map id | id in evictions ::
      if evictions[id].room == room then evictions[id].(guarded := false) else evictions[id]
  }

  function ReachedOf(s: Replica, room: Room): set<Token> {
    set token | token in s.reached && s.reached[token] == room
  }

  function RunningOf(s: Replica, room: Room): set<Token> {
    RunningIn(s.running, room)
  }

  /** The rest of a store or retry, after its transaction. */
  function Settle(s: Replica, token: Token, outcome: Outcome): Replica
    requires token in s.running
  {
    var work := s.running[token];
    var done := s.(active := RemoveToken(s.active, work.room, token), running := s.running - {token});
    match outcome
    case Committed => done.(failed := s.failed - {work.room})
    case LimitHit => if work.retry then done else done.(rejected := s.rejected + {work.room})
    case Broken(snapshot) =>
      if work.retry || work.room in s.evicting then done else done.(failed := s.failed[work.room := snapshot])
  }

  ghost predicate Possible(s: Replica, events: seq<Event>)
    decreases |events|
  {
    if events == [] then true else Enabled(s, events[0]) && Possible(Step(s, events[0]), events[1..])
  }

  function After(s: Replica, events: seq<Event>): Replica
    requires Possible(s, events)
    decreases |events|
  {
    if events == [] then s else After(Step(s, events[0]), events[1..])
  }

  // ---------- Invariants ----------

  function RunningIn(running: map<Token, Work>, room: Room): set<Token> {
    set token | token in running && running[token].room == room
  }

  /** The active stores are exactly the running ones, room by room, and every one has got past the
      availability check. */
  ghost predicate Exact(active: map<Room, set<Token>>, running: map<Token, Work>, reached: map<Token, Room>) {
    && (forall room :: TokensOf(active, room) == RunningIn(running, room))
    && (forall room :: room in active ==> active[room] != {})
    && (forall token :: token in running ==> token in reached && reached[token] == running[token].room)
  }

  ghost predicate ActiveInv(s: Replica) {
    Exact(s.active, s.running, s.reached)
  }

  ghost predicate EvictionInv(s: Replica, id: nat)
    requires id in s.evictions
  {
    var ev := s.evictions[id];
    && (ev.drained ==> ev.reached !! RunningOf(s, ev.room))
    && ev.reached <= ReachedOf(s, ev.room)
    && (ev.guarded ==>
          ev.room in s.evicting && ev.room !in s.failed && ReachedOf(s, ev.room) <= ev.reached)
  }

  ghost predicate Inv(s: Replica) {
    ActiveInv(s) && forall id :: id in s.evictions ==> EvictionInv(s, id)
  }

  lemma AddKeepsExact(active: map<Room, set<Token>>, running: map<Token, Work>, reached: map<Token, Room>,
                      token: Token, work: Work)
    requires Exact(active, running, reached) && token !in reached
    ensures Exact(AddToken(active, work.room, token), running[token := work], reached[token := work.room])
  {
    var active', running' := AddToken(active, work.room, token), running[token := work];
    forall other ensures TokensOf(active', other) == RunningIn(running', other) {
      assert TokensOf(active, other) == RunningIn(running, other);
      assert other != work.room ==> TokensOf(active', other) == TokensOf(active, other);
    }
  }

  lemma RemoveKeepsExact(active: map<Room, set<Token>>, running: map<Token, Work>, reached: map<Token, Room>,
                         token: Token)
    requires Exact(active, running, reached) && token in running
    ensures Exact(RemoveToken(active, running[token].room, token), running - {token}, reached)
  {
    var room := running[token].room;
    var active', running' := RemoveToken(active, room, token), running - {token};
    forall other ensures TokensOf(active', other) == RunningIn(running', other) {
      assert TokensOf(active, other) == RunningIn(running, other);
      assert other != room ==> TokensOf(active', other) == TokensOf(active, other);
    }
  }

  lemma StepKeepsActive(s: Replica, e: Event)
    requires ActiveInv(s) && Enabled(s, e)
    ensures ActiveInv(Step(s, e))
  {
    match e
    case StoreStarts(room, token, _) =>
      AddKeepsExact(s.active, s.running, s.reached, token, Work(room, false));
    case RetryStarts(room, token) =>
      AddKeepsExact(s.active, s.running, s.reached, token, Work(room, true));
    case Settles(token, outcome) =>
      RemoveKeepsExact(s.active, s.running, s.reached, token);
    case _ =>
  }

  lemma ReachKeepsEviction(s: Replica, room: Room, token: Token, retry: bool, id: nat)
    requires id in s.evictions && EvictionInv(s, id) && Available(s, room) && token !in s.reached
    ensures EvictionInv(Reach(s, room, token, retry), id)
  {
    var s' := Reach(s, room, token, retry);
    var ev := s.evictions[id];
    assert ReachedOf(s', ev.room) == ReachedOf(s, ev.room) + (if ev.room == room then {token} else {});
    assert RunningOf(s', ev.room) <= RunningOf(s, ev.room) + {token};
  }

  lemma SettleKeepsEviction(s: Replica, token: Token, outcome: Outcome, id: nat)
    requires id in s.evictions && EvictionInv(s, id) && token in s.running
    ensures EvictionInv(Settle(s, token, outcome), id)
  {
    var s' := Settle(s, token, outcome);
    var ev := s.evictions[id];
    assert ReachedOf(s', ev.room) == ReachedOf(s, ev.room);
    assert RunningOf(s', ev.room) <= RunningOf(s, ev.room);
  }

  lemma BeginKeepsEviction(s: Replica, begun: nat, room: Room, id: nat)
    requires begun !in s.evictions && (id == begun || (id in s.evictions && EvictionInv(s, id)))
    ensures EvictionInv(Step(s, EvictBegins(begun, room)), id)
  {
    var s' := Step(s, EvictBegins(begun, room));
    var room' := s'.evictions[id].room;
    assert ReachedOf(s', room') == ReachedOf(s, room') && RunningOf(s', room') == RunningOf(s, room');
  }

  lemma DrainKeepsEviction(s: Replica, drained: nat, id: nat)
    requires id in s.evictions && EvictionInv(s, id) && Enabled(s, EvictDrains(drained)) && ActiveInv(s)
    ensures EvictionInv(Step(s, EvictDrains(drained)), id)
  {
    var s' := Step(s, EvictDrains(drained));
    var room := s.evictions[id].room;
    assert TokensOf(s.active, room) == RunningIn(s.running, room);
    assert ReachedOf(s', room) == ReachedOf(s, room) && RunningOf(s', room) == RunningOf(s, room);
  }

  lemma EndKeepsEviction(s: Replica, ended: nat, ok: bool, id: nat)
    requires id in s.evictions && EvictionInv(s, id) && Enabled(s, EvictEnds(ended, ok)) && id != ended
    ensures EvictionInv(Step(s, EvictEnds(ended, ok)), id)
  {
    var s' := Step(s, EvictEnds(ended, ok));
    var room := s.evictions[id].room;
    assert ReachedOf(s', room) == ReachedOf(s, room) && RunningOf(s', room) == RunningOf(s, room);
  }

  lemma QueueKeepsEviction(s: Replica, room: Room, snapshot: nat, id: nat)
    requires id in s.evictions && EvictionInv(s, id) && room !in s.evicting
    ensures EvictionInv(s.(failed := s.failed[room := snapshot]), id)
  {
    var s' := s.(failed := s.failed[room := snapshot]);
    var room' := s.evictions[id].room;
    assert ReachedOf(s', room') == ReachedOf(s, room') && RunningOf(s', room') == RunningOf(s, room');
  }

  lemma LiftKeepsEviction(s: Replica, room: Room, id: nat)
    requires id in s.evictions && EvictionInv(s, id)
    ensures EvictionInv(s.(rejected := s.rejected - {room}), id)
  {
    var s' := s.(rejected := s.rejected - {room});
    var room' := s.evictions[id].room;
    assert ReachedOf(s', room') == ReachedOf(s, room') && RunningOf(s', room') == RunningOf(s, room');
  }

  lemma StepKeepsEviction(s: Replica, e: Event, id: nat)
    requires Inv(s) && Enabled(s, e) && id in Step(s, e).evictions
    ensures EvictionInv(Step(s, e), id)
  {
    match e
    case StoreStarts(room, token, snapshot) =>
      if Available(s, room) {
        ReachKeepsEviction(s, room, token, false, id);
      } else if room !in s.evicting {
        QueueKeepsEviction(s, room, snapshot, id);
      }
    case RetryStarts(room, token) =>
      if Available(s, room) {
        ReachKeepsEviction(s, room, token, true, id);
      }
    case Settles(token, outcome) => SettleKeepsEviction(s, token, outcome, id);
    case EvictBegins(begun, room) => BeginKeepsEviction(s, begun, room, id);
    case EvictDrains(drained) => DrainKeepsEviction(s, drained, id);
    case EvictEnds(ended, ok) => EndKeepsEviction(s, ended, ok, id);
    case RejectionLifts(room) => LiftKeepsEviction(s, room, id);
  }

  lemma StepKeeps(s: Replica, e: Event)
    requires Inv(s) && Enabled(s, e)
    ensures Inv(Step(s, e))
  {
    StepKeepsActive(s, e);
    forall id | id in Step(s, e).evictions ensures EvictionInv(Step(s, e), id) {
      StepKeepsEviction(s, e, id);
    }
  }

  lemma {:induction false} AfterKeeps(s: Replica, events: seq<Event>)
    requires Inv(s) && Possible(s, events)
    ensures Inv(After(s, events))
    decreases |events|
  {
    if events != [] {
      StepKeeps(s, events[0]);
      AfterKeeps(Step(s, events[0]), events[1..]);
    }
  }

  // ---------- What an eviction promises ----------

  /** At every step the map of active stores is exact: each room with an unfinished store maps to
      the set of them, and no room maps to the empty set. */
  lemma ActiveStoresAreExact(events: seq<Event>, room: Room)
    requires Possible(IDLE, events)
    ensures var s := After(IDLE, events);
      && (room in s.active <==> RunningOf(s, room) != {})
      && (room in s.active ==> s.active[room] == RunningOf(s, room))
  {
    AfterKeeps(IDLE, events);
    var s := After(IDLE, events);
    assert TokensOf(s.active, room) == RunningOf(s, room);
  }

  ghost predicate Counted(s: Replica, room: Room, token: Token, retry: bool) {
    && token in TokensOf(s.active, room)
    && token in s.running && s.running[token] == Work(room, retry)
    && token in s.reached && s.reached[token] == room
  }

  /** From any reachable state, a store or retry goes on exactly when its room is neither rejected nor
      being evicted, and is then counted as active; refused, it leaves no trace but, for a store outside
      an eviction, its snapshot in the queue. */
  lemma StartsIff(events: seq<Event>, room: Room, token: Token, snapshot: nat, retry: bool)
    requires var e := if retry then RetryStarts(room, token) else StoreStarts(room, token, snapshot);
      Possible(IDLE, events) && Enabled(After(IDLE, events), e)
    ensures var s := After(IDLE, events);
            var s' := Step(s, if retry then RetryStarts(room, token) else StoreStarts(room, token, snapshot));
      && (token in s'.running <==> room !in s.rejected && room !in s.evicting)
      && (token in s'.running ==> Counted(s', room, token, retry) && s'.failed == s.failed)
      && (token !in s'.running ==> s'.active == s.active && s'.running == s.running && s'.reached == s.reached)
      && (token !in s'.running ==>
            s'.failed == if retry || room in s.evicting then s.failed else s.failed[room := snapshot])
  {
    AfterKeeps(IDLE, events);
    assert token !in After(IDLE, events).running;
  }

  /** A store or retry that settles is no longer counted.  A commit empties the queue of its room; over
      the limits, a store rejects the room; any other failure of a store outside an eviction queues its
      snapshot; a failed retry changes neither. */
  lemma SettlesTakeEffect(events: seq<Event>, token: Token, outcome: Outcome)
    requires Possible(IDLE, events) && Enabled(After(IDLE, events), Settles(token, outcome))
    ensures token in After(IDLE, events).running
    ensures var s := After(IDLE, events);
            var s', room, retry := Step(s, Settles(token, outcome)), s.running[token].room, s.running[token].retry;
      && s'.running == s.running - {token} && token !in TokensOf(s'.active, room)
      && s'.rejected == (if outcome.LimitHit? && !retry then s.rejected + {room} else s.rejected)
      && s'.failed == match outcome
                      case Committed => s.failed - {room}
                      case LimitHit => s.failed
                      case Broken(snapshot) =>
                        if retry || room in s.evicting then s.failed else s.failed[room := snapshot]
  {
    AfterKeeps(IDLE, events);
  }

  /** An eviction shuts the room and drops what is queued; its wait ends exactly when nothing of the room
      runs; when it ends, by return or by error, the room is neither rejected nor being evicted. */
  lemma EvictionsTakeEffect(events: seq<Event>, id: nat, room: Room, ok: bool)
    requires Possible(IDLE, events)
    ensures var s := After(IDLE, events);
      && (id !in s.evictions ==>
            && Enabled(s, EvictBegins(id, room))
            && var s' := Step(s, EvictBegins(id, room));
            && room in s'.evicting && room !in s'.failed && id in s'.evictions
            && s'.evictions[id] == Eviction(room, ReachedOf(s, room), false, true))
      && (id in s.evictions ==>
            && (Enabled(s, EvictDrains(id)) <==> RunningOf(s, s.evictions[id].room) == {})
            && (Enabled(s, EvictDrains(id)) ==> Step(s, EvictDrains(id)).evictions[id].drained)
            && (Enabled(s, EvictEnds(id, ok)) <==> ok ==> s.evictions[id].drained))
      && (Enabled(s, EvictEnds(id, ok)) ==>
            && id in s.evictions
            && var s' := Step(s, EvictEnds(id, ok));
            && id !in s'.evictions && s.evictions[id].room !in s'.evicting && s.evictions[id].room !in s'.rejected
            && (ok ==> s.evictions[id].room !in s'.failed))
      && room !in Step(s, RejectionLifts(room)).rejected
  {
    AfterKeeps(IDLE, events);
    var s := After(IDLE, events);
    if id in s.evictions {
      assert TokensOf(s.active, s.evictions[id].room) == RunningIn(s.running, s.evictions[id].room);
    }
  }

  /** When an eviction returns without error, no store or retry begun before it is in flight and no
      snapshot of the room is queued.  If no other eviction of the room has ended meanwhile, then
      nothing begun during it reached the database and nothing at all is in flight. */
  lemma EvictionLeavesRoomQuiet(events: seq<Event>, id: nat)
    requires Possible(IDLE, events) && Enabled(After(IDLE, events), EvictEnds(id, true))
    ensures var s := After(IDLE, events);
            var ev := s.evictions[id];
            var s' := Step(s, EvictEnds(id, true));
      && ev.reached !! RunningOf(s', ev.room)
      && ev.room !in s'.failed
      && (ev.guarded ==> RunningOf(s', ev.room) == {} && ReachedOf(s', ev.room) == ev.reached)
  {
    AfterKeeps(IDLE, events);
    var s := After(IDLE, events);
    assert EvictionInv(s, id);
    var room := s.evictions[id].room;
    var s' := Step(s, EvictEnds(id, true));
    assert RunningOf(s', room) == RunningOf(s, room) && ReachedOf(s', room) == ReachedOf(s, room);
    assert RunningOf(s, room) <= ReachedOf(s, room);
  }

  predicate EndsAnother(s: Replica, e: Event, id: nat)
    requires id in s.evictions
  {
    e.EvictEnds? && e.id != id && e.id in s.evictions && s.evictions[e.id].room == s.evictions[id].room
  }

  /** Every store of the room that could start now is turned away. */
  ghost predicate ShutsOut(s: Replica, room: Room) {
    forall token, snapshot :: Enabled(s, StoreStarts(room, token, snapshot)) ==>
      token !in Step(s, StoreStarts(room, token, snapshot)).running
  }

  /** The exact reach of the flag: an eviction that has kept stores out goes on doing so after an
      event if and only if that event is not the end of another eviction of the room. */
  lemma OnlyAnotherEndOpensRoom(events: seq<Event>, id: nat, e: Event)
    requires Possible(IDLE, events) && Enabled(After(IDLE, events), e)
    requires id in After(IDLE, events).evictions && After(IDLE, events).evictions[id].guarded
    requires id in Step(After(IDLE, events), e).evictions
    ensures var s := After(IDLE, events);
            var s' := Step(s, e);
      && s'.evictions[id].room == s.evictions[id].room
      && (s'.evictions[id].guarded <==> !EndsAnother(s, e, id))
      && (ShutsOut(s', s.evictions[id].room) <==> !EndsAnother(s, e, id))
  {
    AfterKeeps(IDLE, events);
    var s := After(IDLE, events);
    StepKeeps(s, e);
    var s', room := Step(s, e), s.evictions[id].room;
    assert EvictionInv(s, id) && EvictionInv(s', id);
    FlagOrOpen(s', room);
  }

  /** A room is shut exactly while it is unavailable, whatever token a store would take. */
  lemma FlagOrOpen(s: Replica, room: Room)
    requires ActiveInv(s)
    ensures ShutsOut(s, room) <==> !Available(s, room)
  {
    if Available(s, room) {
      var token := Above(s.reached.Keys);
      assert Enabled(s, StoreStarts(room, token, 0));
      assert token in Step(s, StoreStarts(room, token, 0)).running;
    } else {
      forall token, snapshot | Enabled(s, StoreStarts(room, token, snapshot))
        ensures token !in Step(s, StoreStarts(room, token, snapshot)).running
      {
        assert token !in s.reached;
      }
    }
  }

  /** Whenever one of two drained evictions of a room ends, a store can be let through and the other
      return while it is writing. */
  lemma ExposedEvictionReturnsEarly(events: seq<Event>, id: nat, other: nat, ok: bool) returns (token: Token)
    requires Possible(IDLE, events) && id != other && Enabled(After(IDLE, events), EvictEnds(other, ok))
    requires var s := After(IDLE, events);
      id in s.evictions && s.evictions[id].drained && s.evictions[id].room == s.evictions[other].room
    ensures var s := After(IDLE, events);
            var room := s.evictions[id].room;
            var s1 := Step(s, EvictEnds(other, ok));
      && Enabled(s1, StoreStarts(room, token, 0))
      && var s2 := Step(s1, StoreStarts(room, token, 0));
      && Enabled(s2, EvictEnds(id, true))
      && token in RunningOf(Step(s2, EvictEnds(id, true)), room) && token !in s.evictions[id].reached
  {
    AfterKeeps(IDLE, events);
    var s := After(IDLE, events);
    assert EvictionInv(s, id);
    token := Above(s.reached.Keys);
    assert token !in s.reached;
  }

  lemma Snoc(events: seq<Event>, last: Event)
    requires Possible(IDLE, events) && Enabled(After(IDLE, events), last)
    ensures Possible(IDLE, events + [last]) && After(IDLE, events + [last]) == Step(After(IDLE, events), last)
  {
    SnocFrom(IDLE, events, last);
  }

  lemma {:induction false} SnocFrom(s: Replica, events: seq<Event>, last: Event)
    requires Possible(s, events) && Enabled(After(s, events), last)
    ensures Possible(s, events + [last]) && After(s, events + [last]) == Step(After(s, events), last)
    decreases |events|
  {
    if events == [] {
      assert [last][1..] == [] && events + [last] == [last];
      assert Possible(Step(s, last), []);
    } else {
      SnocFrom(Step(s, events[0]), events[1..], last);
      assert (events + [last])[1..] == events[1..] + [last];
    }
  }

  const TWO_EVICTIONS := [EvictBegins(1, 7), EvictBegins(2, 7), EvictDrains(1), EvictDrains(2)]

  const BOTH_DRAINED := IDLE.(evicting := {7},
    evictions := map[1 := Eviction(7, {}, true, true), 2 := Eviction(7, {}, true, true)])

  lemma BothDrain()
    ensures Possible(IDLE, TWO_EVICTIONS) && After(IDLE, TWO_EVICTIONS) == BOTH_DRAINED
  {
    var e := TWO_EVICTIONS;
    Snoc([], e[0]);
    assert [] + [e[0]] == [e[0]];
    var s1 := Step(IDLE, e[0]);
    assert ReachedOf(IDLE, 7) == {};
    assert s1.evictions == map[1 := Eviction(7, {}, false, true)] && s1.evicting == {7};
    Snoc([e[0]], e[1]);
    var s2 := Step(s1, e[1]);
    assert ReachedOf(s1, 7) == {} && s1.evictions[1].room == 7;
    assert s2.evictions == map[1 := Eviction(7, {}, false, true), 2 := Eviction(7, {}, false, true)];
    assert s2.evicting == {7} && s2.failed == map[];
    assert [e[0]] + [e[1]] == [e[0], e[1]];
    Snoc([e[0], e[1]], e[2]);
    assert [e[0], e[1]] + [e[2]] == [e[0], e[1], e[2]];
    Snoc([e[0], e[1], e[2]], e[3]);
    assert [e[0], e[1], e[2]] + [e[3]] == e;
  }

  /** Overlapping evictions share one flag, and the first to finish clears it: the second can return
      without error while a store begun during it is writing to the database. */
  lemma OverlapLosesTheGuarantee() returns (events: seq<Event>)
    ensures Possible(IDLE, events) && Enabled(After(IDLE, events), EvictEnds(2, true))
    ensures var s := After(IDLE, events);
            var s' := Step(s, EvictEnds(2, true));
      s.evictions[2] == Eviction(7, {}, true, false) && RunningOf(s', 7) == {100} == ReachedOf(s', 7)
  {
    BothDrain();
    var first, late := EvictEnds(1, true), StoreStarts(7, 100, 0);
    Snoc(TWO_EVICTIONS, first);
    var s := Step(BOTH_DRAINED, first);
    assert s.evicting == {} && s.rejected == {};
    Snoc(TWO_EVICTIONS + [first], late);
    events := TWO_EVICTIONS + [first] + [late];
    var s' := Step(After(IDLE, events), EvictEnds(2, true));
    assert 100 in RunningOf(s', 7) && 100 in ReachedOf(s', 7);
  }
}
