/** Rooms of an over-quota owner on one replica: every update is validated with `shrinkOnly`, while
    stores of the room begin, read, commit and settle at their own pace, failed stores are queued and
    retried, and the room is reloaded. */
module ShrinkOnly {
  import opened Documents
  import opened Limits
  import opened Validation

  /** `Accepted`: the validator has heard of the commit, the caller has not. */
  datatype Phase = Begun | Reading(doc: Doc) | Committed(metrics: Metrics) | Accepted

  /** `detached`: the document the store refers to when it is not the loaded one, being a queued
      snapshot or an instance that was unloaded. */
  datatype Store = Store(detached: Option<Doc>, retry: bool, phase: Phase)

  datatype Room = Room(live: Doc, row: Doc, account: Account, queue: Option<Doc>, stores: map<nat, Store>,
                       lock: Option<nat>)

  datatype Event =
    | Inbound(update: Doc, bytes: nat)
    | Starts(store: nat)
    | RetryStarts(store: nat)
    | Reads(store: nat)
    | Commits(store: nat)
    | Accepts(store: nat)
    | Settles(store: nat)
    | Fails(store: nat, queue: bool)
    | Drops
    | Reload

  function Loaded(doc: Doc): Room {
    Room(doc, doc, NO_ACCOUNT, None, map[], None)
  }

  function MetricsOf(measure: Measure, doc: Doc): Metrics {
    measure(doc.Value())
  }

  function SourceDoc(r: Room, c: nat): Doc
    requires c in r.stores
  {
    if r.stores[c].detached.Some? then r.stores[c].detached.value else r.live
  }

  predicate Holds(r: Room, c: nat) {
    c in r.stores && r.stores[c].phase.Reading? && r.lock == Some(c)
  }

  ghost predicate Enabled(measure: Measure, r: Room, e: Event) {
    match e
    case Inbound(_, _) => true
    case Starts(c) => c !in r.stores
    case RetryStarts(c) => c !in r.stores && r.queue.Some?
    case Reads(c) => c in r.stores && r.stores[c].phase.Begun? && r.lock.None?
    case Commits(c) =>
      && Holds(r, c)
      && Acceptable(MetricsOf(measure, Merge(r.row, r.stores[c].phase.doc)), Some(MetricsOf(measure, r.row)))
    case Accepts(c) => c in r.stores && r.stores[c].phase.Committed?
    case Settles(c) => c in r.stores && r.stores[c].phase.Accepted?
    case Fails(c, _) => c in r.stores
    case Drops => true
    case Reload => r.lock.None?
  }

  function Step(measure: Measure, r: Room, e: Event): Room
    requires Enabled(measure, r, e)
  {
    match e
    case Inbound(update, bytes) => AfterInbound(measure, r, update, bytes)
    case Starts(c) => r.(stores := r.stores[c := Store(None, false, Begun)])
    case RetryStarts(c) => r.(stores := r.stores[c := Store(r.queue, true, Begun)])
    case Reads(c) =>
      r.(lock := Some(c), stores := r.stores[c := r.stores[c].(phase := Reading(SourceDoc(r, c)))])
    case Commits(c) => AfterCommit(measure, r, c)
    case Accepts(c) =>
      // A forgotten room has no validator to accept into.
      r.(account := if r.account.metrics.None? then r.account else Account(Some(r.stores[c].phase.metrics), 0),
         stores := r.stores[c := r.stores[c].(phase := Accepted)])
    case Settles(c) => r.(queue := None, stores := r.stores - {c})
    case Fails(c, queue) =>
      r.(queue := if queue && !r.stores[c].retry then Some(SourceDoc(r, c)) else r.queue,
         lock := if r.lock == Some(c) then None else r.lock, stores := r.stores - {c})
    case Drops => r.(queue := None)
    case Reload => r.(live := r.row, account := NO_ACCOUNT, stores := Detached(r.stores, r.live))
  }

  function AfterInbound(measure: Measure, r: Room, update: Doc, bytes: nat): Room {
    var next := Merge(r.live, update);
    var verdict := Validate(r.account, MetricsOf(measure, r.live), MetricsOf(measure, next), bytes, true);
    r.(account := verdict.account, live := if verdict.error.None? then next else r.live)
  }

  function AfterCommit(measure: Measure, r: Room, c: nat): Room
    requires Holds(r, c)
  {
    var merged := Merge(r.row, r.stores[c].phase.doc);
    r.(row := merged, lock := None,
       stores := r.stores[c := r.stores[c].(phase := Committed(MetricsOf(measure, merged)))])
  }

  /** Stores of the loaded document keep it when it is unloaded. */
  function Detached(stores: map<nat, Store>, live: Doc): map<nat, Store> {
    map c | c in stores :: if stores[c].detached.None? then stores[c].(detached := Some(live)) else stores[c]
  }

  ghost predicate Possible(measure: Measure, r: Room, events: seq<Event>)
    decreases |events|
  {
    if events == [] then true
    else Enabled(measure, r, events[0]) && Possible(measure, Step(measure, r, events[0]), events[1..])
  }

  function After(measure: Measure, r: Room, events: seq<Event>): Room
    requires Possible(measure, r, events)
    decreases |events|
  {
    if events == [] then r else After(measure, Step(measure, r, events[0]), events[1..])
  }

  // ---------- What a room holds ----------

  ghost predicate Keeps(store: Store, doc: Doc) {
    store.detached == Some(doc) || store.phase == Reading(doc)
  }

  /** Every document that is live, stored, queued or still referred to by a store. */
  ghost predicate Held(r: Room, doc: Doc) {
    doc == r.live || doc == r.row || r.queue == Some(doc) || exists c :: c in r.stores && Keeps(r.stores[c], doc)
  }

  /** The live document has everything in the row, and so has what the holder of the lock read from
      it. */
  ghost predicate Steady(r: Room) {
    && r.live.Includes(r.row)
    && (forall doc :: Held(r, doc) ==> doc.WellFormed())
    && (forall c :: c in r.stores && r.stores[c].phase.Reading? ==> r.lock == Some(c) && ReadsLive(r, r.stores[c]))
  }

  ghost predicate ReadsLive(r: Room, store: Store) {
    store.phase.Reading? && store.detached.None? ==>
      r.live.Includes(store.phase.doc) && store.phase.doc.Includes(r.row)
  }

  /** A commit after which the live document still has the row, and the row shows a value the room
      has held. */
  ghost predicate SafeCommit(r: Room, c: nat)
    requires Holds(r, c)
  {
    && r.live.Includes(r.stores[c].phase.doc)
    && exists doc :: Held(r, doc) && doc.Value() == Merge(r.row, r.stores[c].phase.doc).Value()
  }

  ghost predicate Safe(r: Room, e: Event) {
    e.Commits? ==> Holds(r, e.store) && SafeCommit(r, e.store)
  }

  ghost predicate AllSafe(measure: Measure, r: Room, events: seq<Event>)
    requires Possible(measure, r, events)
    decreases |events|
  {
    if events == [] then true
    else Safe(r, events[0]) && AllSafe(measure, Step(measure, r, events[0]), events[1..])
  }

  /** Updates arrive with their insertions. */
  ghost predicate Intact(r: Room, e: Event) {
    e.Inbound? ==> Merge(r.live, e.update).WellFormed()
  }

  ghost predicate AllIntact(measure: Measure, r: Room, events: seq<Event>)
    requires Possible(measure, r, events)
    decreases |events|
  {
    if events == [] then true
    else Intact(r, events[0]) && AllIntact(measure, Step(measure, r, events[0]), events[1..])
  }

  lemma NewHeld(measure: Measure, r: Room, e: Event, doc: Doc)
    requires Enabled(measure, r, e) && Held(Step(measure, r, e), doc)
    ensures Held(r, doc) || doc == Step(measure, r, e).live || doc == Step(measure, r, e).row
  {
    var r' := Step(measure, r, e);
    if exists c :: c in r'.stores && Keeps(r'.stores[c], doc) {
      var c :| c in r'.stores && Keeps(r'.stores[c], doc);
      if c in r.stores {
        assert Keeps(r.stores[c], doc) || doc == r.live || doc == SourceDoc(r, c);
        assert r.stores[c].detached.Some? ==> Keeps(r.stores[c], r.stores[c].detached.value);
      }
    } else if e.Fails? && r'.queue == Some(doc) {
      assert r.stores[e.store].detached.Some? ==> Keeps(r.stores[e.store], r.stores[e.store].detached.value);
    }
  }

  lemma StepIsSteady(measure: Measure, r: Room, e: Event)
    requires Steady(r) && Enabled(measure, r, e) && Safe(r, e) && Intact(r, e)
    ensures Steady(Step(measure, r, e))
  {
    var r' := Step(measure, r, e);
    if e.Commits? {
      assert Keeps(r.stores[e.store], r.stores[e.store].phase.doc) && Held(r, r.stores[e.store].phase.doc);
    }
    forall doc | Held(r', doc) ensures doc.WellFormed() {
      NewHeld(measure, r, e, doc);
      assert Held(r, r.live) && Held(r, r.row);
    }
  }

  /** What the queue holds after an event: exactly the document of a failed store that is not a retry
      and is to be queued, nothing once a store settles or the entry is dropped, and otherwise what it
      held.  A retry refers to exactly what is queued. */
  lemma QueueChanges(measure: Measure, r: Room, e: Event)
    requires Enabled(measure, r, e)
    ensures var r' := Step(measure, r, e);
      match e
      case Fails(c, queue) =>
        && c in r.stores && c !in r'.stores
        && r'.queue == if queue && !r.stores[c].retry then Some(SourceDoc(r, c)) else r.queue
      case Settles(c) => r'.queue == None && c !in r'.stores
      case Drops => r'.queue == None
      case RetryStarts(c) => r'.queue == r.queue && c in r'.stores && r'.stores[c] == Store(r.queue, true, Begun)
      case _ => r'.queue == r.queue
  {
  }

  // ---------- The bound ----------

  ghost predicate AccountWithin(first: Metrics, r: Room) {
    && (r.account.metrics.Some? ==> Recovers(r.account.metrics.value, Some(first)))
    && (forall c :: c in r.stores && r.stores[c].phase.Committed? ==> Recovers(r.stores[c].phase.metrics, Some(first)))
  }

  ghost predicate DocumentsWithin(measure: Measure, first: Metrics, r: Room) {
    forall doc :: Held(r, doc) ==> Recovers(MetricsOf(measure, doc), Some(first))
  }

  ghost predicate Bounded(measure: Measure, first: Metrics, r: Room) {
    Steady(r) && AccountWithin(first, r) && DocumentsWithin(measure, first, r)
  }

  lemma StepDocumentsWithin(measure: Measure, first: Metrics, r: Room, e: Event)
    requires Bounded(measure, first, r) && Enabled(measure, r, e) && Safe(r, e)
    ensures DocumentsWithin(measure, first, Step(measure, r, e))
  {
    var r' := Step(measure, r, e);
    assert Held(r, r.live) && Held(r, r.row);
    forall doc | Held(r', doc) ensures Recovers(MetricsOf(measure, doc), Some(first)) {
      NewHeld(measure, r, e, doc);
    }
  }

  lemma StepIsBounded(measure: Measure, first: Metrics, r: Room, e: Event)
    requires Bounded(measure, first, r) && Enabled(measure, r, e) && Safe(r, e) && Intact(r, e)
    ensures Bounded(measure, first, Step(measure, r, e))
  {
    var r' := Step(measure, r, e);
    assert Held(r, r.live) && Held(r', r'.row);
    StepIsSteady(measure, r, e);
    StepDocumentsWithin(measure, first, r, e);
  }

  lemma {:induction false} StaysBounded(measure: Measure, first: Metrics, r: Room, events: seq<Event>)
    requires Bounded(measure, first, r) && Possible(measure, r, events)
    requires AllSafe(measure, r, events) && AllIntact(measure, r, events)
    ensures Bounded(measure, first, After(measure, r, events))
    decreases |events|
  {
    if events != [] {
      StepIsBounded(measure, first, r, events[0]);
      StaysBounded(measure, first, Step(measure, r, events[0]), events[1..]);
    }
  }

  /** From a freshly loaded room on, while every commit is safe, no document or row ever reached is
      larger, deeper or has more nodes than the loaded one, whatever stores fail, are retried or settle
      late and however often the room is reloaded. */
  lemma ShrinkOnlyNeverGrows(measure: Measure, loaded: Doc, events: seq<Event>)
    requires loaded.WellFormed() && Possible(measure, Loaded(loaded), events)
    requires AllSafe(measure, Loaded(loaded), events) && AllIntact(measure, Loaded(loaded), events)
    ensures var last := After(measure, Loaded(loaded), events);
      && Recovers(MetricsOf(measure, last.live), Some(MetricsOf(measure, loaded)))
      && Recovers(MetricsOf(measure, last.row), Some(MetricsOf(measure, loaded)))
  {
    StaysBounded(measure, MetricsOf(measure, loaded), Loaded(loaded), events);
    var last := After(measure, Loaded(loaded), events);
    assert Held(last, last.live) && Held(last, last.row);
  }

  // ---------- Which commits are safe ----------

  /** A store of the document that is still loaded is always safe to commit. */
  lemma LiveCommitIsSafe(r: Room, c: nat)
    requires Steady(r) && Holds(r, c) && r.stores[c].detached.None?
    ensures SafeCommit(r, c)
  {
    var doc := r.stores[c].phase.doc;
    assert ReadsLive(r, r.stores[c]);
    assert Merge(r.row, doc) == doc;
    assert Keeps(r.stores[c], doc) && Held(r, doc);
  }

  /** All held documents are stages of one, of which the live document is the last. */
  ghost predicate Chained(r: Room) {
    && (forall doc :: Held(r, doc) ==> r.live.Includes(doc))
    && forall a, b :: Held(r, a) && Held(r, b) ==> a.Includes(b) || b.Includes(a)
  }

  lemma ChainedCommitIsSafe(r: Room, c: nat)
    requires Steady(r) && Chained(r) && Holds(r, c)
    ensures SafeCommit(r, c)
    ensures Merge(r.row, r.stores[c].phase.doc) == r.row || Merge(r.row, r.stores[c].phase.doc) == r.stores[c].phase.doc
  {
    var doc := r.stores[c].phase.doc;
    assert Keeps(r.stores[c], doc) && Held(r, doc) && Held(r, r.row);
    assert Merge(r.row, doc) == r.row || Merge(r.row, doc) == doc;
  }

  lemma StepIsChained(measure: Measure, r: Room, e: Event)
    requires Steady(r) && Chained(r) && Enabled(measure, r, e) && !e.Reload?
    ensures Chained(Step(measure, r, e)) && Safe(r, e)
  {
    var r' := Step(measure, r, e);
    if e.Commits? {
      ChainedCommitIsSafe(r, e.store);
      assert Keeps(r.stores[e.store], r.stores[e.store].phase.doc) && Held(r, r.stores[e.store].phase.doc);
    }
    assert Held(r, r.live) && Held(r, r.row);
    forall doc | Held(r', doc) ensures Held(r, doc) || doc == r'.live {
      NewHeld(measure, r, e, doc);
    }
  }

  ghost predicate NeverReloads(events: seq<Event>) {
    forall e :: e in events ==> !e.Reload?
  }

  /** Until the room is reloaded every commit is safe, those of retries included. */
  lemma {:induction false} SafeUntilReload(measure: Measure, r: Room, events: seq<Event>)
    requires Steady(r) && Chained(r) && Possible(measure, r, events)
    requires AllIntact(measure, r, events) && NeverReloads(events)
    ensures AllSafe(measure, r, events)
    decreases |events|
  {
    if events != [] {
      assert events[0] in events && forall e :: e in events[1..] ==> e in events;
      StepIsChained(measure, r, events[0]);
      StepIsSteady(measure, r, events[0]);
      SafeUntilReload(measure, Step(measure, r, events[0]), events[1..]);
    }
  }

  /** So between two loads nothing needs to be assumed of the stores. */
  lemma NeverGrowsUntilReload(measure: Measure, loaded: Doc, events: seq<Event>)
    requires loaded.WellFormed() && Possible(measure, Loaded(loaded), events)
    requires AllIntact(measure, Loaded(loaded), events) && NeverReloads(events)
    ensures var last := After(measure, Loaded(loaded), events);
      && Recovers(MetricsOf(measure, last.live), Some(MetricsOf(measure, loaded)))
      && Recovers(MetricsOf(measure, last.row), Some(MetricsOf(measure, loaded)))
  {
    SafeUntilReload(measure, Loaded(loaded), events);
    ShrinkOnlyNeverGrows(measure, loaded, events);
  }

  // ---------- Safe commits are exactly the right condition ----------

  /** From here on only stores of the loaded document commit. */
  ghost predicate OnlyLive(measure: Measure, r: Room, events: seq<Event>)
    requires Possible(measure, r, events)
    decreases |events|
  {
    if events == [] then true
    else
      && (events[0].Commits? ==> r.stores[events[0].store].detached.None?)
      && OnlyLive(measure, Step(measure, r, events[0]), events[1..])
  }

  lemma {:induction false} OnlyLiveStaysBounded(measure: Measure, first: Metrics, r: Room, events: seq<Event>)
    requires Bounded(measure, first, r) && Possible(measure, r, events)
    requires OnlyLive(measure, r, events) && AllIntact(measure, r, events)
    ensures Bounded(measure, first, After(measure, r, events))
    decreases |events|
  {
    if events != [] {
      if events[0].Commits? {
        LiveCommitIsSafe(r, events[0].store);
      }
      StepIsBounded(measure, first, r, events[0]);
      OnlyLiveStaysBounded(measure, first, Step(measure, r, events[0]), events[1..]);
    }
  }

  ghost predicate Within(measure: Measure, first: Metrics, r: Room) {
    Recovers(MetricsOf(measure, r.live), Some(first)) && Recovers(MetricsOf(measure, r.row), Some(first))
  }

  ghost predicate Goes(measure: Measure, r: Room, c: nat, later: seq<Event>) {
    && Enabled(measure, r, Commits(c))
    && Possible(measure, Step(measure, r, Commits(c)), later)
    && OnlyLive(measure, Step(measure, r, Commits(c)), later)
    && AllIntact(measure, Step(measure, r, Commits(c)), later)
  }

  /** Whatever the metrics of values are, if everything the room holds is within the bound, this
      commit and everything that follows it, with no other detached store committing, is too. */
  ghost predicate KeepsBound(first: Metrics, r: Room, c: nat) {
    forall measure: Measure, later: seq<Event> ::
      DocumentsWithin(measure, first, r) && Goes(measure, r, c, later) ==>
        Within(measure, first, After(measure, Step(measure, r, Commits(c)), later))
  }

  /** The bound is under the limits, with room above it for a document that breaks it. */
  ghost predicate Modest(first: Metrics) {
    WithinLimits(first) && first.contentBytes < MAX_CONTENT_BYTES
  }

  /** A commit keeps the bound if and only if it is safe. */
  lemma SafeCommitIsExact(first: Metrics, r: Room, c: nat)
    requires Steady(r) && AccountWithin(first, r) && Holds(r, c) && Modest(first)
    ensures KeepsBound(first, r, c) <==> SafeCommit(r, c)
  {
    if SafeCommit(r, c) {
      forall measure: Measure, later: seq<Event> | DocumentsWithin(measure, first, r) && Goes(measure, r, c, later)
        ensures Within(measure, first, After(measure, Step(measure, r, Commits(c)), later))
      {
        var last := After(measure, Step(measure, r, Commits(c)), later);
        StepIsBounded(measure, first, r, Commits(c));
        OnlyLiveStaysBounded(measure, first, Step(measure, r, Commits(c)), later);
        assert Held(last, last.live) && Held(last, last.row);
      }
    } else if r.live.Includes(r.stores[c].phase.doc) {
      StrangeValueBreaksBound(first, r, c);
    } else {
      MissingDocumentBreaksBound(first, r, c);
    }
  }

  /** Everything is small except one value, which is just over the bound. */
  function AllBut(value: set<Id>, first: Metrics): Measure {
    (v: set<Id>) => if v == value then first.(contentBytes := first.contentBytes + 1) else Metrics(0, 0, 0)
  }

  lemma StrangeValueBreaksBound(first: Metrics, r: Room, c: nat)
    requires Steady(r) && Holds(r, c) && Modest(first)
    requires forall doc :: Held(r, doc) ==> doc.Value() != Merge(r.row, r.stores[c].phase.doc).Value()
    ensures !KeepsBound(first, r, c)
  {
    var measure := AllBut(Merge(r.row, r.stores[c].phase.doc).Value(), first);
    assert DocumentsWithin(measure, first, r);
    assert Goes(measure, r, c, []);
    assert !Within(measure, first, After(measure, Step(measure, r, Commits(c)), []));
  }

  /** Every id of a document the room holds. */
  ghost function Ids(r: Room): set<Id> {
    r.live.inserted + r.row.inserted + (if r.queue.Some? then r.queue.value.inserted else {})
    + (set c, x | c in r.stores && r.stores[c].detached.Some? && x in r.stores[c].detached.value.inserted :: x)
    + (set c, x | c in r.stores && r.stores[c].phase.Reading? && x in r.stores[c].phase.doc.inserted :: x)
  }

  lemma HeldIds(r: Room, doc: Doc)
    requires Held(r, doc)
    ensures doc.inserted <= Ids(r)
  {
    if exists c :: c in r.stores && Keeps(r.stores[c], doc) {
      var c :| c in r.stores && Keeps(r.stores[c], doc);
    }
  }

  /** An update that the live document takes and that, stored on top of a document it does not have,
      shows a value nobody has seen. */
  lemma RevealingUpdate(r: Room, doc: Doc) returns (update: Doc, x: Id)
    requires Steady(r) && Held(r, doc) && !r.live.Includes(doc)
    ensures x !in Ids(r) && x in update.inserted && x !in update.deleted
    ensures Merge(r.live, update).WellFormed() && update.deleted == {}
    ensures var merged := Merge(Merge(r.row, doc), Merge(r.live, update));
      x in merged.Value() && merged.Value() != Merge(r.live, update).Value()
  {
    x := Above(Ids(r));
    assert Held(r, r.live) && Held(r, r.row);
    HeldIds(r, doc);
    if doc.deleted <= r.live.deleted {
      update := Doc({x}, {});
      var y :| y in doc.inserted && y !in r.live.inserted;
      assert y !in doc.deleted && y !in r.row.deleted && y != x;
      assert y in Merge(Merge(r.row, doc), Merge(r.live, update)).Value();
    } else {
      var y :| y in doc.deleted && y !in r.live.deleted;
      update := Doc({x, y}, {});
      assert y in Merge(r.live, update).Value() && y != x;
      assert y !in Merge(Merge(r.row, doc), Merge(r.live, update)).Value();
    }
  }

  lemma OthersAreSmall(first: Metrics, r: Room, value: set<Id>)
    requires forall doc :: Held(r, doc) ==> doc.Value() != value
    ensures DocumentsWithin(AllBut(value, first), first, r)
  {
  }

  /** The commit, the update and a store of the live document, all of which go through. */
  lemma CycleGoes(first: Metrics, r: Room, c: nat, update: Doc, n: nat, final: Doc)
    requires Holds(r, c) && Modest(first) && n !in r.stores && Merge(r.live, update).WellFormed()
    requires final == Merge(Merge(r.row, r.stores[c].phase.doc), Merge(r.live, update))
    requires Merge(r.live, update).Value() != final.Value() && r.row.Value() != final.Value()
    requires Merge(r.row, r.stores[c].phase.doc).Value() != final.Value()
    ensures var measure := AllBut(final.Value(), first);
      && Goes(measure, r, c, CommitCycle(update, n))
      && After(measure, Step(measure, r, Commits(c)), CommitCycle(update, n)).row == final
  {
    var measure := AllBut(final.Value(), first);
    LiveStoreCommits(measure, AfterCommit(measure, r, c), update, n);
  }

  lemma MissingDocumentBreaksBound(first: Metrics, r: Room, c: nat)
    requires Steady(r) && AccountWithin(first, r) && Holds(r, c) && Modest(first)
    requires !r.live.Includes(r.stores[c].phase.doc)
    ensures !KeepsBound(first, r, c)
  {
    var doc := r.stores[c].phase.doc;
    assert Keeps(r.stores[c], doc) && Held(r, doc) && Held(r, r.row);
    var update, x := RevealingUpdate(r, doc);
    var final := Merge(Merge(r.row, doc), Merge(r.live, update));
    forall held | Held(r, held) ensures x !in held.Value() {
      HeldIds(r, held);
    }
    assert x !in Merge(r.row, doc).Value() by {
      HeldIds(r, doc);
      HeldIds(r, r.row);
    }
    OthersAreSmall(first, r, final.Value());
    CycleGoes(first, r, c, update, Above(r.stores.Keys), final);
  }

  /** One update, and one store of the live document that runs to its commit. */
  function CommitCycle(update: Doc, n: nat): seq<Event> {
    [Inbound(update, 0)] + ([Starts(n)] + ([Reads(n)] + ([Commits(n)] + [])))
  }

  lemma Prepend(measure: Measure, r: Room, e: Event, rest: seq<Event>)
    requires Enabled(measure, r, e) && Intact(r, e) && (e.Commits? ==> r.stores[e.store].detached.None?)
    requires var r' := Step(measure, r, e);
      Possible(measure, r', rest) && OnlyLive(measure, r', rest) && AllIntact(measure, r', rest)
    ensures Possible(measure, r, [e] + rest)
    ensures OnlyLive(measure, r, [e] + rest) && AllIntact(measure, r, [e] + rest)
    ensures After(measure, r, [e] + rest) == After(measure, Step(measure, r, e), rest)
  {
    assert ([e] + rest)[1..] == rest;
  }

  lemma LiveStoreCommits(measure: Measure, r: Room, update: Doc, n: nat)
    requires r.lock.None? && n !in r.stores && Merge(r.live, update).WellFormed()
    requires MetricsOf(measure, Merge(r.live, update)) == Metrics(0, 0, 0)
    requires Acceptable(MetricsOf(measure, Merge(r.row, Merge(r.live, update))), Some(MetricsOf(measure, r.row)))
    ensures var events := CommitCycle(update, n);
      && Possible(measure, r, events) && OnlyLive(measure, r, events) && AllIntact(measure, r, events)
      && After(measure, r, events).row == Merge(r.row, Merge(r.live, update))
  {
    var r1 := Step(measure, r, Inbound(update, 0));
    assert r1.live == Merge(r.live, update);
    var r2 := Step(measure, r1, Starts(n));
    var r3 := Step(measure, r2, Reads(n));
    assert Holds(r3, n) && r3.stores[n] == Store(None, false, Reading(r1.live)) && r3.row == r.row;
    Prepend(measure, r3, Commits(n), []);
    Prepend(measure, r2, Reads(n), [Commits(n)] + []);
    Prepend(measure, r1, Starts(n), [Reads(n)] + ([Commits(n)] + []));
    Prepend(measure, r, Inbound(update, 0), [Starts(n)] + ([Reads(n)] + ([Commits(n)] + [])));
  }
}
