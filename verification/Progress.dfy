/** That the guarded operations of the protocol do their work: when each of them takes effect, and that
    a receipt, a projection and a compaction can always be brought about. */
module Progress {
  import opened Documents
  import opened Limits
  import opened Validation
  import opened Persistence
  import opened Protocol
  import opened Invariants
  import opened DurableDocuments

  // ---------- Loads and stores ----------

  /** A load succeeds under the row's own epoch, or from content when there is no row, and the loaded
      document is exactly the state of the row. */
  lemma LoadTakesRowIff(measure: Measure, states: seq<State>, events: seq<Event>, i: nat, site: Site, n: nat)
    requires Run(measure, states, events) && i < |events| && events[i] == Load(site, n)
    ensures var s, s' := states[i], states[i + 1];
      && (site in s'.loaded <==>
            if s.material.row.Some? then s.material.row.value.epoch == site.epoch else s.material.content.Plate?)
      && (site in s'.loaded ==>
            && s'.loaded[site] == n && n in s'.instances && s'.material.row.Some?
            && s'.instances[n] == Instance(site, s'.material.row.value.state)
            && (s.material.row.Some? ==> s'.material == s.material)
            && (s.material.row.None? ==> s'.material.row.value.state.Value() == s.material.content.value))
      && (site !in s'.loaded ==> s' == s)
  {
    assert StepAt(measure, states, events, i);
    LoadsIff(states[i].material, site.epoch);
  }

  /** A store of the current epoch gets through exactly when what it would write is under every cap, or
      exceeds the row in none. */
  lemma StoreCanCommitIff(measure: Measure, states: seq<State>, events: seq<Event>, i: nat, c: nat)
    requires Run(measure, states, events) && i < |states| && states[i].lock.None?
    requires c in states[i].calls && states[i].calls[c].phase.Begun?
    ensures states[i].material.row.Some?
    ensures states[i].calls[c].source.Live? ==> states[i].calls[c].source.instance in states[i].instances
    ensures var s := states[i];
            var row := s.material.row.value;
            var after := measure(Merge(row.state, SourceDoc(s, s.calls[c].source)).Value());
      Enabled(measure, s, LockRow(c)) <==>
        && s.calls[c].site.epoch == row.epoch
        && (EachUnderCap(after) || EachAtMost(after, measure(row.state.Value())))
  {
    var s := states[i];
    CallsHaveSources(measure, states, events, i, c);
    StoresIff(measure, s.material, s.calls[c].site.epoch, SourceDoc(s, s.calls[c].source));
  }

  lemma CallsHaveSources(measure: Measure, states: seq<State>, events: seq<Event>, i: nat, c: nat)
    requires Run(measure, states, events) && i < |states| && c in states[i].calls
    ensures states[i].material.row.Some? && SourceInv(states[i], states[i].calls[c])
  {
    RunKeeps(measure, states, events, i);
  }

  /** What the retry queue holds after an event: a failed store, or one that gives up on its projection,
      queues exactly its live document when asked to; a store that settles and a drop take out the entry
      of their room; nothing else touches the queue. */
  lemma QueueChanges(measure: Measure, states: seq<State>, events: seq<Event>, i: nat)
    requires Run(measure, states, events) && i < |events|
    ensures var s, s' := states[i], states[i + 1];
      match events[i]
      case FailStore(c, queue) =>
        && c in s.calls
        && (if queue && s.calls[c].source.Live?
            then && s.calls[c].source.instance in s.instances
                 && s'.failed == s.failed[s.calls[c].site := s.instances[s.calls[c].source.instance].doc]
            else s'.failed == s.failed)
      case AwaitFails(n) =>
        n in s.instances && s'.failed == s.failed[s.instances[n].site := s.instances[n].doc]
      case SettleStore(c) => c in s.calls && s'.failed == s.failed - {s.calls[c].site}
      case DropFailed(site) => s'.failed == s.failed - {site}
      case _ => s'.failed == s.failed
  {
    assert StepAt(measure, states, events, i);
  }

  /** A failed store leaves the calls and the lock, and a retry takes exactly what is queued. */
  lemma FailuresLeave(measure: Measure, states: seq<State>, events: seq<Event>, i: nat)
    requires Run(measure, states, events) && i < |events|
    ensures var s, s' := states[i], states[i + 1];
      match events[i]
      case FailStore(c, _) => c in s.calls && s'.calls == s.calls - {c} && s'.lock != Some(c)
      case BeginRetry(site, c) =>
        site in s.failed && c in s'.calls && s'.calls[c].source == Snapshot(s.failed[site]) && s'.calls[c].site == site
      case SqlWrite(content) => s.material.row.None? && s'.material == Material(None, content)
      case _ => true
  {
    assert StepAt(measure, states, events, i);
  }

  /** From every point of every run a store in progress can fail, its live document can then be retried,
      or be dropped by an eviction, and a store can give up on its projection. */
  lemma FailureCanBeRetried(measure: Measure, states: seq<State>, events: seq<Event>, c: nat, again: nat)
    requires Run(measure, states, events)
    requires c in states[|events|].calls && states[|events|].calls[c].source.Live?
    requires again !in states[|events|].calls
    ensures var s := states[|events|];
            var site, n := s.calls[c].site, s.calls[c].source.instance;
      && Enabled(measure, s, FailStore(c, true)) && Enabled(measure, s, AwaitFails(n))
      && var s' := Step(measure, s, FailStore(c, true));
      && site in s'.failed && s'.failed[site] == s.instances[n].doc
      && Enabled(measure, s', BeginRetry(site, again)) && Enabled(measure, s', DropFailed(site))
  {
    CallsHaveSources(measure, states, events, |events|, c);
  }

  /** An update that reaches a live document is merged into it. */
  lemma EditsReach(measure: Measure, states: seq<State>, events: seq<Event>, i: nat, site: Site, update: Doc)
    requires Run(measure, states, events) && i < |events| && events[i] == Edit(site, update)
    ensures site in states[i].loaded && states[i].loaded[site] in states[i].instances
    ensures var n := states[i].loaded[site];
      n in states[i + 1].instances
      && states[i + 1].instances[n] == Instance(states[i].instances[n].site, Merge(states[i].instances[n].doc, update))
  {
    assert StepAt(measure, states, events, i);
  }

  // ---------- Projection and compaction ----------

  /** A settled store and the retry loop both send the row's version with its value. */
  lemma ProjectionsAreSent(measure: Measure, states: seq<State>, events: seq<Event>, i: nat)
    requires Run(measure, states, events) && i < |events|
    ensures var s, s' := states[i], states[i + 1];
      match events[i]
      case SettleStore(c) =>
        && c in s.calls && s.calls[c].phase.Committed?
        && Message(s.calls[c].phase.version, s.calls[c].phase.value) in s'.messages
      case ReadPending =>
        s.material.row.Some? && s.material.row.value.projected < s.material.row.value.stored ==>
          Message(s.material.row.value.stored, s.material.row.value.state.Value()) in s'.messages
      case _ => true
  {
    assert StepAt(measure, states, events, i);
  }

  /** A message takes effect exactly when its version is ahead of the projection, and then the content
      is its value. */
  lemma DeliveryProjectsIff(measure: Measure, states: seq<State>, events: seq<Event>, i: nat, message: Message)
    requires Run(measure, states, events) && i < |events| && events[i] == Deliver(message)
    ensures states[i].material.row.Some? && states[i + 1].material.row.Some?
    ensures var s, s' := states[i], states[i + 1];
      && (s'.material != s.material <==> s.material.row.value.projected < message.version)
      && (s.material.row.value.projected < message.version ==>
            && s'.material.content == Plate(message.value)
            && s'.material.row.value == s.material.row.value.(projected := message.version))
  {
    assert StepAt(measure, states, events, i);
    MessagesAreVersions(measure, states, events, i, message);
    ProjectsIff(states[i].material, message.version, message.value);
  }

  lemma MessagesAreVersions(measure: Measure, states: seq<State>, events: seq<Event>, i: nat, message: Message)
    requires Run(measure, states, events) && i < |states| && message in states[i].messages
    ensures states[i].material.row.Some? && states[i].material.content.Plate?
    ensures 1 <= message.version <= states[i].material.row.value.stored
  {
    RunKeeps(measure, states, events, i);
    assert MessageInv(states[i].trace, message);
  }

  /** A compaction of the current epoch writes exactly when the projection has caught up; then it keeps
      the value, drops every tombstone and takes the next epoch and version. */
  lemma CompactionWritesIff(measure: Measure, states: seq<State>, events: seq<Event>, i: nat, epoch: nat)
    requires Run(measure, states, events) && i < |events| && events[i] == Compact(epoch)
    ensures var m, m' := states[i].material, states[i + 1].material;
            var caughtUp := m.row.Some? && m.row.value.epoch == epoch && m.row.value.stored == m.row.value.projected;
      && (m' != m <==> caughtUp)
      && (caughtUp ==>
            && m'.row.Some? && m'.content == m.content
            && m'.row.value.epoch == epoch + 1
            && m'.row.value.stored == m'.row.value.projected == m.row.value.stored + 1
            && m'.row.value.state.Value() == m.row.value.state.Value() && m'.row.value.state.deleted == {})
      && (!caughtUp ==> states[i + 1] == states[i])
  {
    assert StepAt(measure, states, events, i);
    CompactsIff(states[i].material, epoch);
    if states[i].material.row.Some? {
      ProjectionShowsItsVersion(measure, states, events, i);
    }
  }

  // ---------- Receipts ----------

  /** The settling of a live store that claimed the id. */
  ghost predicate SettlesFor(s: State, e: Event, site: Site, id: nat) {
    && e.SettleStore? && e.call in s.calls && s.calls[e.call].source.Live?
    && s.calls[e.call].site == site && id in s.calls[e.call].claimed
  }

  lemma DequeuedIff(pending: map<Site, set<nat>>, site: Site, claimed: set<nat>, other: Site, id: nat)
    ensures id in QueueOf(Dequeue(pending, site, claimed), other) <==>
              id in QueueOf(pending, other) && !(other == site && id in claimed)
  {
  }

  lemma EnqueuedIff(pending: map<Site, set<nat>>, site: Site, id: nat, other: Site, x: nat)
    ensures x in QueueOf(Enqueue(pending, site, id), other) <==>
              x in QueueOf(pending, other) || (other == site && x == id && |QueueOf(pending, site)| < 64)
  {
  }

  /** What is queued: an id joins by a request that finds fewer than 64, and leaves only by an unload of
      the room or the settling of a store that claimed it. */
  lemma QueuedIff(measure: Measure, s: State, e: Event, site: Site, id: nat)
    requires Enabled(measure, s, e)
    ensures id in PendingAt(Step(measure, s, e), site) <==>
              || (id in PendingAt(s, site) && e != Unload(site) && !SettlesFor(s, e, site, id))
              || (e == Request(site, id) && |PendingAt(s, site)| < 64)
  {
    match e
    case Request(at, asked) => EnqueuedIff(s.pending, at, asked, site, id);
    case SettleStore(c) => DequeuedIff(s.pending, s.calls[c].site, s.calls[c].claimed, site, id);
    case _ =>
  }

  /** A store claims everything queued when it begins, and its claim does not change. */
  lemma ClaimsStand(measure: Measure, s: State, e: Event, c: nat)
    requires Enabled(measure, s, e)
    ensures var s' := Step(measure, s, e);
      && (e.BeginStore? && e.call == c ==>
            c in s'.calls && s'.calls[c].claimed == PendingAt(s, e.site) && s'.calls[c].site == e.site
            && s'.calls[c].source.Live?)
      && (c in s.calls ==>
            && (c in s'.calls <==> !(e.SettleStore? && e.call == c) && !(e.FailStore? && e.call == c))
            && (c in s'.calls ==>
                  && s'.calls[c].claimed == s.calls[c].claimed && s'.calls[c].site == s.calls[c].site
                  && s'.calls[c].source == s.calls[c].source))
  {
  }

  /** The settling of a live store, and nothing else, broadcasts a receipt: of what it claimed, at the
      version it committed. */
  lemma ReceiptSentIff(measure: Measure, s: State, e: Event, receipt: Receipt)
    requires Enabled(measure, s, e)
    ensures receipt in Step(measure, s, e).trace.receipts <==>
              || receipt in s.trace.receipts
              || (&& e.SettleStore? && e.call in s.calls && s.calls[e.call].source.Live?
                  && s.calls[e.call].phase.Committed?
                  && receipt == Receipt(s.calls[e.call].claimed, s.calls[e.call].phase.version))
  {
  }

  lemma {:induction false} StaysQueued(measure: Measure, states: seq<State>, events: seq<Event>, k: nat, b: nat,
                                       site: Site, id: nat)
    requires Run(measure, states, events) && k < b < |states|
    requires events[k] == Request(site, id) && |PendingAt(states[k], site)| < 64
    requires forall i :: k < i < b ==> events[i] != Unload(site) && !SettlesFor(states[i], events[i], site, id)
    ensures id in PendingAt(states[b], site)
    decreases b
  {
    assert StepAt(measure, states, events, b - 1);
    QueuedIff(measure, states[b - 1], events[b - 1], site, id);
    if b > k + 1 {
      StaysQueued(measure, states, events, k, b - 1, site, id);
    }
  }

  ghost predicate Drops(e: Event, c: nat) {
    (e.SettleStore? || e.FailStore?) && e.call == c
  }

  lemma {:induction false} StaysClaimed(measure: Measure, states: seq<State>, events: seq<Event>, b: nat, j: nat,
                                        site: Site, c: nat)
    requires Run(measure, states, events) && b < j < |states| && events[b] == BeginStore(site, c)
    requires forall i :: b < i < j ==> !Drops(events[i], c)
    ensures c in states[j].calls && states[j].calls[c].claimed == PendingAt(states[b], site)
    ensures states[j].calls[c].site == site && states[j].calls[c].source.Live?
    decreases j
  {
    assert StepAt(measure, states, events, j - 1);
    ClaimsStand(measure, states[j - 1], events[j - 1], c);
    if j > b + 1 {
      StaysClaimed(measure, states, events, b, j - 1, site, c);
    }
  }

  /** A request that is still queued when a store of its room begins is in the receipt that store
      broadcasts when it settles, at the version it committed, and is no longer queued. */
  lemma ReceiptArrives(measure: Measure, states: seq<State>, events: seq<Event>, k: nat, b: nat, j: nat,
                       site: Site, id: nat, c: nat) returns (receipt: Receipt)
    requires Run(measure, states, events) && k < b < j < |events|
    requires events[k] == Request(site, id) && |PendingAt(states[k], site)| < 64
    requires events[b] == BeginStore(site, c) && events[j] == SettleStore(c)
    requires forall i :: k < i < b ==> events[i] != Unload(site) && !SettlesFor(states[i], events[i], site, id)
    requires forall i :: b < i < j ==> !Drops(events[i], c)
    ensures id in receipt.ids && receipt in states[j + 1].trace.receipts
    ensures c in states[j].calls && states[j].calls[c].phase.Committed?
    ensures receipt.version == states[j].calls[c].phase.version
    ensures id !in PendingAt(states[j + 1], site)
  {
    StaysQueued(measure, states, events, k, b, site, id);
    StaysClaimed(measure, states, events, b, j, site, c);
    assert StepAt(measure, states, events, j);
    var call := states[j].calls[c];
    receipt := Receipt(call.claimed, call.phase.version);
    ReceiptSentIff(measure, states[j], events[j], receipt);
    QueuedIff(measure, states[j], events[j], site, id);
  }

  // ---------- Everything can be brought about ----------

  lemma Extend(measure: Measure, states: seq<State>, events: seq<Event>, e: Event)
    requires Run(measure, states, events) && Enabled(measure, states[|events|], e)
    ensures Run(measure, states + [Step(measure, states[|events|], e)], events + [e])
  {
    var states', events' := states + [Step(measure, states[|events|], e)], events + [e];
    forall i | 0 <= i < |events'| ensures StepAt(measure, states', events', i) {
      assert i < |events| ==> StepAt(measure, states, events, i);
    }
  }

  /** The room can be stored: it is loaded under the row's epoch, the row is not locked, and the row with
      the live document merged in is under every cap or exceeds the row in none. */
  ghost predicate Storable(measure: Measure, s: State, site: Site) {
    && s.lock.None? && s.material.row.Some? && s.material.row.value.epoch == site.epoch
    && site in s.loaded && s.loaded[site] in s.instances
    && var row := s.material.row.value;
       var after := measure(Merge(row.state, s.instances[s.loaded[site]].doc).Value());
       EachUnderCap(after) || EachAtMost(after, measure(row.state.Value()))
  }

  function LiveDoc(s: State, site: Site): Doc
    requires site in s.loaded && s.loaded[site] in s.instances
  {
    s.instances[s.loaded[site]].doc
  }

  lemma RequestRuns(measure: Measure, s: State, site: Site, id: nat)
    requires Storable(measure, s, site) && id !in s.trace.asked && |PendingAt(s, site)| < 64
    ensures Enabled(measure, s, Request(site, id))
    ensures var s' := Step(measure, s, Request(site, id));
      && Storable(measure, s', site) && LiveDoc(s', site) == LiveDoc(s, site) && id in PendingAt(s', site)
      && s'.material == s.material && s'.calls == s.calls
  {
    EnqueuedIff(s.pending, site, id, site, id);
  }

  lemma BeginRuns(measure: Measure, s: State, site: Site, c: nat)
    requires Storable(measure, s, site) && c !in s.calls
    ensures Enabled(measure, s, BeginStore(site, c))
    ensures Step(measure, s, BeginStore(site, c))
         == s.(calls := s.calls[c := Call(site, Live(s.loaded[site]), PendingAt(s, site), Begun)])
  {
  }

  lemma LockRuns(measure: Measure, s: State, site: Site, c: nat)
    requires Storable(measure, s, site) && c in s.calls
    requires s.calls[c].phase.Begun? && s.calls[c].site == site && s.calls[c].source == Live(s.loaded[site])
    ensures Enabled(measure, s, LockRow(c))
    ensures var s' := Step(measure, s, LockRow(c));
            var row := s.material.row.value;
      && s'.material == s.material && Holding(s', c) && s'.calls == s.calls[c := s'.calls[c]]
      && s'.calls[c].claimed == s.calls[c].claimed && s'.calls[c].site == site && s'.calls[c].source.Live?
      && s'.calls[c].phase.read == LiveDoc(s, site)
      && s'.calls[c].phase.prepared.row
         == row.(state := Merge(row.state, LiveDoc(s, site)), stored := row.stored + 1)
      && s'.calls[c].phase.prepared.value == Merge(row.state, LiveDoc(s, site)).Value()
  {
    StoresIff(measure, s.material, site.epoch, LiveDoc(s, site));
  }

  lemma CommitRuns(measure: Measure, s: State, c: nat)
    requires Holding(s, c) && s.calls[c].source.Live?
    ensures Enabled(measure, s, CommitStore(c))
    ensures var s', call := Step(measure, s, CommitStore(c)), s.calls[c];
      && s'.material == s.material.(row := Some(call.phase.prepared.row)) && s'.lock.None?
      && s'.calls == s.calls[c := s'.calls[c]] && s'.calls[c].phase.Committed?
      && s'.calls[c].claimed == call.claimed && s'.calls[c].site == call.site && s'.calls[c].source.Live?
      && s'.calls[c].phase.version == call.phase.prepared.row.stored
      && s'.calls[c].phase.value == call.phase.prepared.value
  {
  }

  lemma SettleRuns(measure: Measure, s: State, c: nat)
    requires c in s.calls && s.calls[c].phase.Committed? && s.calls[c].source.Live?
    ensures Enabled(measure, s, SettleStore(c))
    ensures var s', call := Step(measure, s, SettleStore(c)), s.calls[c];
      && s'.material == s.material && s'.lock == s.lock && s'.calls == s.calls - {c}
      && call.site !in s'.failed
      && Receipt(call.claimed, call.phase.version) in s'.trace.receipts
      && Message(call.phase.version, call.phase.value) in s'.messages
  {
  }

  /** From every point of every run at which a room can be stored, a receipt can be had for it: a request
      and a store of it can follow at once, and end with the id in a receipt at the next version, the
      live document in the row, the room out of the retry queue, and its projection on the way. */
  lemma CheckpointCompletes(measure: Measure, states: seq<State>, events: seq<Event>, site: Site, id: nat, c: nat)
    returns (states': seq<State>, receipt: Receipt)
    requires Run(measure, states, events) && Storable(measure, states[|events|], site)
    requires id !in states[|events|].trace.asked && c !in states[|events|].calls
    requires |PendingAt(states[|events|], site)| < 64
    ensures var s := states[|events|];
            var row := s.material.row.value;
            var events' := events + [Request(site, id)] + [BeginStore(site, c)] + [LockRow(c)] + [CommitStore(c)]
                         + [SettleStore(c)];
      && Run(measure, states', events')
      && var last := states'[|events'|];
      && last.lock.None? && last.material.content == s.material.content
      && last.material.row == Some(row.(state := Merge(row.state, LiveDoc(s, site)), stored := row.stored + 1))
      && id in receipt.ids && receipt.version == row.stored + 1 && receipt in last.trace.receipts
      && site !in last.failed && last.calls == s.calls
      && Message(row.stored + 1, Merge(row.state, LiveDoc(s, site)).Value()) in last.messages
  {
    var s := states[|events|];
    RequestRuns(measure, s, site, id);
    Extend(measure, states, events, Request(site, id));
    var s1 := Step(measure, s, Request(site, id));
    BeginRuns(measure, s1, site, c);
    Extend(measure, states + [s1], events + [Request(site, id)], BeginStore(site, c));
    var s2 := Step(measure, s1, BeginStore(site, c));
    states' := StoreRuns(measure, states + [s1] + [s2], events + [Request(site, id)] + [BeginStore(site, c)], site, c);
    receipt := Receipt(s2.calls[c].claimed, s.material.row.value.stored + 1);
    assert s2.calls - {c} == s.calls;
  }

  lemma StoreRuns(measure: Measure, states: seq<State>, events: seq<Event>, site: Site, c: nat)
    returns (states': seq<State>)
    requires Run(measure, states, events) && Storable(measure, states[|events|], site) && c in states[|events|].calls
    requires var call := states[|events|].calls[c];
      call.phase.Begun? && call.site == site && call.source == Live(states[|events|].loaded[site])
    ensures var s := states[|events|];
            var row := s.material.row.value;
            var events' := events + [LockRow(c)] + [CommitStore(c)] + [SettleStore(c)];
      && Run(measure, states', events')
      && var last := states'[|events'|];
      && last.lock.None? && last.material.content == s.material.content
      && last.material.row == Some(row.(state := Merge(row.state, LiveDoc(s, site)), stored := row.stored + 1))
      && Receipt(s.calls[c].claimed, row.stored + 1) in last.trace.receipts
      && site !in last.failed && last.calls == s.calls - {c}
      && Message(row.stored + 1, Merge(row.state, LiveDoc(s, site)).Value()) in last.messages
  {
    var s := states[|events|];
    LockRuns(measure, s, site, c);
    Extend(measure, states, events, LockRow(c));
    var s1 := Step(measure, s, LockRow(c));
    CommitRuns(measure, s1, c);
    Extend(measure, states + [s1], events + [LockRow(c)], CommitStore(c));
    var s2 := Step(measure, s1, CommitStore(c));
    SettleRuns(measure, s2, c);
    Extend(measure, states + [s1] + [s2], events + [LockRow(c)] + [CommitStore(c)], SettleStore(c));
    states' := states + [s1] + [s2] + [Step(measure, s2, SettleStore(c))];
    assert s2.calls - {c} == s.calls - {c};
  }

  /** And a message for the row's version, once delivered, lets the room be compacted: two events take
      the row to the next epoch with the same value and no tombstone. */
  lemma CompactionCompletes(measure: Measure, states: seq<State>, events: seq<Event>, message: Message)
    returns (states': seq<State>)
    requires Run(measure, states, events) && states[|events|].lock.None? && message in states[|events|].messages
    requires states[|events|].material.row.Some? && message.version == states[|events|].material.row.value.stored
    ensures var row := states[|events|].material.row.value;
            var events' := events + [Deliver(message)] + [Compact(row.epoch)];
      && Run(measure, states', events')
      && var last := states'[|events'|].material;
      && last.row.Some? && last.content == Plate(row.state.Value())
      && last.row.value.epoch == row.epoch + 1 && last.row.value.state.Value() == row.state.Value()
      && last.row.value.state.deleted == {}
      && last.row.value.stored == row.stored + 1 == last.row.value.projected
  {
    var s := states[|events|];
    var epoch := s.material.row.value.epoch;
    Extend(measure, states, events, Deliver(message));
    var s1 := Step(measure, s, Deliver(message));
    var states1, events1 := states + [s1], events + [Deliver(message)];
    DeliveryProjectsIff(measure, states1, events1, |events|, message);
    DeliveryLeavesLock(measure, s, message);
    Extend(measure, states1, events1, Compact(epoch));
    states' := states1 + [Step(measure, s1, Compact(epoch))];
    CompactionWritesIff(measure, states', events1 + [Compact(epoch)], |events1|, epoch);
    ProjectionShowsItsVersion(measure, states1, events1, |events1|);
  }

  lemma DeliveryLeavesLock(measure: Measure, s: State, message: Message)
    requires Enabled(measure, s, Deliver(message))
    ensures var s' := Step(measure, s, Deliver(message));
      && s'.lock.None?
      && (s.material.row.Some? ==>
            && s'.material.row.Some? && s'.material.row.value.epoch == s.material.row.value.epoch
            && s'.material.row.value.stored == s.material.row.value.stored
            && s'.material.row.value.state == s.material.row.value.state)
  {
  }

  /** However many messages were lost: from every point of every run at which the row is not locked, the
      retry loop can bring the projection up to date and the room can be compacted. */
  lemma CompactionIsAlwaysPossible(measure: Measure, states: seq<State>, events: seq<Event>)
    returns (states': seq<State>, events': seq<Event>)
    requires Run(measure, states, events)
    requires states[|events|].lock.None? && states[|events|].material.row.Some?
    ensures Run(measure, states', events') && events <= events'
    ensures var row, last := states[|events|].material.row.value, states'[|events'|].material;
      && last.row.Some? && last.content == Plate(row.state.Value())
      && last.row.value.epoch == row.epoch + 1 && last.row.value.state.Value() == row.state.Value()
      && last.row.value.state.deleted == {} && last.row.value.stored == row.stored + 1 == last.row.value.projected
  {
    var s := states[|events|];
    var row := s.material.row.value;
    ProjectionShowsItsVersion(measure, states, events, |events|);
    if row.projected < row.stored {
      var message := Message(row.stored, row.state.Value());
      var s1 := Step(measure, s, ReadPending);
      Extend(measure, states, events, ReadPending);
      states' := CompactionCompletes(measure, states + [s1], events + [ReadPending], message);
      events' := events + [ReadPending] + [Deliver(message)] + [Compact(row.epoch)];
    } else {
      var s1 := Step(measure, s, Compact(row.epoch));
      Extend(measure, states, events, Compact(row.epoch));
      states', events' := states + [s1], events + [Compact(row.epoch)];
      CompactionWritesIff(measure, states', events', |events|, row.epoch);
    }
  }
}
