/** The promises of the durable-document protocol, over every run. */
module DurableDocuments {
  import opened Documents
  import opened Limits
  import opened Validation
  import opened Persistence
  import opened Protocol
  import opened Invariants

  /** The part of the invariant the row alone needs. */
  ghost predicate RowCore(measure: Measure, s: State) {
    && (s.material.row.None? ==> s.calls == map[] && s.trace.log == [])
    && (s.material.row.Some? ==> RowInv(s.material, s.trace) && LockInv(measure, s))
  }

  // ---------- One operation log ----------

  /** The row without its projection watermark. */
  function Body(m: Material): Option<Row> {
    if m.row.None? then None else Some(m.row.value.(projected := 0))
  }

  ghost predicate BootstrapWrites(s: State, site: Site, row: Row, log: seq<Batch>) {
    && s.material.row.None? && s.material.content == Plate(row.state.Value())
    && row == Row(site.epoch, Fresh(row.state.Value()), 1, 1)
    && log == s.trace.log + [Batch(row.state.Value(), {})]
  }

  ghost predicate StoreWrites(s: State, c: nat, row: Row, log: seq<Batch>) {
    && s.material.row.Some? && c in s.calls && s.calls[c].phase.Locked?
    && var before := s.material.row.value;
       var read := s.calls[c].phase.read;
    && row == before.(state := Merge(before.state, read), stored := before.stored + 1)
    && log == s.trace.log + [Batch(read.inserted - before.state.inserted, read.deleted - before.state.deleted)]
  }

  ghost predicate CompactionWrites(s: State, row: Row, log: seq<Batch>) {
    && s.material.row.Some? && log == s.trace.log
    && var before := s.material.row.value;
    && row == Row(before.epoch + 1, Fresh(before.state.Value()), before.stored + 1, before.stored + 1)
  }

  /** What one event does to the row and to the log.  A store appends exactly the operations its
      document has and the row has not; a compaction appends nothing, keeps the value and drops every
      tombstone; the first load appends the bootstrapped content; nothing else touches either. */
  ghost predicate LogStep(s: State, e: Event, s': State) {
    if Body(s'.material) == Body(s.material) then
      s'.trace.log == s.trace.log && s'.trace.commits == s.trace.commits
    else
      && s'.material.row.Some?
      && var row := s'.material.row.value;
      && s'.trace.commits == s.trace.commits + [Commit(row.epoch, row.state, |s'.trace.log|)]
      && match e
         case Load(site, _) => BootstrapWrites(s, site, row, s'.trace.log)
         case Compact(_) => CompactionWrites(s, row, s'.trace.log)
         case CommitStore(c) => StoreWrites(s, c, row, s'.trace.log)
         case _ => false
  }

  predicate WritesRow(e: Event) {
    e.Load? || e.CommitStore? || e.Compact?
  }

  lemma QuietEvents(measure: Measure, s: State, e: Event)
    requires Enabled(measure, s, e) && !WritesRow(e)
    ensures LogStep(s, e, Step(measure, s, e))
  {
    match e
    case Deliver(message) =>
      assert Body(Step(measure, s, e).material) == Body(s.material);
    case _ =>
  }

  lemma EventsWriteLog(measure: Measure, s: State, e: Event)
    requires RowCore(measure, s) && Enabled(measure, s, e)
    ensures LogStep(s, e, Step(measure, s, e))
  {
    if WritesRow(e) {
      match e
      case Load(site, i) => LoadWritesLog(s, site, i);
      case CommitStore(c) => CommitWritesLog(measure, s, c);
      case Compact(epoch) => CompactWritesLog(measure, s, epoch);
    } else {
      QuietEvents(measure, s, e);
    }
  }

  lemma LoadWritesLog(s: State, site: Site, i: nat)
    ensures LogStep(s, Load(site, i), AfterLoad(s, site, i))
  {
    if s.material.row.None? && s.material.content.Plate? {
      assert Fresh(s.material.content.value).Value() == s.material.content.value;
    }
  }

  lemma CompactWritesLog(measure: Measure, s: State, epoch: nat)
    requires RowCore(measure, s)
    ensures LogStep(s, Compact(epoch), AfterCompact(s, epoch))
  {
    if CompactRow(s.material, epoch).Compacted? {
      CompactionKeepsValueIff(s.material, epoch);
    }
  }

  lemma CommitWritesLog(measure: Measure, s: State, c: nat)
    requires RowCore(measure, s) && Enabled(measure, s, CommitStore(c))
    ensures LogStep(s, CommitStore(c), AfterCommit(s, c))
  {
    assert PreparedInv(measure, s, s.calls[c]);
    var before := s.material.row.value.state;
    var read := s.calls[c].phase.read;
    assert Unseen(before, Merge(before, read))
        == Batch(read.inserted - before.inserted, read.deleted - before.deleted);
  }

  lemma {:induction false} HistoryOnlyGrows(measure: Measure, states: seq<State>, events: seq<Event>, i: nat, j: nat)
    requires Run(measure, states, events) && i <= j < |states|
    ensures states[i].trace.log <= states[j].trace.log
    ensures states[i].trace.commits <= states[j].trace.commits
    ensures states[i].trace.receipts <= states[j].trace.receipts
    ensures forall id :: id in states[i].trace.asked ==>
              id in states[j].trace.asked && states[j].trace.asked[id] == states[i].trace.asked[id]
    decreases j
  {
    if i < j {
      HistoryOnlyGrows(measure, states, events, i, j - 1);
      assert StepAt(measure, states, events, j - 1);
      StepGrows(measure, states[j - 1], events[j - 1]);
    }
  }

  ghost predicate Grows(t: Trace, t': Trace) {
    && t.log <= t'.log && t.commits <= t'.commits && t.receipts <= t'.receipts
    && forall id :: id in t.asked ==> id in t'.asked && t'.asked[id] == t.asked[id]
  }

  lemma CommitGrows(s: State, c: nat)
    requires Holding(s, c)
    ensures Grows(s.trace, AfterCommit(s, c).trace)
  {
  }

  lemma CompactGrows(s: State, epoch: nat)
    ensures Grows(s.trace, AfterCompact(s, epoch).trace)
  {
  }

  lemma LoadGrows(s: State, site: Site, i: nat)
    ensures Grows(s.trace, AfterLoad(s, site, i).trace)
  {
  }

  lemma StepGrows(measure: Measure, s: State, e: Event)
    requires Enabled(measure, s, e)
    ensures Grows(s.trace, Step(measure, s, e).trace)
  {
    match e
    case Load(site, i) => LoadGrows(s, site, i);
    case CommitStore(c) => CommitGrows(s, c);
    case Compact(epoch) => CompactGrows(s, epoch);
    case _ =>
  }

  /** Refinement: at every point of every run the row shows the sequential replay of one log that
      only ever grows, and every version ever committed shows the replay of a prefix of it. */
  lemma RowRefinesLog(measure: Measure, states: seq<State>, events: seq<Event>, i: nat, j: nat)
    requires Run(measure, states, events) && i <= j < |states|
    ensures states[i].trace.log <= states[j].trace.log
    ensures states[j].material.row.Some? ==>
              states[j].material.row.value.state.Value() == Replay(states[j].trace.log)
    ensures states[j].material.row.None? ==> states[j].trace.log == []
    ensures forall v :: 0 <= v < |states[j].trace.commits| ==>
              && states[j].trace.commits[v].logged <= |states[j].trace.log|
              && states[j].trace.commits[v].state.Value()
              == Replay(states[j].trace.log[..states[j].trace.commits[v].logged])
    ensures i < |events| ==> LogStep(states[i], events[i], states[i + 1])
  {
    HistoryOnlyGrows(measure, states, events, i, j);
    RunKeeps(measure, states, events, j);
    var t := states[j].trace;
    forall v | 0 <= v < |t.commits| ensures LoggedInv(t, t.commits[v]) {
    }
    if i < |events| {
      RunKeeps(measure, states, events, i);
      assert StepAt(measure, states, events, i);
      EventsWriteLog(measure, states[i], events[i]);
    }
  }

  /** The history of a run, without the rest of its state. */
  lemma HistoryAt(measure: Measure, states: seq<State>, events: seq<Event>, j: nat)
    requires Run(measure, states, events) && j < |states|
    ensures HistoryInv(states[j].trace) && LimitsInv(measure, states[j].trace) && ReceiptsInv(states[j].trace)
  {
    RunKeeps(measure, states, events, j);
  }

  /** The row of any point of a run stays a version of every later point. */
  lemma RowIsVersion(measure: Measure, states: seq<State>, events: seq<Event>, i: nat, j: nat)
    requires Run(measure, states, events) && i <= j < |states| && states[i].material.row.Some?
    ensures var row := states[i].material.row.value;
      && 1 <= row.stored == |states[i].trace.commits| <= |states[j].trace.commits|
      && states[j].trace.commits[row.stored - 1].state == row.state
      && states[j].trace.commits[row.stored - 1].epoch == row.epoch
  {
    RunKeeps(measure, states, events, i);
    HistoryOnlyGrows(measure, states, events, i, j);
    assert RowInv(states[i].material, states[i].trace);
  }

  /** What any committed row ever held as a tombstone is never visible again, whatever compactions
      drop the tombstone in between. */
  lemma NothingDeletedReappears(measure: Measure, states: seq<State>, events: seq<Event>, i: nat, j: nat)
    requires Run(measure, states, events) && i <= j < |states|
    requires states[i].material.row.Some? && states[j].material.row.Some?
    ensures states[i].material.row.value.state.deleted !! states[j].material.row.value.state.Value()
  {
    RowIsVersion(measure, states, events, i, j);
    RowIsVersion(measure, states, events, j, j);
    HistoryAt(measure, states, events, j);
    var a, b := states[i].material.row.value.stored, states[j].material.row.value.stored;
    assert Follows(states[j].trace, a - 1, b - 1);
  }

  // ---------- Durability receipts ----------

  /** A receipt broadcast at version v for a request means: every operation the live document had
      when the request was made is in the row committed at v, and any row from v on still shows each
      of its insertions that neither the row at v nor a batch logged in between deletes, and none of
      its deletions. */
  lemma ReceiptsAreDurable(measure: Measure, states: seq<State>, events: seq<Event>, k: nat, j: nat,
                           site: Site, id: nat, receipt: Receipt, later: nat)
    requires Run(measure, states, events) && k < j < |states|
    requires events[k] == Request(site, id) && |PendingAt(states[k], site)| < MAX_PENDING_CHECKPOINTS
    requires receipt in states[j].trace.receipts && id in receipt.ids
    requires receipt.version <= later <= |states[j].trace.commits|
    ensures site in states[k].loaded && states[k].loaded[site] in states[k].instances
    ensures 1 <= receipt.version
    ensures var requested := states[k].instances[states[k].loaded[site]].doc;
            var stored, row := states[j].trace.commits[receipt.version - 1], states[j].trace.commits[later - 1];
      && stored.epoch == site.epoch && stored.state.Includes(requested)
      && stored.logged <= row.logged <= |states[j].trace.log|
      && requested.Value() - stored.state.deleted
         <= row.state.Value() + Deletions(states[j].trace.log[stored.logged..row.logged])
      && requested.deleted !! row.state.Value()
  {
    RequestIsAsked(measure, states, events, k, j, site, id);
    HistoryAt(measure, states, events, j);
    assert ReceiptInv(states[j].trace, receipt);
    assert Follows(states[j].trace, receipt.version - 1, later - 1);
  }

  lemma RequestIsAsked(measure: Measure, states: seq<State>, events: seq<Event>, k: nat, j: nat, site: Site, id: nat)
    requires Run(measure, states, events) && k < j < |states|
    requires events[k] == Request(site, id) && |PendingAt(states[k], site)| < MAX_PENDING_CHECKPOINTS
    ensures site in states[k].loaded && states[k].loaded[site] in states[k].instances
    ensures id in states[j].trace.asked
    ensures states[j].trace.asked[id] == Ask(site, states[k].instances[states[k].loaded[site]].doc)
  {
    assert StepAt(measure, states, events, k);
    HistoryOnlyGrows(measure, states, events, k + 1, j);
  }

  // ---------- The projection ----------

  /** The read projection is always the value of the version it claims, so when the versions agree
      compaction rebuilds from the value of the row. */
  lemma ProjectionShowsItsVersion(measure: Measure, states: seq<State>, events: seq<Event>, i: nat)
    requires Run(measure, states, events) && i < |states| && states[i].material.row.Some?
    ensures var m, t := states[i].material, states[i].trace;
            var row := m.row.value;
      && 1 <= row.projected <= row.stored == |t.commits|
      && m.content == Plate(t.commits[row.projected - 1].state.Value())
      && (row.projected == row.stored ==> m.content == Plate(row.state.Value()))
      && (forall message :: message in states[i].messages ==>
            1 <= message.version <= row.stored && message.value == t.commits[message.version - 1].state.Value())
  {
    RunKeeps(measure, states, events, i);
    forall message | message in states[i].messages
      ensures MessageInv(states[i].trace, message)
    {
    }
  }

  // ---------- The epoch fence ----------

  /** The epoch an event acts under, when it acts on the row. */
  function EpochOf(s: State, e: Event): Option<nat> {
    match e
    case Load(site, _) => Some(site.epoch)
    case LockRow(c) => if c in s.calls then Some(s.calls[c].site.epoch) else None
    case CommitStore(c) => if c in s.calls then Some(s.calls[c].site.epoch) else None
    case Compact(epoch) => Some(epoch)
    case _ => None
  }

  lemma FenceStep(measure: Measure, s: State, e: Event)
    requires s.material.row.Some? && RowCore(measure, s) && Enabled(measure, s, e)
    ensures EpochOf(s, e).Some? && EpochOf(s, e).value != s.material.row.value.epoch ==> Step(measure, s, e) == s
    ensures Step(measure, s, e).material.row.Some?
    ensures var row, row' := s.material.row.value, Step(measure, s, e).material.row.value;
      && (row'.epoch == row.epoch || (e == Compact(row.epoch) && row'.epoch == row.epoch + 1))
      && (Body(Step(measure, s, e).material) != Body(s.material) ==>
            row'.stored == row.stored + 1 && EpochOf(s, e) == Some(row.epoch))
  {
    EventsWriteLog(measure, s, e);
    match e
    case CommitStore(c) => assert PreparedInv(measure, s, s.calls[c]);
    case _ =>
  }

  /** Once the row exists, at every step of every run: an event acting under any other epoch changes
      nothing and reads nothing out; only a compaction changes the epoch, by one; every write of the
      row takes the next version. */
  lemma EpochFence(measure: Measure, states: seq<State>, events: seq<Event>, i: nat)
    requires Run(measure, states, events) && i < |events| && states[i].material.row.Some?
    ensures var row := states[i].material.row.value;
            var epoch := EpochOf(states[i], events[i]);
      && (epoch.Some? && epoch.value != row.epoch ==> states[i + 1] == states[i])
      && states[i + 1].material.row.Some?
      && var row' := states[i + 1].material.row.value;
      && (row'.epoch == row.epoch || (events[i] == Compact(row.epoch) && row'.epoch == row.epoch + 1))
      && (Body(states[i + 1].material) != Body(states[i].material) ==>
            row'.stored == row.stored + 1 && epoch == Some(row.epoch))
  {
    RunKeeps(measure, states, events, i);
    assert StepAt(measure, states, events, i);
    FenceStep(measure, states[i], events[i]);
  }

  lemma {:induction false} EpochsNeverGoBack(measure: Measure, states: seq<State>, events: seq<Event>, i: nat, j: nat)
    requires Run(measure, states, events) && i <= j < |states| && states[i].material.row.Some?
    ensures states[j].material.row.Some?
    ensures states[i].material.row.value.epoch <= states[j].material.row.value.epoch
    ensures states[i].material.row.value.stored <= states[j].material.row.value.stored
    decreases j
  {
    if i < j {
      EpochsNeverGoBack(measure, states, events, i, j - 1);
      EpochFence(measure, states, events, j - 1);
    }
  }

  /** Two compactions that both write the row run under different epochs: at most one succeeds per
      epoch, with no help from the eviction key. */
  lemma OneCompactionPerEpoch(measure: Measure, states: seq<State>, events: seq<Event>, i: nat, j: nat,
                              first: nat, second: nat)
    requires Run(measure, states, events) && i < j < |events|
    requires events[i] == Compact(first) && states[i + 1] != states[i]
    requires events[j] == Compact(second) && states[j + 1] != states[j]
    ensures first < second
    ensures states[i].material.row.Some? && states[i + 1].material.row.Some? && states[j].material.row.Some?
    ensures states[i].material.row.value.stored < states[i + 1].material.row.value.stored
         <= states[j].material.row.value.stored
  {
    assert StepAt(measure, states, events, i) && StepAt(measure, states, events, j);
    EpochsNeverGoBack(measure, states, events, i + 1, j);
  }

  // ---------- Recovery ----------

  /** An over-limit row never exceeds any earlier row in size, nodes or depth, so a row within the
      limits is never followed by one outside them. */
  lemma RecoveryIsAbsorbing(measure: Measure, states: seq<State>, events: seq<Event>, i: nat, j: nat)
    requires Run(measure, states, events) && i <= j < |states|
    requires states[i].material.row.Some? && states[j].material.row.Some?
    ensures var earlier := measure(states[i].material.row.value.state.Value());
            var later := measure(states[j].material.row.value.state.Value());
      && (!WithinLimits(later) ==> Recovers(later, Some(earlier)))
      && (WithinLimits(earlier) ==> WithinLimits(later))
  {
    RowIsVersion(measure, states, events, i, j);
    RowIsVersion(measure, states, events, j, j);
    HistoryAt(measure, states, events, j);
    var a, b := states[i].material.row.value.stored, states[j].material.row.value.stored;
    if a < b {
      assert RecoversFrom(measure, states[j].trace, a - 1, b - 1);
    }
  }
}
