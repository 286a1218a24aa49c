/** What every event of the protocol keeps. */
module Invariants {
  import opened Documents
  import opened Limits
  import opened Validation
  import opened Persistence
  import opened Protocol

  /** The row is the last commit, and the projection shows the commit it claims to show. */
  ghost predicate RowInv(m: Material, t: Trace) {
    && m.row.Some?
    && var row := m.row.value;
    && |t.commits| == row.stored
    && 1 <= row.projected <= row.stored
    && t.commits[row.stored - 1] == Commit(row.epoch, row.state, |t.log|)
    && row.state.WellFormed()
    && m.content == Plate(t.commits[row.projected - 1].state.Value())
  }

  /** The current epoch has seen no deleted id except as a tombstone of the row. */
  ghost predicate IdsInv(m: Material, t: Trace)
    requires m.row.Some?
  {
    var row := m.row.value;
    && row.epoch in t.known
    && (forall e :: e in t.known ==> e <= row.epoch && t.known[e] <= t.used)
    && row.state.inserted <= t.known[row.epoch]
    && Deletions(t.log) <= t.used
    && Deletions(t.log) * t.known[row.epoch] <= row.state.deleted
    && row.state.deleted <= Deletions(t.log)
    && Replay(t.log) == row.state.Value()
  }

  ghost predicate Sane(t: Trace, epoch: nat, doc: Doc) {
    doc.WellFormed() && epoch in t.known && doc.inserted <= t.known[epoch]
  }

  ghost predicate DocsInv(s: State) {
    && (forall i :: i in s.instances ==> Sane(s.trace, s.instances[i].site.epoch, s.instances[i].doc))
    && (forall site :: site in s.loaded ==> s.loaded[site] in s.instances && s.instances[s.loaded[site]].site == site)
    && (forall site :: site in s.failed ==> Sane(s.trace, site.epoch, s.failed[site]))
    && (forall c :: c in s.calls ==> SourceInv(s, s.calls[c]))
  }

  ghost predicate SourceInv(s: State, call: Call) {
    match call.source
    case Live(i) => i in s.instances && s.instances[i].site == call.site
    case Snapshot(doc) => Sane(s.trace, call.site.epoch, doc)
  }

  /** While a store holds the lock, what it prepared is still the right result for the row. */
  ghost predicate LockInv(measure: Measure, s: State) {
    && (forall c :: c in s.calls && s.calls[c].phase.Locked? ==> s.lock == Some(c) && PreparedInv(measure, s, s.calls[c]))
    && (s.lock.Some? ==> s.lock.value in s.calls && s.calls[s.lock.value].phase.Locked?)
  }

  ghost predicate PreparedInv(measure: Measure, s: State, call: Call)
    requires call.phase.Locked?
  {
    && Sane(s.trace, call.site.epoch, call.phase.read)
    && call.phase.prepared.Stored?
    && call.phase.prepared == StoreRow(measure, s.material, call.site.epoch, call.phase.read)
  }

  /** Request `id` was made at `site` against a document that `doc` includes. */
  ghost predicate Covers(t: Trace, site: Site, id: nat, doc: Doc) {
    id in t.asked && t.asked[id].site == site && doc.Includes(t.asked[id].doc)
  }

  ghost predicate RequestsInv(s: State) {
    && (forall site :: site in s.pending ==> PendingInv(s, site))
    && (forall c :: c in s.calls ==> ClaimInv(s, s.calls[c]))
  }

  ghost predicate PendingInv(s: State, site: Site)
    requires site in s.pending
  {
    && site in s.loaded && s.loaded[site] in s.instances
    && forall id :: id in s.pending[site] ==> Covers(s.trace, site, id, s.instances[s.loaded[site]].doc)
  }

  ghost predicate ClaimInv(s: State, call: Call) {
    && (call.source.Snapshot? ==>
          call.claimed == {} && (!call.phase.Begun? ==> call.phase.read == call.source.doc))
    && (call.source.Live? ==>
          && call.source.instance in s.instances
          && forall id :: id in call.claimed ==>
               Covers(s.trace, call.site, id, s.instances[call.source.instance].doc))
    && (!call.phase.Begun? ==> forall id :: id in call.claimed ==> Covers(s.trace, call.site, id, call.phase.read))
    && (call.phase.Committed? ==> CommittedInv(s.trace, call))
  }

  /** What a committed store wrote, however much happened since. */
  ghost predicate CommittedInv(t: Trace, call: Call)
    requires call.phase.Committed?
  {
    && 2 <= call.phase.version <= |t.commits|
    && var commit := t.commits[call.phase.version - 1];
    && commit.epoch == call.site.epoch
    && commit.state == Merge(t.commits[call.phase.version - 2].state, call.phase.read)
    && commit.state.Value() == call.phase.value
  }

  /** Every broadcast receipt is covered by the row committed at its version. */
  ghost predicate ReceiptsInv(t: Trace) {
    forall r :: r in t.receipts ==> ReceiptInv(t, r)
  }

  ghost predicate ReceiptInv(t: Trace, r: Receipt) {
    && 1 <= r.version <= |t.commits|
    && forall id :: id in r.ids ==>
         && id in t.asked
         && t.commits[r.version - 1].epoch == t.asked[id].site.epoch
         && t.commits[r.version - 1].state.Includes(t.asked[id].doc)
  }

  ghost predicate MessagesInv(s: State) {
    forall m :: m in s.messages ==> MessageInv(s.trace, m)
  }

  ghost predicate MessageInv(t: Trace, m: Message) {
    1 <= m.version <= |t.commits| && m.value == t.commits[m.version - 1].state.Value()
  }

  /** Every version shows the replay of the log up to it; epochs never go back, within one epoch
      nothing is forgotten, a value loses only what is deleted in between, and no tombstone comes
      back. */
  ghost predicate HistoryInv(t: Trace) {
    && (forall i :: 0 <= i < |t.commits| ==> LoggedInv(t, t.commits[i]))
    && forall i, j :: 0 <= i <= j < |t.commits| ==> Follows(t, i, j)
  }

  ghost predicate LoggedInv(t: Trace, commit: Commit) {
    && commit.logged <= |t.log|
    && commit.state.Value() == Replay(t.log[..commit.logged])
    && commit.state.deleted <= Deletions(t.log[..commit.logged])
  }

  ghost predicate Follows(t: Trace, i: nat, j: nat)
    requires i <= j < |t.commits|
  {
    && t.commits[i].epoch <= t.commits[j].epoch
    && (t.commits[i].epoch == t.commits[j].epoch ==> t.commits[j].state.Includes(t.commits[i].state))
    && t.commits[i].logged <= t.commits[j].logged <= |t.log|
    && t.commits[i].state.Value()
       <= t.commits[j].state.Value() + Deletions(t.log[t.commits[i].logged..t.commits[j].logged])
    && t.commits[i].state.deleted !! t.commits[j].state.Value()
  }

  /** A later over-limit value never exceeds an earlier one in any component. */
  ghost predicate LimitsInv(measure: Measure, t: Trace) {
    forall i, j :: 0 <= i < j < |t.commits| ==> RecoversFrom(measure, t, i, j)
  }

  ghost predicate RecoversFrom(measure: Measure, t: Trace, i: nat, j: nat)
    requires i <= j < |t.commits|
  {
    WithinLimits(measure(t.commits[j].state.Value()))
    || Recovers(measure(t.commits[j].state.Value()), Some(measure(t.commits[i].state.Value())))
  }

  /** What the row, the projection and the history of commits promise. */
  ghost predicate WriteInv(measure: Measure, m: Material, t: Trace) {
    RowInv(m, t) && IdsInv(m, t) && ReceiptsInv(t) && HistoryInv(t) && LimitsInv(measure, t)
  }

  /** What the live documents, the stores, the queues and the messages promise. */
  ghost predicate RoomInv(measure: Measure, s: State) {
    DocsInv(s) && LockInv(measure, s) && RequestsInv(s) && MessagesInv(s)
  }

  ghost predicate Inv(measure: Measure, s: State) {
    if s.material.row.None? then Init(s)
    else WriteInv(measure, s.material, s.trace) && RoomInv(measure, s)
  }

  // ---------- What carries over ----------

  /** Documents, ids, requests and commits only grow. */
  ghost predicate Extends(s: State, s': State) {
    && (forall i :: i in s.instances ==>
          && i in s'.instances && s'.instances[i].site == s.instances[i].site
          && s'.instances[i].doc.Includes(s.instances[i].doc))
    && (forall e :: e in s.trace.known ==> e in s'.trace.known && s.trace.known[e] <= s'.trace.known[e])
    && (forall id :: id in s.trace.asked ==> id in s'.trace.asked && s'.trace.asked[id] == s.trace.asked[id])
    && s.trace.commits <= s'.trace.commits
  }

  lemma CallCarries(s: State, s': State, call: Call)
    requires Extends(s, s') && SourceInv(s, call) && ClaimInv(s, call)
    ensures SourceInv(s', call) && ClaimInv(s', call)
  {
    if call.source.Live? {
      forall id | id in call.claimed
        ensures Covers(s'.trace, call.site, id, s'.instances[call.source.instance].doc)
      {
        assert Covers(s.trace, call.site, id, s.instances[call.source.instance].doc);
      }
    }
    if !call.phase.Begun? {
      forall id | id in call.claimed ensures Covers(s'.trace, call.site, id, call.phase.read) {
        assert Covers(s.trace, call.site, id, call.phase.read);
      }
    }
  }

  lemma PendingCarries(s: State, s': State, site: Site)
    requires Extends(s, s') && site in s.pending && PendingInv(s, site)
    requires site in s'.pending && s'.pending[site] <= s.pending[site]
    requires site in s'.loaded && s'.loaded[site] == s.loaded[site]
    ensures PendingInv(s', site)
  {
    forall id | id in s'.pending[site] ensures Covers(s'.trace, site, id, s'.instances[s'.loaded[site]].doc) {
      assert Covers(s.trace, site, id, s.instances[s.loaded[site]].doc);
    }
  }

  ghost predicate CallOk(s: State, s': State, c: nat)
    requires c in s'.calls
  {
    (c in s.calls && s'.calls[c] == s.calls[c]) || (SourceInv(s', s'.calls[c]) && ClaimInv(s', s'.calls[c]))
  }

  ghost predicate PendingOk(s: State, s': State, site: Site)
    requires site in s'.pending
  {
    || PendingInv(s', site)
    || (&& site in s.pending && s'.pending[site] <= s.pending[site]
        && site in s.loaded && site in s'.loaded && s'.loaded[site] == s.loaded[site])
  }

  /** Documents, requests and messages that are unchanged stay good. */
  lemma Carry(s: State, s': State)
    requires DocsInv(s) && RequestsInv(s) && MessagesInv(s) && Extends(s, s')
    requires forall i :: i in s'.instances ==> Sane(s'.trace, s'.instances[i].site.epoch, s'.instances[i].doc)
    requires forall site :: site in s'.loaded ==>
               s'.loaded[site] in s'.instances && s'.instances[s'.loaded[site]].site == site
    requires forall site :: site in s'.failed ==>
               (site in s.failed && s'.failed[site] == s.failed[site]) || Sane(s'.trace, site.epoch, s'.failed[site])
    requires forall c :: c in s'.calls ==> CallOk(s, s', c)
    requires forall site :: site in s'.pending ==> PendingOk(s, s', site)
    requires forall m :: m in s'.messages ==> m in s.messages || MessageInv(s'.trace, m)
    ensures DocsInv(s') && RequestsInv(s') && MessagesInv(s')
  {
    forall c | c in s'.calls ensures SourceInv(s', s'.calls[c]) && ClaimInv(s', s'.calls[c]) {
      assert CallOk(s, s', c);
      if c in s.calls && s'.calls[c] == s.calls[c] {
        CallCarries(s, s', s.calls[c]);
      }
    }
    forall site | site in s'.pending ensures PendingInv(s', site) {
      assert PendingOk(s, s', site);
      if !PendingInv(s', site) {
        PendingCarries(s, s', site);
      }
    }
    forall m | m in s'.messages ensures MessageInv(s'.trace, m) {
      assert m in s.messages ==> MessageInv(s.trace, m);
    }
  }

  /** An event that touches no call, load, queue or document and sends at most good messages. */
  lemma QuietCarry(s: State, s': State)
    requires DocsInv(s) && RequestsInv(s) && MessagesInv(s) && Extends(s, s')
    requires s'.instances == s.instances && s'.loaded == s.loaded && s'.calls == s.calls
    requires s'.pending == s.pending && s'.failed == s.failed
    requires forall m :: m in s'.messages ==> m in s.messages || MessageInv(s'.trace, m)
    ensures DocsInv(s') && RequestsInv(s') && MessagesInv(s')
  {
    forall site | site in s'.pending ensures PendingOk(s, s', site) {
      assert PendingInv(s, site);
    }
    Carry(s, s');
  }

  lemma NoLockHolds(measure: Measure, s: State, s': State)
    requires LockInv(measure, s) && s.lock.None? && s'.lock.None? && s'.calls == s.calls
    ensures LockInv(measure, s')
  {
  }

  /** A held lock keeps what was prepared under it, as long as the material is not written. */
  lemma LockCarries(measure: Measure, s: State, s': State)
    requires LockInv(measure, s) && Extends(s, s') && s'.material == s.material
    requires forall c :: c in s'.calls && s'.calls[c].phase.Locked? ==>
               c in s.calls && s'.calls[c] == s.calls[c] && s'.lock == s.lock
    requires s'.lock.Some? ==> s'.lock == s.lock && s'.lock.value in s'.calls
    requires s'.lock.Some? && s'.lock.value in s.calls ==> s'.calls[s'.lock.value] == s.calls[s'.lock.value]
    ensures LockInv(measure, s')
  {
    forall c | c in s'.calls && s'.calls[c].phase.Locked? ensures PreparedInv(measure, s', s'.calls[c]) {
      assert PreparedInv(measure, s, s.calls[c]);
    }
  }

  /** Receipts stay covered while requests and commits are only added. */
  lemma ReceiptsCarry(s: State, s': State)
    requires ReceiptsInv(s.trace) && s'.trace.receipts == s.trace.receipts && Extends(s, s')
    ensures ReceiptsInv(s'.trace)
  {
    forall r | r in s'.trace.receipts ensures ReceiptInv(s'.trace, r) {
      assert ReceiptInv(s.trace, r);
    }
  }

  lemma HistoryCarries(measure: Measure, t: Trace, t': Trace)
    requires HistoryInv(t) && LimitsInv(measure, t) && t'.commits == t.commits && t'.log == t.log
    ensures HistoryInv(t') && LimitsInv(measure, t')
  {
    forall i | 0 <= i < |t'.commits| ensures LoggedInv(t', t'.commits[i]) {
      assert LoggedInv(t, t.commits[i]);
    }
    forall i, j | 0 <= i <= j < |t'.commits| ensures Follows(t', i, j) {
      assert Follows(t, i, j);
    }
    forall i, j | 0 <= i < j < |t'.commits| ensures RecoversFrom(measure, t', i, j) {
      assert RecoversFrom(measure, t, i, j);
    }
  }

  // ---------- Events that do not write the row ----------

  /** The first load of a material: version 1 is the bootstrapped projection. */
  lemma BootstrapKeeps(measure: Measure, s: State, site: Site, i: nat)
    requires Init(s) && s.material.content.Plate? && Enabled(measure, s, Load(site, i))
    ensures Inv(measure, AfterLoad(s, site, i))
  {
    var value := s.material.content.value;
    var s' := AfterLoad(s, site, i);
    assert Fresh(value).Value() == value;
    ReplayAppend([], Batch(value, {}));
    assert [] + [Batch(value, {})] == s'.trace.log;
    assert s'.trace.commits == [Commit(site.epoch, Fresh(value), 1)] && s'.trace.log[..1] == s'.trace.log;
    assert s'.trace.log[1..1] == [];
  }

  /** Recording more requests leaves everything written as it was. */
  lemma WriteCarries(measure: Measure, m: Material, t: Trace, t': Trace)
    requires WriteInv(measure, m, t)
    requires t'.commits == t.commits && t'.log == t.log && t'.receipts == t.receipts
    requires t'.known == t.known && t'.used == t.used
    requires forall id :: id in t.asked ==> id in t'.asked && t'.asked[id] == t.asked[id]
    ensures WriteInv(measure, m, t')
  {
    HistoryCarries(measure, t, t');
    forall r | r in t'.receipts ensures ReceiptInv(t', r) {
      assert ReceiptInv(t, r);
    }
  }

  lemma ReloadExtends(s: State, s': State, site: Site, i: nat, doc: Doc)
    requires i !in s.instances && s' == s.(instances := s.instances[i := Instance(site, doc)], loaded := s'.loaded)
    ensures Extends(s, s')
  {
  }

  lemma ReloadRooms(measure: Measure, s: State, s': State, site: Site, i: nat, doc: Doc)
    requires RoomInv(measure, s) && Sane(s.trace, site.epoch, doc)
    requires site !in s.loaded && i !in s.instances
    requires s' == s.(instances := s.instances[i := Instance(site, doc)], loaded := s.loaded[site := i])
    ensures RoomInv(measure, s')
  {
    ReloadExtends(s, s', site, i, doc);
    forall other | other in s'.pending ensures PendingOk(s, s', other) {
      assert PendingInv(s, other);
    }
    Carry(s, s');
    LockCarries(measure, s, s');
  }

  lemma ReloadKeeps(measure: Measure, s: State, site: Site, i: nat)
    requires s.material.row.Some? && Inv(measure, s) && Enabled(measure, s, Load(site, i))
    ensures Inv(measure, AfterLoad(s, site, i))
  {
    var s' := AfterLoad(s, site, i);
    if s' != s {
      ReloadRooms(measure, s, s', site, i, s.material.row.value.state);
    }
  }

  lemma EditWrites(measure: Measure, s: State, site: Site, update: Doc)
    requires s.material.row.Some? && WriteInv(measure, s.material, s.trace)
    requires site in s.loaded && s.loaded[site] in s.instances && site.epoch in s.trace.known
    requires update.inserted * s.trace.used <= s.trace.known[site.epoch]
    ensures WriteInv(measure, s.material, AfterEdit(s, site, update).trace)
  {
    var t' := AfterEdit(s, site, update).trace;
    var row := s.material.row.value;
    forall x | x in Deletions(s.trace.log) && x in t'.known[row.epoch] ensures x in row.state.deleted {
      assert x in s.trace.used;
    }
    HistoryCarries(measure, s.trace, t');
    forall r | r in t'.receipts ensures ReceiptInv(t', r) {
      assert ReceiptInv(s.trace, r);
    }
  }

  lemma EditExtends(s: State, site: Site, update: Doc)
    requires site in s.loaded && s.loaded[site] in s.instances && site.epoch in s.trace.known
    ensures Extends(s, AfterEdit(s, site, update))
  {
  }

  lemma EditRooms(measure: Measure, s: State, site: Site, update: Doc)
    requires RoomInv(measure, s)
    requires site in s.loaded && s.loaded[site] in s.instances && site.epoch in s.trace.known
    requires Merge(s.instances[s.loaded[site]].doc, update).WellFormed()
    ensures RoomInv(measure, AfterEdit(s, site, update))
  {
    var s' := AfterEdit(s, site, update);
    EditExtends(s, site, update);
    forall other | other in s'.pending ensures PendingOk(s, s', other) {
      assert PendingInv(s, other);
    }
    Carry(s, s');
    LockCarries(measure, s, s');
  }

  lemma EditKeeps(measure: Measure, s: State, site: Site, update: Doc)
    requires Inv(measure, s) && Enabled(measure, s, Edit(site, update))
    ensures Inv(measure, AfterEdit(s, site, update))
  {
    EditWrites(measure, s, site, update);
    EditRooms(measure, s, site, update);
  }

  lemma RequestExtends(s: State, site: Site, id: nat)
    requires site in s.loaded && s.loaded[site] in s.instances && id !in s.trace.asked
    ensures Extends(s, AfterRequest(s, site, id))
  {
  }

  lemma RequestPending(s: State, site: Site, id: nat, other: Site)
    requires site in s.loaded && s.loaded[site] in s.instances && id !in s.trace.asked
    requires RequestsInv(s) && other in AfterRequest(s, site, id).pending
    ensures PendingOk(s, AfterRequest(s, site, id), other)
  {
    if other in s.pending {
      assert PendingInv(s, other);
    }
    if other == site && |PendingAt(s, site)| < MAX_PENDING_CHECKPOINTS {
      RequestAtSite(s, site, id);
    }
  }

  lemma RequestRooms(measure: Measure, s: State, site: Site, id: nat)
    requires RoomInv(measure, s)
    requires site in s.loaded && s.loaded[site] in s.instances && id !in s.trace.asked
    ensures RoomInv(measure, AfterRequest(s, site, id))
  {
    var s' := AfterRequest(s, site, id);
    if s' != s {
      RequestExtends(s, site, id);
      forall other | other in s'.pending ensures PendingOk(s, s', other) {
        RequestPending(s, site, id, other);
      }
      Carry(s, s');
      LockCarries(measure, s, s');
    }
  }

  lemma RequestWrites(measure: Measure, s: State, site: Site, id: nat)
    requires s.material.row.Some? && WriteInv(measure, s.material, s.trace)
    requires site in s.loaded && s.loaded[site] in s.instances && id !in s.trace.asked
    ensures AfterRequest(s, site, id).material == s.material
    ensures WriteInv(measure, s.material, AfterRequest(s, site, id).trace)
  {
    WriteCarries(measure, s.material, s.trace, AfterRequest(s, site, id).trace);
  }

  lemma RequestKeeps(measure: Measure, s: State, site: Site, id: nat)
    requires Inv(measure, s) && Enabled(measure, s, Request(site, id))
    ensures Inv(measure, AfterRequest(s, site, id))
  {
    RequestWrites(measure, s, site, id);
    RequestRooms(measure, s, site, id);
  }

  lemma RequestAtSite(s: State, site: Site, id: nat)
    requires site in s.loaded && s.loaded[site] in s.instances && id !in s.trace.asked
    requires site in s.pending ==> PendingInv(s, site)
    requires |PendingAt(s, site)| < MAX_PENDING_CHECKPOINTS
    ensures PendingInv(AfterRequest(s, site, id), site)
  {
    var s' := AfterRequest(s, site, id);
    forall other | other in s'.pending[site] ensures Covers(s'.trace, site, other, s'.instances[s'.loaded[site]].doc) {
      assert other != id ==> Covers(s.trace, site, other, s.instances[s.loaded[site]].doc);
    }
  }

  /** A new call, not yet holding the row. */
  lemma BeginRooms(measure: Measure, s: State, c: nat, call: Call)
    requires RoomInv(measure, s) && c !in s.calls && call.phase.Begun?
    requires SourceInv(s, call) && ClaimInv(s, call)
    ensures RoomInv(measure, s.(calls := s.calls[c := call]))
  {
    var s' := s.(calls := s.calls[c := call]);
    forall site | site in s'.pending ensures PendingOk(s, s', site) {
      assert PendingInv(s, site);
    }
    assert SourceInv(s', call) && ClaimInv(s', call);
    Carry(s, s');
    LockCarries(measure, s, s');
  }

  lemma BeginStoreKeeps(measure: Measure, s: State, site: Site, c: nat)
    requires Inv(measure, s) && Enabled(measure, s, BeginStore(site, c))
    ensures Inv(measure, Step(measure, s, BeginStore(site, c)))
  {
    if site in s.pending {
      assert PendingInv(s, site);
    }
    BeginRooms(measure, s, c, Call(site, Live(s.loaded[site]), PendingAt(s, site), Begun));
  }

  lemma BeginRetryKeeps(measure: Measure, s: State, site: Site, c: nat)
    requires Inv(measure, s) && Enabled(measure, s, BeginRetry(site, c))
    ensures Inv(measure, Step(measure, s, BeginRetry(site, c)))
  {
    BeginRooms(measure, s, c, Call(site, Snapshot(s.failed[site]), {}, Begun));
  }

  lemma LockRowDocs(s: State, s': State, c: nat, call: Call)
    requires DocsInv(s) && RequestsInv(s) && MessagesInv(s) && c in s.calls
    requires s' == s.(lock := Some(c), calls := s.calls[c := call])
    requires SourceInv(s, call) && ClaimInv(s, call)
    ensures DocsInv(s') && RequestsInv(s') && MessagesInv(s')
  {
    assert SourceInv(s', call) && ClaimInv(s', call);
    forall site | site in s'.pending ensures PendingOk(s, s', site) {
      assert PendingInv(s, site);
    }
    Carry(s, s');
  }

  lemma LockTaken(measure: Measure, s: State, s': State, c: nat, call: Call)
    requires LockInv(measure, s) && s.lock.None? && call.phase.Locked? && PreparedInv(measure, s, call)
    requires s' == s.(lock := Some(c), calls := s.calls[c := call])
    ensures LockInv(measure, s')
  {
    assert PreparedInv(measure, s', call);
  }

  lemma LockRowKeeps(measure: Measure, s: State, c: nat)
    requires Inv(measure, s) && Enabled(measure, s, LockRow(c))
    ensures Inv(measure, Step(measure, s, LockRow(c)))
  {
    var old', doc := s.calls[c], SourceDoc(s, s.calls[c].source);
    var call := old'.(phase := Locked(doc, StoreRow(measure, s.material, old'.site.epoch, doc)));
    var s' := s.(lock := Some(c), calls := s.calls[c := call]);
    assert SourceInv(s, old') && ClaimInv(s, old');
    LockRowDocs(s, s', c, call);
    LockTaken(measure, s, s', c, call);
  }

  lemma UnloadRooms(measure: Measure, s: State, site: Site)
    requires RoomInv(measure, s)
    ensures RoomInv(measure, s.(loaded := s.loaded - {site}, pending := s.pending - {site}))
  {
    var s' := s.(loaded := s.loaded - {site}, pending := s.pending - {site});
    forall other | other in s'.pending ensures PendingOk(s, s', other) {
      assert PendingInv(s, other);
    }
    Carry(s, s');
    LockCarries(measure, s, s');
  }

  lemma UnloadKeeps(measure: Measure, s: State, site: Site)
    requires Inv(measure, s) && Enabled(measure, s, Unload(site))
    ensures Inv(measure, Step(measure, s, Unload(site)))
  {
    UnloadRooms(measure, s, site);
  }

  lemma FailDocs(s: State, c: nat, queue: bool)
    requires DocsInv(s) && RequestsInv(s) && MessagesInv(s) && c in s.calls
    requires s.calls[c].source.Live? ==> s.calls[c].source.instance in s.instances
    ensures var s' := AfterFailure(s, c, queue);
      DocsInv(s') && RequestsInv(s') && MessagesInv(s')
  {
    var s' := AfterFailure(s, c, queue);
    assert SourceInv(s, s.calls[c]);
    forall other | other in s'.pending ensures PendingOk(s, s', other) {
      assert PendingInv(s, other);
    }
    Carry(s, s');
  }

  lemma FailRooms(measure: Measure, s: State, c: nat, queue: bool)
    requires RoomInv(measure, s) && c in s.calls
    requires s.calls[c].source.Live? ==> s.calls[c].source.instance in s.instances
    ensures RoomInv(measure, AfterFailure(s, c, queue))
  {
    FailDocs(s, c, queue);
    LockCarries(measure, s, AfterFailure(s, c, queue));
  }

  lemma FailKeeps(measure: Measure, s: State, c: nat, queue: bool)
    requires Inv(measure, s) && Enabled(measure, s, FailStore(c, queue))
    ensures Inv(measure, AfterFailure(s, c, queue))
  {
    FailRooms(measure, s, c, queue);
  }

  lemma QueueRooms(measure: Measure, s: State, i: nat)
    requires RoomInv(measure, s) && i in s.instances
    ensures RoomInv(measure, s.(failed := s.failed[s.instances[i].site := s.instances[i].doc]))
  {
    var s' := s.(failed := s.failed[s.instances[i].site := s.instances[i].doc]);
    forall other | other in s'.pending ensures PendingOk(s, s', other) {
      assert PendingInv(s, other);
    }
    Carry(s, s');
    LockCarries(measure, s, s');
  }

  lemma QueueKeeps(measure: Measure, s: State, i: nat)
    requires Inv(measure, s) && Enabled(measure, s, AwaitFails(i))
    ensures Inv(measure, Step(measure, s, AwaitFails(i)))
  {
    QueueRooms(measure, s, i);
  }

  lemma DropRooms(measure: Measure, s: State, site: Site)
    requires RoomInv(measure, s)
    ensures RoomInv(measure, s.(failed := s.failed - {site}))
  {
    var s' := s.(failed := s.failed - {site});
    forall other | other in s'.pending ensures PendingOk(s, s', other) {
      assert PendingInv(s, other);
    }
    Carry(s, s');
    LockCarries(measure, s, s');
  }

  lemma DropKeeps(measure: Measure, s: State, site: Site)
    requires Inv(measure, s)
    ensures Inv(measure, s.(failed := s.failed - {site}))
  {
    if s.material.row.Some? {
      DropRooms(measure, s, site);
    }
  }

  lemma ReadPendingKeeps(measure: Measure, s: State)
    requires Inv(measure, s)
    ensures Inv(measure, AfterReadPending(s))
  {
    var s' := AfterReadPending(s);
    if s' != s {
      QuietCarry(s, s');
      LockCarries(measure, s, s');
    }
  }

  // ---------- Events that write the row ----------

  /** A new row state that loses nothing but what its batch deletes, in an epoch no earlier than the
      last. */
  lemma HistoryGrows(m: Material, t: Trace, t': Trace, commit: Commit)
    requires HistoryInv(t) && t.commits != [] && t'.commits == t.commits + [commit] && t.log <= t'.log
    requires m.row.Some? && IdsInv(m, t') && commit == Commit(m.row.value.epoch, m.row.value.state, |t'.log|)
    requires var last := t.commits[|t.commits| - 1];
      && last.epoch <= commit.epoch && last.logged == |t.log|
      && (last.epoch == commit.epoch ==> commit.state.Includes(last.state))
      && last.state.Value() <= commit.state.Value() + Deletions(t'.log[|t.log|..])
    ensures HistoryInv(t')
  {
    var n := |t.commits|;
    assert t'.log[..|t'.log|] == t'.log;
    forall i | 0 <= i <= n ensures LoggedInv(t', t'.commits[i]) {
      if i < n {
        assert LoggedInv(t, t.commits[i]);
        assert t'.log[..t.commits[i].logged] == t.log[..t.commits[i].logged];
      }
    }
    forall i, j | 0 <= i <= j < |t'.commits| ensures Follows(t', i, j) {
      if j < n {
        assert Follows(t, i, j);
        assert t'.log[t.commits[i].logged..t.commits[j].logged] == t.log[t.commits[i].logged..t.commits[j].logged];
      } else if i < n {
        FollowsLast(t, t', commit, i);
      }
    }
  }

  lemma FollowsLast(t: Trace, t': Trace, commit: Commit, i: nat)
    requires i < |t.commits| && t'.commits == t.commits + [commit] && t.log <= t'.log
    requires Follows(t, i, |t.commits| - 1) && LoggedInv(t, t.commits[i])
    requires Deletions(t'.log) !! commit.state.Value() && commit.logged == |t'.log|
    requires var last := t.commits[|t.commits| - 1];
      && last.epoch <= commit.epoch && last.logged == |t.log|
      && (last.epoch == commit.epoch ==> commit.state.Includes(last.state))
      && last.state.Value() <= commit.state.Value() + Deletions(t'.log[|t.log|..])
    ensures Follows(t', i, |t.commits|)
  {
    var a, n := t.commits[i].logged, |t.log|;
    assert t'.log[a..n] == t.log[a..n] && t'.log[..a] == t.log[..a];
    assert t'.log[n..] == t'.log[n..|t'.log|];
    DeletionsSplit(t'.log, a, n, |t'.log|);
    DeletionsGrow(t'.log[..a], t'.log);
  }

  lemma LimitsGrow(measure: Measure, t: Trace, t': Trace, commit: Commit)
    requires LimitsInv(measure, t) && t.commits != [] && t'.commits == t.commits + [commit]
    requires Acceptable(measure(commit.state.Value()),
                        Some(measure(t.commits[|t.commits| - 1].state.Value())))
    ensures LimitsInv(measure, t')
  {
    var n := |t.commits|;
    forall i, j | 0 <= i < j < |t'.commits| ensures RecoversFrom(measure, t', i, j) {
      if j < n {
        assert RecoversFrom(measure, t, i, j);
      } else if i < n - 1 {
        assert RecoversFrom(measure, t, i, n - 1);
      }
    }
  }

  lemma CommitIds(measure: Measure, m: Material, t: Trace, t': Trace, epoch: nat, read: Doc)
    requires m.row.Some? && IdsInv(m, t) && m.row.value.state.WellFormed()
    requires Sane(t, epoch, read) && StoreRow(measure, m, epoch, read).Stored?
    requires var row := StoreRow(measure, m, epoch, read).row;
      t'.log == t.log + [Unseen(m.row.value.state, row.state)] && t'.known == t.known && t'.used == t.used
    ensures var row := StoreRow(measure, m, epoch, read).row;
      && row.epoch == epoch == m.row.value.epoch && row.state == Merge(m.row.value.state, read)
      && row.state.WellFormed()
      && IdsInv(m.(row := Some(row)), t')
      && m.row.value.state.Value() <= row.state.Value() + Unseen(m.row.value.state, row.state).deletes
      && Acceptable(measure(row.state.Value()), Some(measure(m.row.value.state.Value())))
  {
    var before := m.row.value.state;
    MergeReplaysUnseen(before, read);
    ReplayAppend(t.log, Unseen(before, Merge(before, read)));
  }

  /** The projection keeps showing the commit it showed. */
  lemma CommitRow(m: Material, t: Trace, t': Trace, row: Row)
    requires RowInv(m, t) && row.state.WellFormed()
    requires row == m.row.value.(state := row.state, stored := m.row.value.stored + 1)
    requires t'.commits == t.commits + [Commit(row.epoch, row.state, |t'.log|)]
    ensures RowInv(m.(row := Some(row)), t')
  {
  }

  ghost predicate Holding(s: State, c: nat) {
    c in s.calls && s.calls[c].phase.Locked? && s.calls[c].phase.prepared.Stored?
  }

  lemma CommitExtends(s: State, c: nat)
    requires Holding(s, c)
    ensures Extends(s, AfterCommit(s, c))
  {
  }

  lemma CommitUnlocks(measure: Measure, s: State, c: nat)
    requires LockInv(measure, s) && Holding(s, c)
    ensures LockInv(measure, AfterCommit(s, c))
  {
  }

  lemma OneBatch(log: seq<Batch>, batch: Batch)
    ensures Deletions((log + [batch])[|log|..]) == batch.deletes
  {
    ReplayAppend([], batch);
    assert (log + [batch])[|log|..] == [] + [batch];
  }

  lemma CommitHistory(measure: Measure, s: State, s': State, c: nat)
    requires s.material.row.Some? && RowInv(s.material, s.trace)
    requires HistoryInv(s.trace) && LimitsInv(measure, s.trace) && Holding(s, c) && s' == AfterCommit(s, c)
    requires var before, row := s.material.row.value, s.calls[c].phase.prepared.row;
      && row.epoch == before.epoch && row.state.Includes(before.state)
      && before.state.Value() <= row.state.Value() + Unseen(before.state, row.state).deletes
      && Acceptable(measure(row.state.Value()), Some(measure(before.state.Value())))
    requires IdsInv(s'.material, s'.trace)
    ensures HistoryInv(s'.trace) && LimitsInv(measure, s'.trace)
  {
    var row := s.calls[c].phase.prepared.row;
    var commit := Commit(row.epoch, row.state, |s'.trace.log|);
    OneBatch(s.trace.log, Unseen(s.material.row.value.state, row.state));
    HistoryGrows(s'.material, s.trace, s'.trace, commit);
    LimitsGrow(measure, s.trace, s'.trace, commit);
  }

  lemma CommitWrites(measure: Measure, s: State, s': State, c: nat)
    requires s.material.row.Some? && RowInv(s.material, s.trace) && IdsInv(s.material, s.trace)
    requires HistoryInv(s.trace) && LimitsInv(measure, s.trace)
    requires Holding(s, c) && PreparedInv(measure, s, s.calls[c])
    requires s' == AfterCommit(s, c)
    ensures s'.material.row.Some? && RowInv(s'.material, s'.trace) && IdsInv(s'.material, s'.trace)
    ensures HistoryInv(s'.trace) && LimitsInv(measure, s'.trace)
  {
    var call := s.calls[c];
    CommitIds(measure, s.material, s.trace, s'.trace, call.site.epoch, call.phase.read);
    CommitRow(s.material, s.trace, s'.trace, call.phase.prepared.row);
    CommitHistory(measure, s, s', c);
  }

  /** The committed call knows what it wrote. */
  lemma CommitRecorded(measure: Measure, s: State, c: nat)
    requires s.material.row.Some? && RowInv(s.material, s.trace) && Holding(s, c)
    requires PreparedInv(measure, s, s.calls[c]) && SourceInv(s, s.calls[c]) && ClaimInv(s, s.calls[c])
    ensures var s' := AfterCommit(s, c);
      ClaimInv(s', s'.calls[c])
  {
    var s', call := AfterCommit(s, c), s.calls[c];
    CommitExtends(s, c);
    CallCarries(s, s', call.(phase := Begun));
    forall id | id in call.claimed ensures Covers(s'.trace, call.site, id, call.phase.read) {
      assert Covers(s.trace, call.site, id, call.phase.read);
    }
  }

  lemma CommitDocs(measure: Measure, s: State, c: nat)
    requires s.material.row.Some? && RowInv(s.material, s.trace)
    requires DocsInv(s) && RequestsInv(s) && MessagesInv(s) && Holding(s, c)
    requires PreparedInv(measure, s, s.calls[c])
    ensures var s' := AfterCommit(s, c);
      DocsInv(s') && RequestsInv(s') && MessagesInv(s')
  {
    var s' := AfterCommit(s, c);
    assert SourceInv(s, s.calls[c]) && ClaimInv(s, s.calls[c]);
    CommitExtends(s, c);
    CommitRecorded(measure, s, c);
    forall site | site in s'.pending ensures PendingOk(s, s', site) {
      assert PendingInv(s, site);
    }
    Carry(s, s');
  }

  /** A commit prepared under the lock, whatever came between its read and its COMMIT. */
  lemma CommitStoreKeeps(measure: Measure, s: State, c: nat)
    requires Inv(measure, s) && Enabled(measure, s, CommitStore(c))
    ensures s.material.row.Some? && Inv(measure, AfterCommit(s, c))
  {
    var s' := AfterCommit(s, c);
    assert PreparedInv(measure, s, s.calls[c]);
    CommitWrites(measure, s, s', c);
    CommitExtends(s, c);
    ReceiptsCarry(s, s');
    CommitDocs(measure, s, c);
    CommitUnlocks(measure, s, c);
  }

  /** Ids claimed before the store read the document are covered by what it committed, whatever came
      between COMMIT and the broadcast. */
  lemma ReceiptCovered(s: State, c: nat)
    requires c in s.calls && s.calls[c].phase.Committed? && ClaimInv(s, s.calls[c])
    ensures var call := s.calls[c];
      && ReceiptInv(s.trace, Receipt(call.claimed, call.phase.version))
      && MessageInv(s.trace, Message(call.phase.version, call.phase.value))
  {
    var call := s.calls[c];
    forall id | id in call.claimed ensures Covers(s.trace, call.site, id, call.phase.read) {
    }
  }

  lemma SettleExtends(s: State, c: nat)
    requires c in s.calls && s.calls[c].phase.Committed?
    ensures Extends(s, AfterSettle(s, c))
  {
  }

  lemma SettlePending(s: State, c: nat, site: Site)
    requires RequestsInv(s) && c in s.calls && s.calls[c].phase.Committed? && site in AfterSettle(s, c).pending
    ensures PendingOk(s, AfterSettle(s, c), site)
  {
    assert site in s.pending && PendingInv(s, site);
  }

  lemma SettleDocs(s: State, c: nat)
    requires DocsInv(s) && RequestsInv(s) && MessagesInv(s)
    requires c in s.calls && s.calls[c].phase.Committed?
    ensures var s' := AfterSettle(s, c);
      DocsInv(s') && RequestsInv(s') && MessagesInv(s')
  {
    var s' := AfterSettle(s, c);
    ReceiptCovered(s, c);
    SettleExtends(s, c);
    forall site | site in s'.pending ensures PendingOk(s, s', site) {
      SettlePending(s, c, site);
    }
    Carry(s, s');
  }

  lemma SettleWrites(measure: Measure, s: State, c: nat)
    requires s.material.row.Some? && WriteInv(measure, s.material, s.trace)
    requires c in s.calls && s.calls[c].phase.Committed? && ClaimInv(s, s.calls[c])
    ensures WriteInv(measure, s.material, AfterSettle(s, c).trace)
  {
    var t' := AfterSettle(s, c).trace;
    ReceiptCovered(s, c);
    HistoryCarries(measure, s.trace, t');
    forall r | r in t'.receipts ensures ReceiptInv(t', r) {
      assert r in s.trace.receipts ==> ReceiptInv(s.trace, r);
    }
  }

  lemma SettleRooms(measure: Measure, s: State, c: nat)
    requires RoomInv(measure, s) && c in s.calls && s.calls[c].phase.Committed?
    ensures RoomInv(measure, AfterSettle(s, c))
  {
    SettleDocs(s, c);
    SettleLocks(measure, s, AfterSettle(s, c), c);
  }

  lemma SettleLocks(measure: Measure, s: State, s': State, c: nat)
    requires LockInv(measure, s) && c in s.calls && s.calls[c].phase.Committed?
    requires s'.calls == s.calls - {c} && s'.lock == s.lock && s'.material == s.material
    requires s'.trace.known == s.trace.known
    ensures LockInv(measure, s')
  {
    forall c' | c' in s'.calls && s'.calls[c'].phase.Locked? ensures PreparedInv(measure, s', s'.calls[c']) {
      assert PreparedInv(measure, s, s.calls[c']);
    }
  }

  lemma SettleKeeps(measure: Measure, s: State, c: nat)
    requires Inv(measure, s) && Enabled(measure, s, SettleStore(c))
    ensures Inv(measure, AfterSettle(s, c))
  {
    assert ClaimInv(s, s.calls[c]);
    SettleWrites(measure, s, c);
    SettleRooms(measure, s, c);
  }

  /** A projection that is let through shows the commit its message was read from. */
  lemma ProjectKeeps(m: Material, t: Trace, message: Message)
    requires RowInv(m, t) && MessageInv(t, message) && ProjectRow(m, message.version, message.value).Advanced?
    ensures var m' := ProjectRow(m, message.version, message.value).material;
      && RowInv(m', t) && m'.row == Some(m.row.value.(projected := message.version))
  {
  }

  lemma ProjectedIds(m: Material, t: Trace, m': Material)
    requires m.row.Some? && IdsInv(m, t)
    requires m'.row.Some? && m'.row.value.epoch == m.row.value.epoch && m'.row.value.state == m.row.value.state
    ensures IdsInv(m', t)
  {
  }

  lemma DeliverKeeps(measure: Measure, s: State, message: Message)
    requires Inv(measure, s) && Enabled(measure, s, Deliver(message))
    ensures var p := ProjectRow(s.material, message.version, message.value);
      p.Advanced? ==> Inv(measure, s.(material := p.material))
  {
    var p := ProjectRow(s.material, message.version, message.value);
    assert MessageInv(s.trace, message);
    if p.Advanced? {
      ProjectKeeps(s.material, s.trace, message);
      ProjectedIds(s.material, s.trace, p.material);
      DeliverRooms(measure, s, s.(material := p.material));
    }
  }

  lemma DeliverRooms(measure: Measure, s: State, s': State)
    requires RoomInv(measure, s) && s.lock.None? && s' == s.(material := s'.material)
    ensures RoomInv(measure, s')
  {
    QuietCarry(s, s');
    NoLockHolds(measure, s, s');
  }

  lemma CompactKeeps(measure: Measure, s: State, epoch: nat)
    requires Inv(measure, s) && Enabled(measure, s, Compact(epoch))
    ensures Inv(measure, AfterCompact(s, epoch))
  {
    var s' := AfterCompact(s, epoch);
    if s' != s {
      CompactWrites(measure, s, epoch);
      assert Extends(s, s');
      QuietCarry(s, s');
      NoLockHolds(measure, s, s');
      ReceiptsCarry(s, s');
    }
  }

  lemma CompactWrites(measure: Measure, s: State, epoch: nat)
    requires WriteInv(measure, s.material, s.trace)
    requires CompactRow(s.material, epoch).Compacted?
    ensures var s' := AfterCompact(s, epoch);
      && s'.material.row.Some? && RowInv(s'.material, s'.trace) && IdsInv(s'.material, s'.trace)
      && HistoryInv(s'.trace) && LimitsInv(measure, s'.trace)
      && s'.material.row.value.epoch !in s.trace.known
  {
    var s' := AfterCompact(s, epoch);
    var row := s'.material.row.value;
    var value := s.material.row.value.state.Value();
    assert row.state == Fresh(value) && row.state.Value() == value;
    assert s'.trace.log[|s.trace.log|..] == [];
    HistoryGrows(s'.material, s.trace, s'.trace, Commit(row.epoch, row.state, |s.trace.log|));
    LimitsGrow(measure, s.trace, s'.trace, Commit(row.epoch, row.state, |s.trace.log|));
  }

  // ---------- Every event, every run ----------

  predicate Writes(e: Event) {
    e.LockRow? || e.CommitStore? || e.SettleStore? || e.FailStore? || e.Deliver? || e.Compact?
  }

  lemma WriteStepKeeps(measure: Measure, s: State, e: Event)
    requires Inv(measure, s) && Enabled(measure, s, e) && Writes(e)
    ensures Inv(measure, Step(measure, s, e))
  {
    match e
    case LockRow(c) => LockRowKeeps(measure, s, c);
    case CommitStore(c) => CommitStoreKeeps(measure, s, c);
    case SettleStore(c) => SettleKeeps(measure, s, c);
    case FailStore(c, queue) => FailKeeps(measure, s, c, queue);
    case Deliver(message) => DeliverKeeps(measure, s, message);
    case Compact(epoch) => CompactKeeps(measure, s, epoch);
  }

  lemma RoomStepKeeps(measure: Measure, s: State, e: Event)
    requires Inv(measure, s) && Enabled(measure, s, e) && !Writes(e)
    ensures Inv(measure, Step(measure, s, e))
  {
    match e
    case SqlWrite(_) =>
    case Load(site, i) =>
      if s.material.row.Some? {
        ReloadKeeps(measure, s, site, i);
      } else if s.material.content.Plate? {
        BootstrapKeeps(measure, s, site, i);
      }
    case Unload(site) => UnloadKeeps(measure, s, site);
    case Edit(site, update) => EditKeeps(measure, s, site, update);
    case Request(site, id) => RequestKeeps(measure, s, site, id);
    case BeginStore(site, c) => BeginStoreKeeps(measure, s, site, c);
    case BeginRetry(site, c) => BeginRetryKeeps(measure, s, site, c);
    case AwaitFails(i) => QueueKeeps(measure, s, i);
    case DropFailed(site) => DropKeeps(measure, s, site);
    case ReadPending => ReadPendingKeeps(measure, s);
  }

  lemma StepKeeps(measure: Measure, s: State, e: Event)
    requires Inv(measure, s) && Enabled(measure, s, e)
    ensures Inv(measure, Step(measure, s, e))
  {
    if Writes(e) {
      WriteStepKeeps(measure, s, e);
    } else {
      RoomStepKeeps(measure, s, e);
    }
  }

  lemma {:induction false} RunKeeps(measure: Measure, states: seq<State>, events: seq<Event>, i: nat)
    requires Run(measure, states, events) && i < |states|
    ensures Inv(measure, states[i])
  {
    if i > 0 {
      RunKeeps(measure, states, events, i - 1);
      assert StepAt(measure, states, events, i - 1);
      StepKeeps(measure, states[i - 1], events[i - 1]);
    }
  }
}
