/** The in-memory retry queue of failed stores: what of it survives a settling store. */
module RetryQueue {
  import opened Documents
  import opened Limits
  import opened Validation
  import opened Persistence
  import opened Protocol
  import opened Invariants
  import opened DurableDocuments

  /** What of a document another has not integrated. */
  function Beyond(doc: Doc, read: Doc): Doc {
    Doc(doc.inserted - read.inserted, doc.deleted - read.deleted)
  }

  /** Every settling store, retry or live, deletes whatever is queued for its room.  What it deletes is
      in the version the store committed exactly when the operations its document did not have were in
      the version before; and it is in the row, while the epoch stands, exactly when they are in the
      row already. */
  lemma SettlingKeepsQueuedIff(measure: Measure, states: seq<State>, events: seq<Event>, i: nat, c: nat)
    requires Run(measure, states, events) && i < |events| && events[i] == SettleStore(c)
    requires c in states[i].calls && states[i].calls[c].site in states[i].failed
    ensures var s, call := states[i], states[i].calls[c];
            var queued := s.failed[call.site];
      && call.site !in states[i + 1].failed
      && call.phase.Committed? && 2 <= call.phase.version <= |s.trace.commits| && s.material.row.Some?
      && var before, stored := s.trace.commits[call.phase.version - 2], s.trace.commits[call.phase.version - 1];
      && stored.epoch == call.site.epoch
      && (stored.state.Includes(queued) <==> before.state.Includes(Beyond(queued, call.phase.read)))
      && (s.material.row.value.epoch == call.site.epoch ==>
            (s.material.row.value.state.Includes(queued)
             <==> s.material.row.value.state.Includes(Beyond(queued, call.phase.read))))
      && states[i + 1].material == s.material
  {
    var s, call := states[i], states[i].calls[c];
    var queued := s.failed[call.site];
    assert StepAt(measure, states, events, i);
    CommittedKnows(measure, states, events, i, c);
    RowHoldsVersion(measure, states, events, i, call.phase.version);
    BeyondIff(s.trace.commits[call.phase.version - 2].state, call.phase.read, queued);
    BeyondIff(s.material.row.value.state, call.phase.read, queued);
  }

  lemma BeyondIff(row: Doc, read: Doc, queued: Doc)
    ensures Merge(row, read).Includes(queued) <==> row.Includes(Beyond(queued, read))
    ensures row.Includes(read) ==> (row.Includes(queued) <==> row.Includes(Beyond(queued, read)))
  {
  }

  lemma CommittedKnows(measure: Measure, states: seq<State>, events: seq<Event>, i: nat, c: nat)
    requires Run(measure, states, events) && i < |states|
    requires c in states[i].calls && states[i].calls[c].phase.Committed?
    ensures states[i].material.row.Some? && CommittedInv(states[i].trace, states[i].calls[c])
    ensures states[i].calls[c].source.Snapshot? ==> states[i].calls[c].phase.read == states[i].calls[c].source.doc
  {
    RunKeeps(measure, states, events, i);
    assert ClaimInv(states[i], states[i].calls[c]);
  }

  /** While the epoch stands the row has everything an earlier version had. */
  lemma RowHoldsVersion(measure: Measure, states: seq<State>, events: seq<Event>, i: nat, version: nat)
    requires Run(measure, states, events) && i < |states| && states[i].material.row.Some?
    requires 1 <= version <= |states[i].trace.commits|
    ensures states[i].material.row.value.epoch == states[i].trace.commits[version - 1].epoch ==>
              states[i].material.row.value.state.Includes(states[i].trace.commits[version - 1].state)
  {
    RowIsVersion(measure, states, events, i, i);
    HistoryAt(measure, states, events, i);
    assert Follows(states[i].trace, version - 1, |states[i].trace.commits| - 1);
  }

  /** A retry that settles while the queue still holds the snapshot it took, and a live store whose
      document has everything queued, leave the entry in the version they committed, and every later
      row keeps its effect. */
  lemma SettledRetryStoredIt(measure: Measure, states: seq<State>, events: seq<Event>, i: nat, c: nat,
                             j: nat, later: nat)
    requires Run(measure, states, events) && i < |events| && events[i] == SettleStore(c) && i <= j < |states|
    requires c in states[i].calls && states[i].calls[c].site in states[i].failed
    requires states[i].calls[c].phase.Committed?
    requires var call, queued := states[i].calls[c], states[i].failed[states[i].calls[c].site];
      if call.source.Snapshot? then call.source.doc == queued else call.phase.read.Includes(queued)
    requires states[i].calls[c].phase.version <= later <= |states[j].trace.commits|
    ensures 1 <= states[i].calls[c].phase.version
    ensures var queued, version := states[i].failed[states[i].calls[c].site], states[i].calls[c].phase.version;
            var stored, row := states[j].trace.commits[version - 1], states[j].trace.commits[later - 1];
      && stored.epoch == states[i].calls[c].site.epoch && stored.state.Includes(queued)
      && stored.logged <= row.logged <= |states[j].trace.log|
      && queued.Value() - stored.state.deleted
         <= row.state.Value() + Deletions(states[j].trace.log[stored.logged..row.logged])
      && queued.deleted !! row.state.Value()
  {
    CommittedKnows(measure, states, events, i, c);
    HistoryOnlyGrows(measure, states, events, i, j);
    HistoryAt(measure, states, events, j);
    assert Follows(states[j].trace, states[i].calls[c].phase.version - 1, later - 1);
  }

  // ---------- A retry drops a newer snapshot ----------

  const SITE := Site(0, 1)

  /** Two edits, two failed stores, and a retry of the first that settles after the second. */
  const FIRST_FAILURE := [Load(SITE, 0), Edit(SITE, Doc({1}, {})), BeginStore(SITE, 10), FailStore(10, true)]
  const SECOND_FAILURE := [BeginRetry(SITE, 11), Edit(SITE, Doc({2}, {})), BeginStore(SITE, 12), FailStore(12, true)]
  const RETRY_SETTLES := [Unload(SITE), LockRow(11), CommitStore(11), SettleStore(11)]

  /** After the first failure the room is reloaded, and a store of the new document settles. */
  const RELOAD := [Unload(SITE), Load(SITE, 1), BeginStore(SITE, 12)]
  const LIVE_SETTLES := [LockRow(12), CommitStore(12), SettleStore(12)]

  function Free(value: set<Id>): Metrics {
    Metrics(0, 0, 0)
  }

  const EMPTY_ROW := Row(1, Doc({}, {}), 1, 1)
  const START := State(Material(None, Plate({})), None, map[], map[], map[], map[], map[], {},
                       Trace({}, map[], map[], {}, [], []))

  const FAILED_ONCE := State(
    Material(Some(EMPTY_ROW), Plate({})), None, map[0 := Instance(SITE, Doc({1}, {}))], map[SITE := 0], map[],
    map[SITE := Doc({1}, {})], map[], {},
    Trace({1}, map[1 := {1}], map[], {}, [Commit(1, Doc({}, {}), 1)], [Batch({}, {})]))

  const RETRYING := FAILED_ONCE.(
    instances := map[0 := Instance(SITE, Doc({1, 2}, {}))],
    calls := map[11 := Call(SITE, Snapshot(Doc({1}, {})), {}, Begun)],
    trace := Trace({1, 2}, map[1 := {1, 2}], map[], {}, [Commit(1, Doc({}, {}), 1)], [Batch({}, {})]))

  const FAILED_TWICE := State(
    Material(Some(EMPTY_ROW), Plate({})), None, map[0 := Instance(SITE, Doc({1, 2}, {}))], map[SITE := 0], map[],
    map[SITE := Doc({1, 2}, {})], map[11 := Call(SITE, Snapshot(Doc({1}, {})), {}, Begun)], {},
    Trace({1, 2}, map[1 := {1, 2}], map[], {}, [Commit(1, Doc({}, {}), 1)], [Batch({}, {})]))

  const RELOADED := FAILED_ONCE.(
    instances := map[0 := Instance(SITE, Doc({1}, {})), 1 := Instance(SITE, Doc({}, {}))], loaded := map[SITE := 1],
    calls := map[12 := Call(SITE, Live(1), {}, Begun)])

  const EDITED := FAILED_ONCE.(failed := map[])

  lemma FirstEdit() returns (s1: State)
    ensures Enabled(Free, START, FIRST_FAILURE[0]) && s1 == Step(Free, START, FIRST_FAILURE[0])
    ensures Enabled(Free, s1, FIRST_FAILURE[1]) && Step(Free, s1, FIRST_FAILURE[1]) == EDITED
  {
    s1 := Step(Free, START, FIRST_FAILURE[0]);
    assert Merge(Doc({}, {}), Doc({1}, {})) == Doc({1}, {});
    var s2 := Step(Free, s1, FIRST_FAILURE[1]);
    assert s2.trace.known == map[1 := {1}] && s2.trace.used == {1};
  }

  lemma FirstFailure() returns (states: seq<State>)
    ensures |states| == 5 && states[0] == START && states[4] == FAILED_ONCE
    ensures forall i :: 0 <= i < 4 ==> StepAt(Free, states, FIRST_FAILURE, i)
  {
    var s1 := FirstEdit();
    var s3 := Step(Free, EDITED, FIRST_FAILURE[2]);
    var s4 := Step(Free, s3, FIRST_FAILURE[3]);
    assert s4.calls == map[] && s4.failed == map[SITE := Doc({1}, {})];
    states := [START, s1, EDITED, s3, s4];
  }

  lemma RetryBegins() returns (s1: State)
    ensures Enabled(Free, FAILED_ONCE, SECOND_FAILURE[0]) && s1 == Step(Free, FAILED_ONCE, SECOND_FAILURE[0])
    ensures Enabled(Free, s1, SECOND_FAILURE[1]) && Step(Free, s1, SECOND_FAILURE[1]) == RETRYING
  {
    s1 := Step(Free, FAILED_ONCE, SECOND_FAILURE[0]);
    assert Merge(Doc({1}, {}), Doc({2}, {})) == Doc({1, 2}, {});
    var s2 := Step(Free, s1, SECOND_FAILURE[1]);
    assert s2.trace.known == map[1 := {1, 2}] && s2.trace.used == {1, 2};
  }

  lemma SecondFailure() returns (states: seq<State>)
    ensures |states| == 5 && states[0] == FAILED_ONCE && states[4] == FAILED_TWICE
    ensures forall i :: 0 <= i < 4 ==> StepAt(Free, states, SECOND_FAILURE, i)
  {
    var s1 := RetryBegins();
    var s3 := Step(Free, RETRYING, SECOND_FAILURE[2]);
    var s4 := Step(Free, s3, SECOND_FAILURE[3]);
    assert s4.calls == FAILED_TWICE.calls && s4.failed == FAILED_TWICE.failed;
    states := [FAILED_ONCE, s1, RETRYING, s3, s4];
  }

  /** A store of the only call takes the lock and commits. */
  lemma RunsToCommit(s: State, c: nat) returns (s1: State, s2: State)
    requires s.material == Material(Some(EMPTY_ROW), Plate({})) && s.lock.None?
    requires c in s.calls && s.calls == map[c := s.calls[c]] && s.calls[c].phase.Begun? && s.calls[c].site == SITE
    requires s.calls[c].source.Live? ==> s.calls[c].source.instance in s.instances
    ensures Enabled(Free, s, LockRow(c)) && s1 == Step(Free, s, LockRow(c))
    ensures Enabled(Free, s1, CommitStore(c)) && s2 == Step(Free, s1, CommitStore(c))
    ensures c in s2.calls && s2.calls == map[c := s2.calls[c]] && s2.calls[c].phase.Committed?
    ensures s2.calls[c].site == SITE && s2.calls[c].source == s.calls[c].source
    ensures s2.failed == s.failed && s2.loaded == s.loaded && s2.instances == s.instances
    ensures s2.material.row.Some?
    ensures s2.material.row.value.state == Merge(Doc({}, {}), SourceDoc(s, s.calls[c].source))
  {
    s1 := Step(Free, s, LockRow(c));
    s2 := Step(Free, s1, CommitStore(c));
  }

  lemma RetrySettles() returns (states: seq<State>)
    ensures |states| == 5 && states[0] == FAILED_TWICE
    ensures forall i :: 0 <= i < 4 ==> StepAt(Free, states, RETRY_SETTLES, i)
    ensures var last := states[4];
      && last.failed == map[] && last.loaded == map[] && last.calls == map[]
      && last.material.row.Some? && last.material.row.value.state == Doc({1}, {})
  {
    var s1 := Step(Free, FAILED_TWICE, RETRY_SETTLES[0]);
    assert Merge(Doc({}, {}), Doc({1}, {})) == Doc({1}, {});
    var s2, s3 := RunsToCommit(s1, 11);
    var s4 := Step(Free, s3, RETRY_SETTLES[3]);
    assert s4.calls == map[] && s4.failed == map[] && s4.loaded == map[];
    states := [FAILED_TWICE, s1, s2, s3, s4];
  }

  /** Failed snapshots are not kept until they are stored.  A retry of an older snapshot settles: the
      newer one leaves the queue, no loaded document and no call has its insertion 2, and neither has
      the row. */
  lemma NewerSnapshotCanBeDropped() returns (states: seq<State>)
    ensures Run(Free, states, FIRST_FAILURE + SECOND_FAILURE + RETRY_SETTLES)
    ensures SITE in states[8].failed && states[8].failed[SITE] == Doc({1, 2}, {})
    ensures var last := states[12];
      && last.failed == map[] && last.loaded == map[] && last.calls == map[]
      && last.material.row.Some? && last.material.row.value.state == Doc({1}, {})
  {
    var first := FirstFailure();
    var second := SecondFailure();
    var third := RetrySettles();
    states := first[..4] + second[..4] + third;
    var events := FIRST_FAILURE + SECOND_FAILURE + RETRY_SETTLES;
    forall i | 0 <= i < 12 ensures StepAt(Free, states, events, i) {
      if i < 4 {
        assert StepAt(Free, first, FIRST_FAILURE, i);
      } else if i < 8 {
        assert StepAt(Free, second, SECOND_FAILURE, i - 4);
      } else {
        assert StepAt(Free, third, RETRY_SETTLES, i - 8);
      }
    }
  }

  // ---------- A live store drops a snapshot ----------

  lemma RoomReloads() returns (states: seq<State>)
    ensures |states| == 4 && states[0] == FAILED_ONCE && states[3] == RELOADED
    ensures forall i :: 0 <= i < 3 ==> StepAt(Free, states, RELOAD, i)
  {
    var s1 := Step(Free, FAILED_ONCE, RELOAD[0]);
    var s2 := Step(Free, s1, RELOAD[1]);
    assert s2.instances == RELOADED.instances && s2.loaded == RELOADED.loaded;
    var s3 := Step(Free, s2, RELOAD[2]);
    assert s3.calls == RELOADED.calls;
    states := [FAILED_ONCE, s1, s2, s3];
  }

  lemma LiveSettles() returns (states: seq<State>)
    ensures |states| == 4 && states[0] == RELOADED
    ensures forall i :: 0 <= i < 3 ==> StepAt(Free, states, LIVE_SETTLES, i)
    ensures var last := states[3];
      && last.failed == map[] && last.calls == map[] && last.loaded == map[SITE := 1]
      && last.instances == RELOADED.instances
      && last.material.row.Some? && last.material.row.value.state == Doc({}, {})
  {
    assert Merge(Doc({}, {}), Doc({}, {})) == Doc({}, {});
    var s1, s2 := RunsToCommit(RELOADED, 12);
    var s3 := Step(Free, s2, LIVE_SETTLES[2]);
    assert s3.calls == map[] && s3.failed == map[];
    states := [RELOADED, s1, s2, s3];
  }

  /** No retry is needed: a store of a reloaded document settles, and the snapshot of the document
      before the reload, which has insertion 1, is in no queue, no loaded document, no call and not
      in the row. */
  lemma LiveStoreCanDropSnapshot() returns (states: seq<State>)
    ensures Run(Free, states, FIRST_FAILURE + RELOAD + LIVE_SETTLES)
    ensures SITE in states[4].failed && states[4].failed[SITE] == Doc({1}, {})
    ensures var last := states[10];
      && last.failed == map[] && last.calls == map[]
      && last.loaded == map[SITE := 1] && 1 in last.instances && last.instances[1].doc == Doc({}, {})
      && last.material.row.Some? && last.material.row.value.state == Doc({}, {})
  {
    var first := FirstFailure();
    var second := RoomReloads();
    var third := LiveSettles();
    states := first[..4] + second[..3] + third;
    var events := FIRST_FAILURE + RELOAD + LIVE_SETTLES;
    forall i | 0 <= i < 10 ensures StepAt(Free, states, events, i) {
      if i < 4 {
        assert StepAt(Free, first, FIRST_FAILURE, i);
      } else if i < 7 {
        assert StepAt(Free, second, RELOAD, i - 4);
      } else {
        assert StepAt(Free, third, LIVE_SETTLES, i - 7);
      }
    }
  }
}
