/** Two limits of the shrink-only rule: a run in which a late retry makes the row grow, and the exact
    condition under which the document of the first shrink-only update bounds all later ones. */
module ShrinkRuns {
  import opened Documents
  import opened Limits
  import opened Validation
  import opened ShrinkOnly

  // ---------- A run that grows ----------

  function Size(value: set<Id>): Metrics {
    Metrics(|value|, 0, |value|)
  }

  const FAILURE := [Inbound(Doc({2}, {1}), 1), Starts(0), Reads(0), Fails(0, true)]
  const RETRY := [Reload, Inbound(Doc({3}, {1}), 1), RetryStarts(1), Reads(1)]
  const STORE := [Commits(1), Starts(2), Reads(2), Commits(2)]

  const WAS := Doc({1}, {})
  const QUEUED := Doc({1, 2}, {1})
  const SHRUNK := Doc({1, 3}, {1})
  const ONE := Account(Some(Metrics(1, 0, 1)), 0)

  const FAILED := Room(QUEUED, WAS, ONE, Some(QUEUED), map[], None)
  const RETRYING := Room(SHRUNK, WAS, ONE, Some(QUEUED), map[1 := Store(Some(QUEUED), true, Reading(QUEUED))], Some(1))

  lemma {:induction false} Concat(measure: Measure, r: Room, a: seq<Event>, b: seq<Event>)
    requires Possible(measure, r, a) && Possible(measure, After(measure, r, a), b)
    requires AllIntact(measure, r, a) && AllIntact(measure, After(measure, r, a), b)
    ensures Possible(measure, r, a + b) && AllIntact(measure, r, a + b)
    ensures After(measure, r, a + b) == After(measure, After(measure, r, a), b)
    decreases |a|
  {
    if a == [] {
      assert a + b == b;
    } else {
      Concat(measure, Step(measure, r, a[0]), a[1..], b);
      assert a + b == [a[0]] + (a[1..] + b) && (a + b)[1..] == a[1..] + b;
    }
  }

  lemma OneStep(measure: Measure, r: Room, e: Event)
    requires Enabled(measure, r, e) && Intact(r, e)
    ensures Possible(measure, r, [e]) && AllIntact(measure, r, [e])
    ensures After(measure, r, [e]) == Step(measure, r, e)
  {
    assert [e][1..] == [];
  }

  lemma StoreFails()
    ensures Possible(Size, Loaded(WAS), FAILURE) && AllIntact(Size, Loaded(WAS), FAILURE)
    ensures After(Size, Loaded(WAS), FAILURE) == FAILED
  {
    var r0, e := Loaded(WAS), FAILURE;
    assert Merge(WAS, Doc({2}, {1})) == QUEUED && WAS.Value() == {1} && QUEUED.Value() == {2};
    var r1 := Step(Size, r0, e[0]);
    assert r1 == Room(QUEUED, WAS, ONE, None, map[], None);
    var r2 := Step(Size, r1, e[1]);
    var r3 := Step(Size, r2, e[2]);
    assert Step(Size, r3, e[3]) == FAILED;
    OneStep(Size, r3, e[3]);
    OneStep(Size, r2, e[2]);
    OneStep(Size, r1, e[1]);
    OneStep(Size, r0, e[0]);
    Concat(Size, r2, [e[2]], [e[3]]);
    Concat(Size, r1, [e[1]], [e[2]] + [e[3]]);
    Concat(Size, r0, [e[0]], [e[1]] + ([e[2]] + [e[3]]));
    assert [e[0]] + ([e[1]] + ([e[2]] + [e[3]])) == e;
  }

  lemma RetryReads()
    ensures Possible(Size, FAILED, RETRY) && AllIntact(Size, FAILED, RETRY)
    ensures After(Size, FAILED, RETRY) == RETRYING
  {
    var e := RETRY;
    assert Merge(WAS, Doc({3}, {1})) == SHRUNK && WAS.Value() == {1} && SHRUNK.Value() == {3};
    var r1 := Step(Size, FAILED, e[0]);
    assert r1 == Room(WAS, WAS, NO_ACCOUNT, Some(QUEUED), map[], None);
    var r2 := Step(Size, r1, e[1]);
    assert r2 == Room(SHRUNK, WAS, ONE, Some(QUEUED), map[], None);
    var r3 := Step(Size, r2, e[2]);
    assert Step(Size, r3, e[3]) == RETRYING;
    OneStep(Size, r3, e[3]);
    OneStep(Size, r2, e[2]);
    OneStep(Size, r1, e[1]);
    OneStep(Size, FAILED, e[0]);
    Concat(Size, r2, [e[2]], [e[3]]);
    Concat(Size, r1, [e[1]], [e[2]] + [e[3]]);
    Concat(Size, FAILED, [e[0]], [e[1]] + ([e[2]] + [e[3]]));
    assert [e[0]] + ([e[1]] + ([e[2]] + [e[3]])) == e;
  }

  lemma BothCommit()
    ensures Possible(Size, RETRYING, STORE) && AllIntact(Size, RETRYING, STORE)
    ensures After(Size, RETRYING, STORE).row == Doc({1, 2, 3}, {1})
  {
    var e := STORE;
    assert Merge(WAS, QUEUED) == QUEUED && Merge(QUEUED, SHRUNK) == Doc({1, 2, 3}, {1});
    assert WAS.Value() == {1} && QUEUED.Value() == {2} && Doc({1, 2, 3}, {1}).Value() == {2, 3};
    var r1 := Step(Size, RETRYING, e[0]);
    var r2 := Step(Size, r1, e[1]);
    var r3 := Step(Size, r2, e[2]);
    assert Holds(r3, 2) && r3.stores[2].phase.doc == SHRUNK && r3.row == QUEUED;
    OneStep(Size, r3, e[3]);
    OneStep(Size, r2, e[2]);
    OneStep(Size, r1, e[1]);
    OneStep(Size, RETRYING, e[0]);
    Concat(Size, r2, [e[2]], [e[3]]);
    Concat(Size, r1, [e[1]], [e[2]] + [e[3]]);
    Concat(Size, RETRYING, [e[0]], [e[1]] + ([e[2]] + [e[3]]));
    assert [e[0]] + ([e[1]] + ([e[2]] + [e[3]])) == e;
  }

  /** A snapshot queued before a reload and retried after it: every update shrinks or keeps the size,
      and the row ends up larger than the document that was loaded. */
  lemma RetryAfterReloadGrows()
    ensures Possible(Size, Loaded(WAS), FAILURE + (RETRY + STORE))
    ensures AllIntact(Size, Loaded(WAS), FAILURE + (RETRY + STORE))
    ensures !Recovers(MetricsOf(Size, After(Size, Loaded(WAS), FAILURE + (RETRY + STORE)).row),
                      Some(MetricsOf(Size, WAS)))
  {
    StoreFails();
    RetryReads();
    BothCommit();
    Concat(Size, FAILED, RETRY, STORE);
    Concat(Size, Loaded(WAS), FAILURE, RETRY + STORE);
    assert WAS.Value() == {1} && Doc({1, 2, 3}, {1}).Value() == {2, 3};
  }

  // ---------- The first shrink-only update ----------

  ghost predicate Agrees(measure: Measure, other: Measure, r: Room) {
    forall doc :: Held(r, doc) ==> MetricsOf(other, doc) == MetricsOf(measure, doc)
  }

  ghost predicate Continues(measure: Measure, r: Room, events: seq<Event>) {
    Possible(measure, r, events) && AllSafe(measure, r, events) && AllIntact(measure, r, events)
  }

  /** From now on, with every update shrink-only and every commit safe, the document never exceeds what
      it is now, whatever documents nobody holds yet may measure. */
  ghost predicate BoundedByNow(measure: Measure, r: Room) {
    forall other: Measure, events: seq<Event> :: Agrees(measure, other, r) && Continues(other, r, events) ==>
      Recovers(MetricsOf(other, After(other, r, events).live), Some(MetricsOf(measure, r.live)))
  }

  /** In a room whose documents are all within its live one, the metrics at the first shrink-only update
      bound everything after it if and only if the baseline is missing or within them, and so is
      every accept still to come. */
  lemma FirstShrinkBoundIff(measure: Measure, r: Room)
    requires Steady(r) && DocumentsWithin(measure, MetricsOf(measure, r.live), r)
    ensures BoundedByNow(measure, r) <==> AccountWithin(MetricsOf(measure, r.live), r)
  {
    var first := MetricsOf(measure, r.live);
    if AccountWithin(first, r) {
      forall other: Measure, events: seq<Event> | Agrees(measure, other, r) && Continues(other, r, events)
        ensures Recovers(MetricsOf(other, After(other, r, events).live), Some(first))
      {
        assert DocumentsWithin(other, first, r);
        StaysBounded(other, first, r, events);
        assert Held(After(other, r, events), After(other, r, events).live);
      }
    } else if r.account.metrics.Some? && !Recovers(r.account.metrics.value, Some(first)) {
      BaselineAdmits(measure, r, r, [], r.account.metrics.value);
    } else {
      var c :| c in r.stores && r.stores[c].phase.Committed? && !Recovers(r.stores[c].phase.metrics, Some(first));
      LateAcceptAdmits(measure, r, c);
    }
  }

  /** A value like the live one with one more insertion that nobody holds. */
  ghost function Extra(r: Room): Id
    ensures forall other :: other in Ids(r) ==> other < Extra(r)
  {
    Above(Ids(r))
  }

  function Weighing(measure: Measure, value: set<Id>, metrics: Metrics): Measure {
    (v: set<Id>) => if v == value then metrics else measure(v)
  }

  /** Once the baseline is `m`, a document of metrics `m` is admitted. */
  lemma BaselineAdmits(measure: Measure, r: Room, now: Room, before: seq<Event>, m: Metrics)
    requires Steady(r) && Steady(now) && now.live == r.live
    requires now.account.metrics == Some(m) && !Recovers(m, Some(MetricsOf(measure, r.live)))
    requires var other := Weighing(measure, Doc(r.live.inserted + {Extra(r)}, r.live.deleted).Value(), m);
      Continues(other, r, before) && After(other, r, before) == now
    ensures !BoundedByNow(measure, r)
  {
    var x := Extra(r);
    var next := Doc(r.live.inserted + {x}, r.live.deleted);
    var other := Weighing(measure, next.Value(), m);
    forall doc | Held(r, doc) ensures doc.Value() != next.Value() {
      HeldIds(r, doc);
      assert Held(r, r.live) && x in next.Value();
    }
    var e := Inbound(Doc({x}, {}), 0);
    assert Held(now, now.live) && Merge(now.live, Doc({x}, {})) == next;
    assert Step(other, now, e).live == next;
    OneStep(other, now, e);
    assert AllSafe(other, now, [e]) by {
      assert [e][1..] == [] && AllSafe(other, Step(other, now, e), []);
    }
    Concat(other, r, before, [e]);
    ConcatSafe(other, r, before, [e]);
    assert Continues(other, r, before + [e]);
  }

  lemma {:induction false} ConcatSafe(measure: Measure, r: Room, a: seq<Event>, b: seq<Event>)
    requires Possible(measure, r, a) && Possible(measure, After(measure, r, a), b)
    requires Possible(measure, r, a + b)
    requires AllSafe(measure, r, a) && AllSafe(measure, After(measure, r, a), b)
    ensures AllSafe(measure, r, a + b)
    decreases |a|
  {
    if a == [] {
      assert a + b == b;
    } else {
      assert (a + b)[1..] == a[1..] + b && (a + b)[0] == a[0];
      ConcatSafe(measure, Step(measure, r, a[0]), a[1..], b);
    }
  }

  /** The first update founds a validator, a late accept then raises its baseline. */
  lemma LateAcceptAdmits(measure: Measure, r: Room, c: nat)
    requires Steady(r) && c in r.stores && r.stores[c].phase.Committed?
    requires !Recovers(r.stores[c].phase.metrics, Some(MetricsOf(measure, r.live)))
    ensures !BoundedByNow(measure, r)
  {
    var m := r.stores[c].phase.metrics;
    var other := Weighing(measure, Doc(r.live.inserted + {Extra(r)}, r.live.deleted).Value(), m);
    var nothing, accept := Inbound(Doc({}, {}), 0), Accepts(c);
    assert Held(r, r.live) && Merge(r.live, Doc({}, {})) == r.live;
    var r1 := Step(other, r, nothing);
    assert r1.live == r.live && r1.account.metrics.Some?;
    StepIsSteady(other, r, nothing);
    var r2 := Step(other, r1, accept);
    StepIsSteady(other, r1, accept);
    OneStep(other, r, nothing);
    OneStep(other, r1, accept);
    assert AllSafe(other, r1, [accept]) by {
      assert [accept][1..] == [] && AllSafe(other, r2, []);
    }
    assert AllSafe(other, r, [nothing]) by {
      assert [nothing][1..] == [] && AllSafe(other, r1, []);
    }
    Concat(other, r, [nothing], [accept]);
    ConcatSafe(other, r, [nothing], [accept]);
    BaselineAdmits(measure, r, r2, [nothing] + [accept], m);
  }
}
