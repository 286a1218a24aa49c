/** The amortised check in front of a live document: when an inbound update is measured, what the
    baseline is, and what the accounting does and does not guarantee. */
module Validation {
  import opened Documents
  import opened Limits

  const VALIDATION_BUDGET_BYTES := 32 * 1024
  const DEPTH_HEADROOM := 4

  /** The metrics of a visible value. */
  type Measure = set<Id> -> Metrics

  datatype Account = Account(metrics: Option<Metrics>, pendingBytes: nat)

  const NO_ACCOUNT := Account(None, 0)

  /** The 0.9 headroom, in integers. */
  predicate NeedsMeasure(a: Account) {
    || a.metrics.None?
    || a.pendingBytes >= VALIDATION_BUDGET_BYTES
    || 10 * (a.metrics.value.contentBytes + a.pendingBytes) > 9 * MAX_CONTENT_BYTES
    || 10 * (a.metrics.value.nodeCount + a.pendingBytes) > 9 * MAX_NODES
    || a.metrics.value.maxDepth >= MAX_DEPTH - DEPTH_HEADROOM
  }

  datatype Verdict = Verdict(account: Account, error: Option<LimitCode>)

  /** One inbound update of `bytes` bytes that would take the document from `current` to
      `candidate`. */
  function Validate(a: Account, current: Metrics, candidate: Metrics, bytes: nat, shrinkOnly: bool): Verdict {
    var counted := a.(pendingBytes := a.pendingBytes + bytes);
    if !NeedsMeasure(counted) && !shrinkOnly then Verdict(counted, None)
    else
      var based := if counted.metrics.None? then counted.(metrics := Some(current)) else counted;
      if MaterialLimitCode(candidate).Some? && !Recovers(candidate, based.metrics) then
        Verdict(based, MaterialLimitCode(candidate))
      else if shrinkOnly && !Recovers(candidate, based.metrics) then
        Verdict(based, Some(SizeExceeded))
      else Verdict(Account(Some(candidate), 0), None)
  }

  /** When an update is measured: without a baseline, with 32 KiB pending, within a tenth of the size or
      node cap, or within four levels of the depth limit. */
  lemma NeedsMeasureIff(a: Account)
    ensures NeedsMeasure(a) <==>
              || a.metrics.None?
              || a.pendingBytes >= 32_768
              || a.metrics.value.contentBytes + a.pendingBytes > 1_887_436
              || a.metrics.value.nodeCount + a.pendingBytes > 9_000
              || a.metrics.value.maxDepth >= 12
  {
  }

  /** What an update is compared with: the baseline, or the current document when there is none. */
  function Baseline(a: Account, current: Metrics): Metrics {
    if a.metrics.Some? then a.metrics.value else current
  }

  /** When an update is admitted, and what becomes of the accounting. */
  lemma AdmittedIff(a: Account, current: Metrics, candidate: Metrics, bytes: nat, shrinkOnly: bool)
    ensures var verdict, base := Validate(a, current, candidate, bytes, shrinkOnly), Baseline(a, current);
            var measured := shrinkOnly || NeedsMeasure(Account(a.metrics, a.pendingBytes + bytes));
      && (verdict.error == None <==>
            || !measured
            || EachAtMost(candidate, base)
            || (!shrinkOnly && EachUnderCap(candidate)))
      && (verdict.error != None ==>
            verdict.error == Some(if EachUnderCap(candidate) then SizeExceeded else MaterialLimitCode(candidate).value))
      && verdict.account ==
           if !measured then Account(a.metrics, a.pendingBytes + bytes)
           else if verdict.error == None then Account(Some(candidate), 0)
           else Account(Some(base), a.pendingBytes + bytes)
  {
    CodeNamesFirstCap(candidate);
    CodeNamesFirstCap(Baseline(a, current));
  }

  /** The first update of a room without a baseline is always measured, against the document itself. */
  lemma FirstUpdateIff(pending: nat, current: Metrics, candidate: Metrics, bytes: nat)
    ensures var verdict := Validate(Account(None, pending), current, candidate, bytes, false);
      && (verdict.error == None <==> EachUnderCap(candidate) || EachAtMost(candidate, current))
      && (verdict.error == None ==> verdict.account == Account(Some(candidate), 0))
      && (verdict.error != None ==> verdict.account == Account(Some(current), pending + bytes))
  {
    AdmittedIff(Account(None, pending), current, candidate, bytes, false);
  }

  class RoomValidator {
    var metrics: Option<Metrics>
    var pendingBytes: nat

    function View(): Account
      reads this
    {
      Account(metrics, pendingBytes)
    }

    constructor ()
      ensures View() == NO_ACCOUNT
    {
      metrics, pendingBytes := None, 0;
    }

    method ShouldMeasure() returns (measure: bool)
      ensures measure == NeedsMeasure(View())
    {
      if metrics.None? {
        return true;
      }
      if pendingBytes >= VALIDATION_BUDGET_BYTES {
        return true;
      }
      return
        || 10 * (metrics.value.contentBytes + pendingBytes) > 9 * MAX_CONTENT_BYTES
        || 10 * (metrics.value.nodeCount + pendingBytes) > 9 * MAX_NODES
        || metrics.value.maxDepth >= MAX_DEPTH - DEPTH_HEADROOM;
    }

    method Accept(metrics: Metrics)
      modifies this
      ensures View() == Account(Some(metrics), 0)
    {
      this.metrics := Some(metrics);
      pendingBytes := 0;
    }
  }

  // ---------- What skipping measurements can cost ----------

  /** An inbound update that would take the document to `candidate`. */
  datatype Update = Update(bytes: nat, candidate: Metrics, shrinkOnly: bool)

  /** A store's `accept` interleaves with the updates, with the metrics of what it committed. */
  datatype Act = Apply(update: Update) | Accept(metrics: Metrics)

  /** A room whose updates are all validated, with the true metrics of its document. */
  datatype MeteredRoom = MeteredRoom(account: Account, doc: Metrics)

  function Admit(r: MeteredRoom, u: Update): MeteredRoom {
    var verdict := Validate(r.account, r.doc, u.candidate, u.bytes, u.shrinkOnly);
    MeteredRoom(verdict.account, if verdict.error.None? then u.candidate else r.doc)
  }

  function ActOn(r: MeteredRoom, act: Act): MeteredRoom {
    match act
    case Apply(u) => Admit(r, u)
    case Accept(m) => r.(account := if r.account.metrics.None? then r.account else Account(Some(m), 0))
  }

  function ActAll(r: MeteredRoom, acts: seq<Act>): MeteredRoom
    decreases |acts|
  {
    if acts == [] then r else ActAll(ActOn(r, acts[0]), acts[1..])
  }

  /** A run begins with a document whose metrics were just accepted, or one that was just loaded and
      has no baseline yet; under the limits in both cases. */
  datatype Start = JustAccepted | JustLoaded

  ghost predicate Begins(start: Start, r: MeteredRoom) {
    && WithinLimits(r.doc) && Shaped(r.doc)
    && match start
       case JustAccepted => r == Accepted(r.doc)
       case JustLoaded => r.account.metrics == None
  }

  ghost function Accepted(doc: Metrics): MeteredRoom {
    MeteredRoom(Account(Some(doc), 0), doc)
  }

  /** Which accepts may come between the updates: none; any under the caps; any that miss nothing of
      the document; or any under the caps that miss at most so much of it. */
  datatype Accepts = Never | UnderCaps | AtLeastDocument | Missing(bytes: nat, nodes: nat)

  ghost predicate Allows(accepts: Accepts, doc: Metrics, m: Metrics) {
    match accepts
    case Never => false
    case UnderCaps => Capped(m)
    case AtLeastDocument => doc.contentBytes <= m.contentBytes && doc.nodeCount <= m.nodeCount
    case Missing(bytes, nodes) =>
      Capped(m) && doc.contentBytes <= m.contentBytes + bytes && doc.nodeCount <= m.nodeCount + nodes
  }

  /** Each update byte adds at most `bytes` content bytes and `nodes` nodes. */
  ghost predicate Grows(doc: Metrics, u: Update, bytes: nat, nodes: nat) {
    && Shaped(u.candidate)
    && u.candidate.contentBytes <= doc.contentBytes + bytes * u.bytes
    && u.candidate.nodeCount <= doc.nodeCount + nodes * u.bytes
  }

  ghost predicate KnownAct(doc: Metrics, act: Act, bytes: nat, nodes: nat, accepts: Accepts) {
    match act
    case Apply(u) => Grows(doc, u, bytes, nodes)
    case Accept(m) => Shaped(m) && Allows(accepts, doc, m)
  }

  ghost predicate AllKnown(r: MeteredRoom, acts: seq<Act>, bytes: nat, nodes: nat, accepts: Accepts)
    decreases |acts|
  {
    if acts == [] then true
    else KnownAct(r.doc, acts[0], bytes, nodes, accepts) && AllKnown(ActOn(r, acts[0]), acts[1..], bytes, nodes, accepts)
  }

  ghost predicate Capped(doc: Metrics) {
    doc.contentBytes <= MAX_CONTENT_BYTES && doc.nodeCount <= MAX_NODES
  }

  /** No sequence of such acts, with updates measured or not, takes a document that begins
      under the limits over the size or node cap. */
  ghost predicate KeepsCaps(start: Start, bytes: nat, nodes: nat, accepts: Accepts) {
    forall r: MeteredRoom, acts: seq<Act> ::
      Begins(start, r) && AllKnown(r, acts, bytes, nodes, accepts) ==> Capped(ActAll(r, acts).doc)
  }

  // ---------- Size and nodes ----------

  ghost predicate Tracked(r: MeteredRoom, bytes: nat, nodes: nat, missedBytes: nat, missedNodes: nat) {
    && Shaped(Baseline(r.account, r.doc)) && Capped(Baseline(r.account, r.doc)) && Capped(r.doc)
    && (r.account.metrics.None? ==> WithinLimits(r.doc))
    && (r.account.metrics.Some? && bytes > 0 ==>
          r.doc.contentBytes <= r.account.metrics.value.contentBytes + bytes * r.account.pendingBytes + missedBytes)
    && (r.account.metrics.Some? && nodes > 0 ==>
          r.doc.nodeCount <= r.account.metrics.value.nodeCount + r.account.pendingBytes + missedNodes)
  }

  /** How large a document can get unmeasured: 9/10 of the size cap, all of it but 8999 pending bytes
      in the baseline, where 8999 is the most that can be pending in a room that has a node. */
  function Peak(bytes: nat, missed: nat): nat {
    1_878_437 + 8_999 * bytes + missed
  }

  ghost predicate Affordable(bytes: nat, nodes: nat, missedBytes: nat, missedNodes: nat) {
    && (bytes == 0 || Peak(bytes, missedBytes) <= MAX_CONTENT_BYTES)
    && (nodes == 0 || (nodes == 1 && missedNodes <= MAX_NODES / 10))
  }

  lemma Multiply(a: nat, b: nat, c: nat)
    requires a <= b
    ensures a * c <= b * c
  {
  }

  /** What an unmeasured update leaves within the size cap. */
  lemma UnmeasuredSize(content: nat, pending: nat, bytes: nat, missed: nat)
    requires 0 < bytes && Peak(bytes, missed) <= MAX_CONTENT_BYTES
    requires pending <= 9_000 && content + pending <= 1_887_436
    requires pending <= 8_999 || content == EMPTY_BYTES
    ensures content + bytes * pending + missed <= MAX_CONTENT_BYTES
  {
    if pending <= 8_999 {
      Multiply(pending, 8_999, bytes - 1);
      assert bytes * pending == pending + pending * (bytes - 1);
    } else {
      assert bytes * pending == 9_000 * bytes;
    }
  }

  lemma AdmitFirst(r: MeteredRoom, u: Update)
    requires r.account.metrics.None?
    ensures || Admit(r, u) == MeteredRoom(Account(Some(r.doc), r.account.pendingBytes + u.bytes), r.doc)
            || (Admit(r, u) == Accepted(u.candidate) && Acceptable(u.candidate, Some(r.doc)))
  {
  }

  lemma AdmitCases(r: MeteredRoom, u: Update)
    requires r.account.metrics.Some?
    ensures var counted := r.account.(pendingBytes := r.account.pendingBytes + u.bytes);
      || (Admit(r, u) == MeteredRoom(counted, u.candidate) && !NeedsMeasure(counted))
      || Admit(r, u) == MeteredRoom(counted, r.doc)
      || (Admit(r, u) == Accepted(u.candidate) && Acceptable(u.candidate, r.account.metrics))
  {
  }

  lemma ApplyTracks(r: MeteredRoom, u: Update, bytes: nat, nodes: nat, missedBytes: nat, missedNodes: nat)
    requires Tracked(r, bytes, nodes, missedBytes, missedNodes) && Affordable(bytes, nodes, missedBytes, missedNodes)
    requires Grows(r.doc, u, bytes, nodes)
    ensures Tracked(Admit(r, u), bytes, nodes, missedBytes, missedNodes)
  {
    if r.account.metrics.None? {
      AdmitFirst(r, u);
    } else {
      MeasuredTracks(r, u, bytes, nodes, missedBytes, missedNodes);
    }
  }

  /** The arithmetic of one update, admitted unmeasured or turned away. */
  lemma OneMoreLength(base: nat, doc: nat, candidate: nat, rate: nat, pending: nat, length: nat, missed: nat)
    requires doc <= base + rate * pending + missed && candidate <= doc + rate * length
    ensures doc <= base + rate * (pending + length) + missed
    ensures candidate <= base + rate * (pending + length) + missed
  {
    Distribute(rate, pending, length);
  }

  lemma MeasuredTracks(r: MeteredRoom, u: Update, bytes: nat, nodes: nat, missedBytes: nat, missedNodes: nat)
    requires r.account.metrics.Some? && Grows(r.doc, u, bytes, nodes)
    requires Tracked(r, bytes, nodes, missedBytes, missedNodes) && Affordable(bytes, nodes, missedBytes, missedNodes)
    ensures Tracked(Admit(r, u), bytes, nodes, missedBytes, missedNodes)
  {
    var base, counted := r.account.metrics.value, r.account.pendingBytes + u.bytes;
    AdmitCases(r, u);
    if Admit(r, u) != Accepted(u.candidate) {
      if bytes > 0 {
        OneMoreLength(base.contentBytes, r.doc.contentBytes, u.candidate.contentBytes, bytes,
                      r.account.pendingBytes, u.bytes, missedBytes);
      }
      Multiply(nodes, 1, u.bytes);
      if bytes > 0 && !NeedsMeasure(r.account.(pendingBytes := counted)) {
        UnmeasuredSize(base.contentBytes, counted, bytes, missedBytes);
      }
    }
  }

  lemma Distribute(a: nat, b: nat, c: nat)
    ensures a * (b + c) == a * b + a * c
  {
  }

  lemma {:induction false} ActsTrack(r: MeteredRoom, acts: seq<Act>, bytes: nat, nodes: nat,
                                     missedBytes: nat, missedNodes: nat)
    requires Tracked(r, bytes, nodes, missedBytes, missedNodes) && Affordable(bytes, nodes, missedBytes, missedNodes)
    requires AllKnown(r, acts, bytes, nodes, Missing(missedBytes, missedNodes))
    ensures Tracked(ActAll(r, acts), bytes, nodes, missedBytes, missedNodes)
    decreases |acts|
  {
    if acts != [] {
      match acts[0] {
        case Apply(u) => ApplyTracks(r, u, bytes, nodes, missedBytes, missedNodes);
        case Accept(_) =>
      }
      ActsTrack(ActOn(r, acts[0]), acts[1..], bytes, nodes, missedBytes, missedNodes);
    }
  }

  lemma OneAct(r: MeteredRoom, act: Act, bytes: nat, nodes: nat, accepts: Accepts)
    ensures ActAll(r, [act]) == ActOn(r, act)
    ensures AllKnown(r, [act], bytes, nodes, accepts) == KnownAct(r.doc, act, bytes, nodes, accepts)
  {
    assert [act][1..] == [];
  }

  lemma TwoActs(r: MeteredRoom, first: Act, second: Act, bytes: nat, nodes: nat, accepts: Accepts)
    requires KnownAct(r.doc, first, bytes, nodes, accepts)
    requires KnownAct(ActOn(r, first).doc, second, bytes, nodes, accepts)
    ensures ActAll(r, [first, second]) == ActOn(ActOn(r, first), second)
    ensures AllKnown(r, [first, second], bytes, nodes, accepts)
  {
    assert [first, second][1..] == [second];
    OneAct(ActOn(r, first), second, bytes, nodes, accepts);
  }

  function Nothing(doc: Metrics): Act {
    Apply(Update(0, doc, false))
  }

  /** The first update of a loaded document founds a validator and accepts what it measures. */
  lemma NothingFounds(r: MeteredRoom, acts: seq<Act>, bytes: nat, nodes: nat, accepts: Accepts)
    requires Begins(JustAccepted, r) && AllKnown(r, acts, bytes, nodes, accepts)
    ensures var loaded := MeteredRoom(NO_ACCOUNT, r.doc);
      && Begins(JustLoaded, loaded) && ActOn(loaded, Nothing(r.doc)) == r
      && AllKnown(loaded, [Nothing(r.doc)] + acts, bytes, nodes, accepts)
      && ActAll(loaded, [Nothing(r.doc)] + acts) == ActAll(r, acts)
  {
    assert ([Nothing(r.doc)] + acts)[1..] == acts;
  }

  lemma LoadedIsNoEasier(start: Start, bytes: nat, nodes: nat, accepts: Accepts)
    ensures KeepsCaps(start, bytes, nodes, accepts) ==> KeepsCaps(JustAccepted, bytes, nodes, accepts)
  {
    if KeepsCaps(start, bytes, nodes, accepts) && start == JustLoaded {
      forall r: MeteredRoom, acts: seq<Act> | Begins(JustAccepted, r) && AllKnown(r, acts, bytes, nodes, accepts)
        ensures Capped(ActAll(r, acts).doc)
      {
        NothingFounds(r, acts, bytes, nodes, accepts);
      }
    }
  }

  /** The exact strength of the amortised check while no store settles: it holds the size and node
      caps exactly up to 24 content bytes and one node per update byte. */
  lemma AmortisedBoundIsExact(start: Start, bytes: nat, nodes: nat)
    ensures KeepsCaps(start, bytes, nodes, Never) <==> bytes <= 24 && nodes <= 1
  {
    if bytes <= 24 && nodes <= 1 {
      forall r: MeteredRoom, acts: seq<Act> | Begins(start, r) && AllKnown(r, acts, bytes, nodes, Never)
        ensures Capped(ActAll(r, acts).doc)
      {
        NeverIsMissing(r, acts, bytes, nodes);
        ActsTrack(r, acts, bytes, nodes, 0, 0);
      }
    } else {
      var doc := Metrics(1_878_437, 0, 1);
      var candidate := if nodes > 1 then doc.(nodeCount := 17_999) else doc.(contentBytes := 2_103_412);
      var r, act := Accepted(doc), Apply(Update(8_999, candidate, false));
      Multiply(if nodes > 1 then 2 else 25, if nodes > 1 then nodes else bytes, 8_999);
      OneAct(r, act, bytes, nodes, Never);
      assert Begins(JustAccepted, r) && !Capped(ActAll(r, [act]).doc);
      LoadedIsNoEasier(start, bytes, nodes, Never);
    }
  }

  lemma {:induction false} NeverIsMissing(r: MeteredRoom, acts: seq<Act>, bytes: nat, nodes: nat)
    requires AllKnown(r, acts, bytes, nodes, Never)
    ensures AllKnown(r, acts, bytes, nodes, Missing(0, 0))
    decreases |acts|
  {
    if acts != [] {
      NeverIsMissing(ActOn(r, acts[0]), acts[1..], bytes, nodes);
    }
  }

  /** With stores settling in between, the caps hold exactly while what the accepted metrics miss of
      the document fits in what the headroom leaves over.  Accepts that miss nothing cost nothing. */
  lemma AcceptBoundIsExact(start: Start, bytes: nat, nodes: nat, missedBytes: nat, missedNodes: nat)
    ensures KeepsCaps(start, bytes, nodes, Missing(missedBytes, missedNodes))
       <==> Affordable(bytes, nodes, missedBytes, missedNodes)
    ensures Affordable(bytes, nodes, 0, 0) <==> bytes <= 24 && nodes <= 1
  {
    var accepts := Missing(missedBytes, missedNodes);
    if Affordable(bytes, nodes, missedBytes, missedNodes) {
      forall r: MeteredRoom, acts: seq<Act> | Begins(start, r) && AllKnown(r, acts, bytes, nodes, accepts)
        ensures Capped(ActAll(r, acts).doc)
      {
        ActsTrack(r, acts, bytes, nodes, missedBytes, missedNodes);
      }
    } else if bytes > 0 && Peak(bytes, missedBytes) > MAX_CONTENT_BYTES {
      SizeIsMissed(bytes, nodes, missedBytes, missedNodes);
      LoadedIsNoEasier(start, bytes, nodes, accepts);
    } else {
      NodesAreMissed(bytes, nodes, missedBytes, missedNodes);
      LoadedIsNoEasier(start, bytes, nodes, accepts);
    }
  }

  lemma SizeIsMissed(bytes: nat, nodes: nat, missedBytes: nat, missedNodes: nat)
    requires bytes > 0 && Peak(bytes, missedBytes) > MAX_CONTENT_BYTES
    ensures !KeepsCaps(JustAccepted, bytes, nodes, Missing(missedBytes, missedNodes))
  {
    var m := Metrics(1_878_437, 0, 1);
    var doc := m.(contentBytes := Min(1_878_437 + missedBytes, MAX_CONTENT_BYTES));
    BreaksCaps(doc, m, bytes * 8_999, 0, 8_999, bytes, nodes, Missing(missedBytes, missedNodes));
  }

  lemma NodesAreMissed(bytes: nat, nodes: nat, missedBytes: nat, missedNodes: nat)
    requires nodes > 1 || (nodes == 1 && missedNodes > MAX_NODES / 10)
    ensures !KeepsCaps(JustAccepted, bytes, nodes, Missing(missedBytes, missedNodes))
  {
    var m := Metrics(1_000, 0, 1);
    var doc := m.(nodeCount := Min(1 + missedNodes, MAX_NODES));
    Multiply(if nodes > 1 then 2 else 1, nodes, 8_999);
    BreaksCaps(doc, m, 0, nodes * 8_999, 8_999, bytes, nodes, Missing(missedBytes, missedNodes));
  }

  /** A store settles with metrics `m`, and an update then passes that should not. */
  lemma BreaksCaps(doc: Metrics, m: Metrics, content: nat, count: nat, length: nat,
                   bytes: nat, nodes: nat, accepts: Accepts)
    requires Begins(JustAccepted, Accepted(doc)) && doc.maxDepth == 0 < doc.nodeCount
    requires Shaped(m) && Allows(accepts, doc, m)
    requires content <= bytes * length && count <= nodes * length
    requires var grown := Metrics(doc.contentBytes + content, 0, doc.nodeCount + count);
      !Capped(grown) && (!NeedsMeasure(Account(Some(m), length)) || Recovers(grown, Some(m)))
    ensures !KeepsCaps(JustAccepted, bytes, nodes, accepts)
  {
    var grown := Metrics(doc.contentBytes + content, 0, doc.nodeCount + count);
    var r, settles, act := Accepted(doc), Accept(m), Apply(Update(length, grown, false));
    TwoActs(r, settles, act, bytes, nodes, accepts);
    assert ActAll(r, [settles, act]).doc == grown;
  }

  /** Neither half of that guard can go: if accepted metrics may miss anything, or if they may be over
      the caps themselves, the caps hold for no growth at all. */
  lemma UnguardedAcceptsBreakCaps(start: Start, bytes: nat, nodes: nat)
    ensures KeepsCaps(start, bytes, nodes, UnderCaps) <==> bytes == 0 && nodes == 0
    ensures KeepsCaps(start, bytes, nodes, AtLeastDocument) <==> bytes == 0 && nodes == 0
  {
    if bytes == 0 && nodes == 0 {
      NoGrowth(start, UnderCaps);
      NoGrowth(start, AtLeastDocument);
    } else {
      var doc := Metrics(MAX_CONTENT_BYTES, 0, MAX_NODES);
      var content, count := if bytes > 0 then 1 else 0, if bytes > 0 then 0 else 1;
      var over := Metrics(MAX_CONTENT_BYTES + content, 0, MAX_NODES + count);
      BreaksCaps(doc, Metrics(EMPTY_BYTES, 0, 0), content, count, 1, bytes, nodes, UnderCaps);
      BreaksCaps(doc, over, content, count, 1, bytes, nodes, AtLeastDocument);
      LoadedIsNoEasier(start, bytes, nodes, UnderCaps);
      LoadedIsNoEasier(start, bytes, nodes, AtLeastDocument);
    }
  }

  lemma NoGrowth(start: Start, accepts: Accepts)
    ensures KeepsCaps(start, 0, 0, accepts)
  {
    forall r: MeteredRoom, acts: seq<Act> | Begins(start, r) && AllKnown(r, acts, 0, 0, accepts)
      ensures Capped(ActAll(r, acts).doc)
    {
      NeverGrows(r, acts, accepts);
    }
  }

  lemma {:induction false} NeverGrows(r: MeteredRoom, acts: seq<Act>, accepts: Accepts)
    requires Capped(r.doc) && AllKnown(r, acts, 0, 0, accepts)
    ensures Capped(ActAll(r, acts).doc)
    decreases |acts|
  {
    if acts != [] {
      assert Capped(ActOn(r, acts[0]).doc);
      NeverGrows(ActOn(r, acts[0]), acts[1..], accepts);
    }
  }

  /** The byte budget never decides: the node term counts pending bytes too and trips first. */
  lemma BudgetNeverDecides(a: Account)
    requires a.metrics.Some? && a.pendingBytes >= VALIDATION_BUDGET_BYTES
    ensures 10 * (a.metrics.value.nodeCount + a.pendingBytes) > 9 * MAX_NODES
  {
  }

  // ---------- Depth ----------

  /** A level of depth costs at least `cost` update bytes; accepted metrics are within the limit and
      no shallower than the document. */
  ghost predicate Deepens(doc: Metrics, act: Act, cost: nat)
    requires cost > 0
  {
    match act
    case Apply(u) => Shaped(u.candidate) && u.candidate.maxDepth <= doc.maxDepth + u.bytes / cost
    case Accept(m) => Shaped(m) && m.maxDepth <= MAX_DEPTH && doc.maxDepth <= m.maxDepth
  }

  ghost predicate AllDeepen(r: MeteredRoom, acts: seq<Act>, cost: nat)
    requires cost > 0
    decreases |acts|
  {
    if acts == [] then true else Deepens(r.doc, acts[0], cost) && AllDeepen(ActOn(r, acts[0]), acts[1..], cost)
  }

  ghost predicate KeepsDepth(start: Start, cost: nat)
    requires cost > 0
  {
    forall r: MeteredRoom, acts: seq<Act> ::
      Begins(start, r) && AllDeepen(r, acts, cost) ==> ActAll(r, acts).doc.maxDepth <= MAX_DEPTH
  }

  const SAFE_COST := 1_499

  ghost predicate DepthTracked(r: MeteredRoom, cost: nat)
    requires cost > 0
  {
    && Shaped(Baseline(r.account, r.doc)) && Baseline(r.account, r.doc).maxDepth <= MAX_DEPTH
    && r.doc.maxDepth <= MAX_DEPTH
    && (r.account.metrics.None? ==> WithinLimits(r.doc))
    && (r.account.metrics.Some? ==> r.doc.maxDepth <= r.account.metrics.value.maxDepth + r.account.pendingBytes / cost)
  }

  lemma DivideParts(a: nat, b: nat, cost: nat)
    requires cost > 0
    ensures a / cost + b / cost <= (a + b) / cost
  {
    var q := a / cost + b / cost;
    Distribute(cost, a / cost, b / cost);
    assert cost * (a / cost) <= a && cost * (b / cost) <= b;
    QuotientAtLeast(a + b, q, cost);
  }

  lemma QuotientAtLeast(a: nat, q: nat, cost: nat)
    requires cost > 0 && q * cost <= a
    ensures q <= a / cost
  {
    if a / cost + 1 <= q {
      Multiply(a / cost + 1, q, cost);
    }
  }

  lemma QuotientAtMost(a: nat, q: nat, cost: nat)
    requires cost > 0 && a < (q + 1) * cost
    ensures a / cost <= q
  {
    if q + 1 <= a / cost {
      Multiply(q + 1, a / cost, cost);
    }
  }

  lemma UnmeasuredDepth(depth: nat, nodes: nat, pending: nat, cost: nat)
    requires cost >= SAFE_COST && depth <= 11 && nodes + pending <= 9_000
    requires if nodes == 0 then depth == 0 else depth < nodes
    ensures depth + pending / cost <= MAX_DEPTH
  {
    if depth == 11 {
      QuotientAtMost(pending, 5, cost);
    } else {
      QuotientAtMost(pending, 6, cost);
    }
  }

  /** The arithmetic of one update, admitted unmeasured or turned away. */
  lemma OneMoreUpdate(depth: nat, doc: nat, candidate: nat, pending: nat, bytes: nat, cost: nat)
    requires cost > 0 && doc <= depth + pending / cost && candidate <= doc + bytes / cost
    ensures doc <= depth + (pending + bytes) / cost && candidate <= depth + (pending + bytes) / cost
  {
    DivideParts(pending, bytes, cost);
  }

  lemma MeasuredTracksDepth(r: MeteredRoom, u: Update, cost: nat)
    requires r.account.metrics.Some?
    requires cost >= SAFE_COST && DepthTracked(r, cost) && Deepens(r.doc, Apply(u), cost)
    ensures DepthTracked(Admit(r, u), cost)
  {
    var base, counted := r.account.metrics.value, r.account.pendingBytes + u.bytes;
    AdmitCases(r, u);
    OneMoreUpdate(base.maxDepth, r.doc.maxDepth, u.candidate.maxDepth, r.account.pendingBytes, u.bytes, cost);
    if Admit(r, u) == MeteredRoom(r.account.(pendingBytes := counted), u.candidate) {
      if !NeedsMeasure(r.account.(pendingBytes := counted)) {
        UnmeasuredDepth(base.maxDepth, base.nodeCount, counted, cost);
      }
    } else if Admit(r, u) == Accepted(u.candidate) {
      assert 0 / cost == 0;
    }
  }

  lemma ApplyTracksDepth(r: MeteredRoom, u: Update, cost: nat)
    requires cost >= SAFE_COST && DepthTracked(r, cost) && Deepens(r.doc, Apply(u), cost)
    ensures DepthTracked(Admit(r, u), cost)
  {
    if r.account.metrics.None? {
      AdmitFirst(r, u);
    } else {
      MeasuredTracksDepth(r, u, cost);
    }
  }

  lemma {:induction false} ActsTrackDepth(r: MeteredRoom, acts: seq<Act>, cost: nat)
    requires cost >= SAFE_COST && DepthTracked(r, cost) && AllDeepen(r, acts, cost)
    ensures DepthTracked(ActAll(r, acts), cost)
    decreases |acts|
  {
    if acts != [] {
      match acts[0] {
        case Apply(u) => ApplyTracksDepth(r, u, cost);
        case Accept(_) =>
      }
      ActsTrackDepth(ActOn(r, acts[0]), acts[1..], cost);
    }
  }

  lemma NothingDeepens(r: MeteredRoom, acts: seq<Act>, cost: nat)
    requires cost > 0 && Begins(JustAccepted, r) && AllDeepen(r, acts, cost)
    ensures var loaded := MeteredRoom(NO_ACCOUNT, r.doc);
      && Begins(JustLoaded, loaded) && AllDeepen(loaded, [Nothing(r.doc)] + acts, cost)
      && ActAll(loaded, [Nothing(r.doc)] + acts) == ActAll(r, acts)
  {
    assert ([Nothing(r.doc)] + acts)[1..] == acts;
    assert ActOn(MeteredRoom(NO_ACCOUNT, r.doc), Nothing(r.doc)) == r;
  }

  /** The margin of four levels keeps the depth limit exactly when every level costs at least 1499
      bytes of update. */
  lemma DepthBoundIsExact(start: Start, cost: nat)
    requires cost > 0
    ensures KeepsDepth(start, cost) <==> cost >= SAFE_COST
  {
    if cost >= SAFE_COST {
      forall r: MeteredRoom, acts: seq<Act> | Begins(start, r) && AllDeepen(r, acts, cost)
        ensures ActAll(r, acts).doc.maxDepth <= MAX_DEPTH
      {
        ActsTrackDepth(r, acts, cost);
      }
    } else {
      var r, act := Accepted(Metrics(1_000, 11, 12)), Apply(SixLevels(cost));
      DeepensUnmeasured(cost);
      OneAct(r, act, 0, 0, Never);
      assert [act][1..] == [] && AllDeepen(r, [act], cost);
      NothingDeepens(r, [act], cost);
    }
  }

  function SixLevels(cost: nat): Update {
    Update(6 * cost, Metrics(1_000, 17, 18), false)
  }

  /** At any lower cost an update of six levels passes unmeasured and leaves the document too deep. */
  lemma DeepensUnmeasured(cost: nat)
    requires 0 < cost < SAFE_COST
    ensures var r, u := Accepted(Metrics(1_000, 11, 12)), SixLevels(cost);
      && Begins(JustAccepted, r) && Deepens(r.doc, Apply(u), cost)
      && !NeedsMeasure(r.account.(pendingBytes := u.bytes))
      && Admit(r, u).doc == u.candidate && u.candidate.maxDepth == MAX_DEPTH + 1
  {
    QuotientAtLeast(6 * cost, 6, cost);
  }
}
