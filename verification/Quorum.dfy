/** The acknowledgement quorum of a distributed eviction. */
module Quorum {
  import opened Documents

  type Request = nat
  type Instance = nat

  datatype Waiter = Waiter(expected: set<Instance>, received: set<Instance>)

  /** `resolved`: calls of `resolve`, in order. */
  datatype Waiting = Waiting(waiters: map<Request, Waiter>, resolved: seq<(Request, bool)>)

  function Resolve(w: Waiting, request: Request, ok: bool): Waiting {
    Waiting(w.waiters - {request}, w.resolved + [(request, ok)])
  }

  function Acknowledge(w: Waiting, request: Request, instance: Instance, ok: bool): Waiting {
    if request !in w.waiters then w
    else if !ok then Resolve(w, request, false)
    else
      var waiter := w.waiters[request];
      if instance !in waiter.expected then w
      else
        var received := waiter.received + {instance};
        if |received| < |waiter.expected|
        then w.(waiters := w.waiters[request := Waiter(waiter.expected, received)])
        else Resolve(w, request, true)
  }

  function TimeOut(w: Waiting, request: Request): Waiting {
    if request in w.waiters then Resolve(w, request, false) else w
  }

  class EvictionWaiters {
    var waiters: map<Request, Waiter>
    var resolved: seq<(Request, bool)>

    function View(): Waiting
      reads this
    {
      Waiting(waiters, resolved)
    }

    constructor ()
      ensures View() == Waiting(map[], [])
    {
      waiters, resolved := map[], [];
    }

    method Register(request: Request, expected: set<Instance>)
      modifies this
      ensures View() == old(View()).(waiters := old(waiters)[request := Waiter(expected, {})])
    {
      waiters := waiters[request := Waiter(expected, {})];
    }

    method RecordEvictionAck(request: Request, instance: Instance, ok: bool)
      modifies this
      ensures View() == Acknowledge(old(View()), request, instance, ok)
    {
      if request !in waiters {
        return;
      }
      var waiter := waiters[request];
      if !ok {
        waiters := waiters - {request};
        resolved := resolved + [(request, false)];
        return;
      }
      if instance !in waiter.expected {
        return;
      }
      waiter := waiter.(received := waiter.received + {instance});
      waiters := waiters[request := waiter];
      if |waiter.received| < |waiter.expected| {
        return;
      }
      waiters := waiters - {request};
      resolved := resolved + [(request, true)];
      assert waiters == old(waiters) - {request};
    }

    method Expire(request: Request)
      modifies this
      ensures View() == TimeOut(old(View()), request)
    {
      if request in waiters {
        waiters := waiters - {request};
        resolved := resolved + [(request, false)];
      }
    }
  }

  // ---------- Every run of one instance ----------

  /** `snapshots`: the instances each request was sent to.  `positive`: who acknowledged it ok,
      `negative`: which were refused by someone, `late`: which timed out or could not be announced, each
      since the request was registered.  `acted`: requests whose guarded action ran. */
  datatype State = State(waiting: Waiting, snapshots: map<Request, set<Instance>>,
                         positive: map<Request, set<Instance>>, negative: set<Request>,
                         late: set<Request>, acted: set<Request>)

  const START := State(Waiting(map[], []), map[], map[], {}, {}, {})

  /** Acknowledgements arrive in any order, repeatedly, for any request and from anyone. */
  datatype Event =
    | Register(request: Request, expected: set<Instance>)
    | Ack(request: Request, instance: Instance, ok: bool)
    | Expire(request: Request)
    | Act(request: Request)

  predicate Enabled(s: State, e: Event) {
    match e
    case Register(request, expected) => request !in s.snapshots && expected != {}
    case Ack(_, _, _) => true
    case Expire(_) => true
    case Act(request) => (request, true) in s.waiting.resolved
  }

  function PositiveOf(s: State, request: Request): set<Instance> {
    if request in s.positive then s.positive[request] else {}
  }

  function Step(s: State, e: Event): State
    requires Enabled(s, e)
  {
    match e
    case Register(request, expected) =>
      s.(waiting := s.waiting.(waiters := s.waiting.waiters[request := Waiter(expected, {})]),
         snapshots := s.snapshots[request := expected], positive := s.positive[request := {}])
    case Ack(request, instance, ok) =>
      var after := s.(waiting := Acknowledge(s.waiting, request, instance, ok));
      if request !in s.snapshots then after
      else if ok then after.(positive := s.positive[request := PositiveOf(s, request) + {instance}])
      else after.(negative := s.negative + {request})
    case Expire(request) =>
      s.(waiting := TimeOut(s.waiting, request),
         late := if request in s.snapshots then s.late + {request} else s.late)
    case Act(request) => s.(acted := s.acted + {request})
  }

  ghost predicate Possible(s: State, events: seq<Event>)
    decreases |events|
  {
    if events == [] then true else Enabled(s, events[0]) && Possible(Step(s, events[0]), events[1..])
  }

  function After(s: State, events: seq<Event>): State
    requires Possible(s, events)
    decreases |events|
  {
    if events == [] then s else After(Step(s, events[0]), events[1..])
  }

  ghost predicate WaiterInv(s: State, request: Request)
    requires request in s.waiting.waiters
  {
    var waiter := s.waiting.waiters[request];
    && request in s.snapshots && waiter.expected == s.snapshots[request] && waiter.expected != {}
    && waiter.received < waiter.expected
    && waiter.received == waiter.expected * PositiveOf(s, request)
    && request !in s.negative && request !in s.late
    && (request, true) !in s.waiting.resolved && (request, false) !in s.waiting.resolved
  }

  ghost predicate ResolvedInv(s: State, r: (Request, bool)) {
    && r.0 in s.snapshots && r.0 !in s.waiting.waiters
    && (r.1 ==> s.snapshots[r.0] <= PositiveOf(s, r.0))
    && (!r.1 ==> r.0 in s.negative || r.0 in s.late)
  }

  ghost predicate Inv(s: State) {
    && (forall request :: request in s.waiting.waiters ==> WaiterInv(s, request))
    && (forall r :: r in s.waiting.resolved ==> ResolvedInv(s, r))
    && (forall i, j :: 0 <= i < j < |s.waiting.resolved| ==> s.waiting.resolved[i].0 != s.waiting.resolved[j].0)
    && (forall request :: request in s.acted ==> (request, true) in s.waiting.resolved)
    && (forall request :: request in s.snapshots ==> OutcomeInv(s, request))
    && (forall request :: request in s.negative || request in s.late || request in s.positive ==> request in s.snapshots)
  }

  /** A registered request waits or has resolved. */
  ghost predicate OutcomeInv(s: State, request: Request) {
    request in s.waiting.waiters || (request, true) in s.waiting.resolved || (request, false) in s.waiting.resolved
  }

  lemma {:induction false} StrictSubset(a: set<Instance>, b: set<Instance>)
    requires a <= b
    ensures |a| <= |b|
    ensures |a| < |b| <==> a < b
  {
    if a != {} {
      var x :| x in a;
      StrictSubset(a - {x}, b - {x});
      assert a < b <==> a - {x} < b - {x};
    }
  }

  /** What the bookkeeping around a step may do: grow, for registered requests only. */
  ghost predicate Records(s: State, s': State) {
    && s'.snapshots == s.snapshots && s.negative <= s'.negative && s.late <= s'.late
    && (forall request :: PositiveOf(s, request) <= PositiveOf(s', request))
    && (forall request :: request in s'.negative || request in s'.late || request in s'.positive ==>
          request in s'.snapshots)
  }

  lemma OutcomeStays(s: State, s': State, request: Request, ok: bool, other: Request)
    requires OutcomeInv(s, other) && s'.waiting == Resolve(s.waiting, request, ok)
    ensures OutcomeInv(s', other)
  {
    assert s'.waiting.resolved[|s.waiting.resolved|] == (request, ok);
    assert forall r :: r in s.waiting.resolved ==> r in s'.waiting.resolved;
  }

  lemma ResolveKeeps(s: State, s': State, request: Request, ok: bool)
    requires Inv(s) && request in s.waiting.waiters && Records(s, s')
    requires s'.waiting == Resolve(s.waiting, request, ok) && s'.acted == s.acted
    requires forall other :: other != request ==>
               && PositiveOf(s', other) == PositiveOf(s, other)
               && (other in s'.negative <==> other in s.negative) && (other in s'.late <==> other in s.late)
    requires ok ==> s.snapshots[request] <= PositiveOf(s', request)
    requires !ok ==> request in s'.negative || request in s'.late
    ensures Inv(s')
  {
    assert WaiterInv(s, request);
    var log := s.waiting.resolved;
    forall r | r in s'.waiting.resolved ensures ResolvedInv(s', r) {
      assert r in log ==> ResolvedInv(s, r);
    }
    forall other | other in s'.waiting.waiters ensures WaiterInv(s', other) {
      assert WaiterInv(s, other);
    }
    forall i | 0 <= i < |log| ensures log[i].0 != request {
      assert log[i] in log && ResolvedInv(s, log[i]);
    }
    forall other | other in s'.snapshots ensures OutcomeInv(s', other) {
      OutcomeStays(s, s', request, ok, other);
    }
  }

  /** A step that resolves nothing, and after which every waiter has what it should. */
  lemma KeepsWaiting(s: State, s': State)
    requires Inv(s) && Records(s, s') && s'.waiting.resolved == s.waiting.resolved
    requires s'.waiting.waiters.Keys == s.waiting.waiters.Keys
    requires forall request :: request in s.waiting.waiters ==> Waits(s, s', request)
    requires forall request :: request in s'.acted ==> (request, true) in s'.waiting.resolved
    ensures Inv(s')
  {
    forall r | r in s'.waiting.resolved ensures ResolvedInv(s', r) {
      assert ResolvedInv(s, r);
    }
    forall other | other in s'.waiting.waiters ensures WaiterInv(s', other) {
      assert WaiterInv(s, other) && Waits(s, s', other);
    }
    forall other | other in s'.snapshots ensures OutcomeInv(s', other) {
      assert OutcomeInv(s, other);
    }
  }

  ghost predicate Waits(s: State, s': State, request: Request)
    requires request in s.waiting.waiters && request in s'.waiting.waiters
  {
    var waiter, waiter' := s.waiting.waiters[request], s'.waiting.waiters[request];
    && waiter'.expected == waiter.expected
    && waiter'.received < waiter'.expected
    && waiter'.received == waiter'.expected * PositiveOf(s', request)
    && (request in s'.negative <==> request in s.negative) && (request in s'.late <==> request in s.late)
  }

  /** One more acknowledgement of a waiter that is not complete. */
  lemma OneMore(expected: set<Instance>, received: set<Instance>, instance: Instance)
    requires received < expected && instance in expected
    ensures |received + {instance}| < |expected| <==> expected - received != {instance}
    ensures received + {instance} <= expected
    ensures received + {instance} == expected <==> expected - received == {instance}
    ensures instance in received ==> received + {instance} == received && expected - received != {instance}
  {
    StrictSubset(received + {instance}, expected);
    if expected - received == {instance} {
      assert forall x :: x in expected ==> x in received + {instance};
    }
  }

  /** It completes the request, and so has everyone. */
  lemma CompletingKeeps(s: State, request: Request, instance: Instance)
    requires Inv(s) && request in s.waiting.waiters
    requires var waiter := s.waiting.waiters[request];
      instance in waiter.expected && waiter.expected - waiter.received == {instance}
    ensures Inv(Step(s, Ack(request, instance, true)))
  {
    assert WaiterInv(s, request);
    OneMore(s.waiting.waiters[request].expected, s.waiting.waiters[request].received, instance);
    ResolveKeeps(s, Step(s, Ack(request, instance, true)), request, true);
  }

  lemma RecordedWaits(s: State, request: Request, instance: Instance)
    requires request in s.waiting.waiters && WaiterInv(s, request)
    requires var waiter := s.waiting.waiters[request];
      instance !in waiter.expected || waiter.expected - waiter.received != {instance}
    ensures var s' := Step(s, Ack(request, instance, true));
      && s'.waiting.waiters.Keys == s.waiting.waiters.Keys && s'.waiting.resolved == s.waiting.resolved
      && Waits(s, s', request)
      && (forall other :: other in s.waiting.waiters && other != request ==>
            s'.waiting.waiters[other] == s.waiting.waiters[other])
  {
    var waiter := s.waiting.waiters[request];
    if instance in waiter.expected {
      OneMore(waiter.expected, waiter.received, instance);
      assert waiter.received + {instance} == waiter.expected * (PositiveOf(s, request) + {instance});
    } else {
      assert waiter.received == waiter.expected * (PositiveOf(s, request) + {instance});
    }
  }

  lemma AckRecords(s: State, request: Request, instance: Instance, ok: bool)
    requires forall r :: r in s.negative || r in s.late || r in s.positive ==> r in s.snapshots
    ensures Records(s, Step(s, Ack(request, instance, ok)))
    ensures forall other :: other != request ==>
              PositiveOf(Step(s, Ack(request, instance, ok)), other) == PositiveOf(s, other)
  {
  }

  lemma OtherWaits(s: State, s': State, other: Request)
    requires other in s.waiting.waiters && other in s'.waiting.waiters && WaiterInv(s, other)
    requires s'.waiting.waiters[other] == s.waiting.waiters[other] && PositiveOf(s', other) == PositiveOf(s, other)
    requires s'.negative == s.negative && s'.late == s.late
    ensures Waits(s, s', other)
  {
  }

  /** It does not, and is only recorded. */
  lemma RecordingKeeps(s: State, request: Request, instance: Instance)
    requires Inv(s) && request in s.waiting.waiters
    requires var waiter := s.waiting.waiters[request];
      instance !in waiter.expected || waiter.expected - waiter.received != {instance}
    ensures Inv(Step(s, Ack(request, instance, true)))
  {
    var s' := Step(s, Ack(request, instance, true));
    assert WaiterInv(s, request);
    RecordedWaits(s, request, instance);
    AckRecords(s, request, instance, true);
    forall other | other in s.waiting.waiters ensures Waits(s, s', other) {
      if other != request {
        assert WaiterInv(s, other);
        OtherWaits(s, s', other);
      }
    }
    KeepsWaiting(s, s');
  }

  lemma AckKeeps(s: State, request: Request, instance: Instance, ok: bool)
    requires Inv(s)
    ensures Inv(Step(s, Ack(request, instance, ok)))
  {
    var s' := Step(s, Ack(request, instance, ok));
    if request !in s.waiting.waiters {
      forall other | other in s.waiting.waiters ensures Waits(s, s', other) {
        assert WaiterInv(s, other);
      }
      KeepsWaiting(s, s');
    } else {
      assert WaiterInv(s, request);
      if ok {
        var waiter := s.waiting.waiters[request];
        if instance in waiter.expected && waiter.expected - waiter.received == {instance} {
          CompletingKeeps(s, request, instance);
        } else {
          RecordingKeeps(s, request, instance);
        }
      } else {
        ResolveKeeps(s, s', request, false);
      }
    }
  }

  lemma RegisterKeeps(s: State, request: Request, expected: set<Instance>)
    requires Inv(s) && Enabled(s, Register(request, expected))
    ensures Inv(Step(s, Register(request, expected)))
  {
    var s' := Step(s, Register(request, expected));
    forall r | r in s'.waiting.resolved ensures ResolvedInv(s', r) && r.0 != request {
      assert ResolvedInv(s, r);
    }
    forall other | other in s'.waiting.waiters ensures WaiterInv(s', other) {
      assert other != request ==> WaiterInv(s, other);
    }
    forall other | other in s'.snapshots ensures OutcomeInv(s', other) {
      assert other != request ==> OutcomeInv(s, other);
    }
  }

  lemma QuietKeeps(s: State, s': State)
    requires Inv(s) && Records(s, s') && s'.waiting == s.waiting && s'.positive == s.positive
    requires forall request :: request in s.waiting.waiters ==>
               (request in s'.negative <==> request in s.negative) && (request in s'.late <==> request in s.late)
    requires forall request :: request in s'.acted ==> (request, true) in s'.waiting.resolved
    ensures Inv(s')
  {
    forall other | other in s.waiting.waiters ensures Waits(s, s', other) {
      assert WaiterInv(s, other);
    }
    KeepsWaiting(s, s');
  }

  lemma StepKeeps(s: State, e: Event)
    requires Inv(s) && Enabled(s, e)
    ensures Inv(Step(s, e))
  {
    match e
    case Register(request, expected) => RegisterKeeps(s, request, expected);
    case Ack(request, instance, ok) => AckKeeps(s, request, instance, ok);
    case Expire(request) =>
      if request in s.waiting.waiters {
        assert WaiterInv(s, request);
        ResolveKeeps(s, Step(s, e), request, false);
      } else {
        QuietKeeps(s, Step(s, e));
      }
    case Act(request) => QuietKeeps(s, Step(s, e));
  }

  lemma {:induction false} AfterKeeps(s: State, events: seq<Event>)
    requires Inv(s) && Possible(s, events)
    ensures Inv(After(s, events))
    decreases |events|
  {
    if events != [] {
      StepKeeps(s, events[0]);
      AfterKeeps(Step(s, events[0]), events[1..]);
    }
  }

  // ---------- What the quorum promises ----------

  /** The guarded action ran only if every instance of the request's snapshot acknowledged ok; every
      request resolved at most once, and as a failure only after a refusal or a timeout. */
  lemma ActionNeedsEveryInstance(events: seq<Event>, request: Request)
    requires Possible(START, events)
    ensures var s := After(START, events);
      && (request in s.acted ==> request in s.snapshots && s.snapshots[request] <= PositiveOf(s, request))
      && (forall i, j :: 0 <= i < j < |s.waiting.resolved| ==> s.waiting.resolved[i].0 != s.waiting.resolved[j].0)
      && ((request, false) in s.waiting.resolved ==> request in s.negative || request in s.late)
      && ((request, false) in s.waiting.resolved ==> request !in s.acted)
  {
    AfterKeeps(START, events);
    var s := After(START, events);
    assert (request, true) in s.waiting.resolved ==> ResolvedInv(s, (request, true));
    assert (request, false) in s.waiting.resolved ==> ResolvedInv(s, (request, false));
  }

  /** A waiting request has received exactly the acknowledgements of its snapshot since it was
      registered. */
  lemma EveryAckIsReceived(events: seq<Event>, request: Request)
    requires Possible(START, events) && request in After(START, events).waiting.waiters
    ensures var s := After(START, events);
      && request in s.snapshots && s.waiting.waiters[request].expected == s.snapshots[request]
      && forall instance :: instance in s.waiting.waiters[request].received <==>
           instance in s.snapshots[request] && instance in PositiveOf(s, request)
  {
    AfterKeeps(START, events);
    assert WaiterInv(After(START, events), request);
  }

  /** A request that nobody refused and that did not time out has resolved true if and only if every
      member of its snapshot has acknowledged it ok, in whatever order and with whatever in between;
      until then it waits.  It resolves false only otherwise. */
  lemma ResolvesIff(events: seq<Event>, request: Request)
    requires Possible(START, events) && request in After(START, events).snapshots
    ensures var s := After(START, events);
      && (request !in s.negative && request !in s.late ==>
            && ((request, true) in s.waiting.resolved <==> s.snapshots[request] <= PositiveOf(s, request))
            && (request in s.waiting.waiters <==> !(s.snapshots[request] <= PositiveOf(s, request)))
            && (request, false) !in s.waiting.resolved)
      && (request in s.negative || request in s.late ==>
            request !in s.waiting.waiters
            && ((request, true) in s.waiting.resolved || (request, false) in s.waiting.resolved))
  {
    AfterKeeps(START, events);
    var s := After(START, events);
    assert OutcomeInv(s, request);
    assert request in s.waiting.waiters ==> WaiterInv(s, request);
    assert (request, true) in s.waiting.resolved ==> ResolvedInv(s, (request, true));
    assert (request, false) in s.waiting.resolved ==> ResolvedInv(s, (request, false));
  }

  /** Once everyone has acknowledged, and not before, the guarded action can run, and it then has. */
  lemma ActsIff(events: seq<Event>, request: Request)
    requires Possible(START, events) && request in After(START, events).snapshots
    requires request !in After(START, events).negative && request !in After(START, events).late
    ensures var s := After(START, events);
      && (Enabled(s, Act(request)) <==> s.snapshots[request] <= PositiveOf(s, request))
      && (Enabled(s, Act(request)) ==> Step(s, Act(request)).acted == s.acted + {request})
  {
    ResolvesIff(events, request);
  }

  /** What is recorded of a registered request's acknowledgements is exactly those that arrived. */
  lemma PositiveIsRecorded(s: State, e: Event, request: Request, instance: Instance)
    requires Enabled(s, e) && request in s.snapshots
    ensures instance in PositiveOf(Step(s, e), request) <==>
              instance in PositiveOf(s, request) || e == Ack(request, instance, true)
    ensures request in Step(s, e).negative <==>
              request in s.negative || exists other :: e == Ack(request, other, false)
    ensures request in Step(s, e).late <==> request in s.late || e == Expire(request)
  {
    assert e.Ack? && !e.ok && e.request == request ==> e == Ack(request, e.instance, false);
  }

  /** While a request waits: any refusal fails it at once; an unknown or repeated acknowledgement
      changes nothing; and an acknowledgement completes it exactly when it is the last one missing. */
  lemma AckDecides(events: seq<Event>, request: Request, instance: Instance)
    requires Possible(START, events) && request in After(START, events).waiting.waiters
    ensures var s := After(START, events);
            var waiter := s.waiting.waiters[request];
      && Acknowledge(s.waiting, request, instance, false) == Resolve(s.waiting, request, false)
      && (instance !in waiter.expected || instance in waiter.received ==>
            Acknowledge(s.waiting, request, instance, true) == s.waiting)
      && (Acknowledge(s.waiting, request, instance, true) == Resolve(s.waiting, request, true) <==>
            waiter.expected - waiter.received == {instance})
  {
    AfterKeeps(START, events);
    assert WaiterInv(After(START, events), request);
    WaitingDecides(After(START, events).waiting, request, instance);
  }

  lemma WaitingDecides(w: Waiting, request: Request, instance: Instance)
    requires request in w.waiters && w.waiters[request].received < w.waiters[request].expected
    ensures Acknowledge(w, request, instance, false) == Resolve(w, request, false)
    ensures var waiter := w.waiters[request];
      && (instance !in waiter.expected || instance in waiter.received ==>
            Acknowledge(w, request, instance, true) == w)
      && (Acknowledge(w, request, instance, true) == Resolve(w, request, true) <==>
            waiter.expected - waiter.received == {instance})
  {
    var waiter := w.waiters[request];
    assert |Resolve(w, request, true).resolved| == |w.resolved| + 1;
    if instance in waiter.expected {
      OneMore(waiter.expected, waiter.received, instance);
      if instance in waiter.received {
        assert w.waiters[request := waiter] == w.waiters;
      }
    }
  }

  /** An acknowledgement for a request that does not wait, resolved or never made, changes nothing. */
  lemma LateAckIsIgnored(events: seq<Event>, request: Request, instance: Instance, ok: bool, result: bool)
    requires Possible(START, events) && (request, result) in After(START, events).waiting.resolved
    ensures Acknowledge(After(START, events).waiting, request, instance, ok) == After(START, events).waiting
  {
    AfterKeeps(START, events);
    assert ResolvedInv(After(START, events), (request, result));
  }
}
