/** The durable-document protocol of one material as a step relation over any number of replicas.

    Every event is one atomic piece of the code between two awaits, or one database transaction.
    A store is split where it holds the row lock but has not committed, and again where it has
    committed but its caller has not gone on, so edits, unloads, receipt requests, projections,
    compactions and other stores interleave with it.  Clients, offline peers and
    the channel between replicas are all `Edit`: any update whose insertions are new or already
    belong to the room's epoch may reach any live document of that epoch at any time, so updates are
    lost, repeated and reordered freely.  Compaction has no guard beyond its own transaction: neither
    the eviction key nor the absence of live documents is assumed. */
module Protocol {
  import opened Documents
  import opened Limits
  import opened Validation
  import opened Persistence

  const MAX_PENDING_CHECKPOINTS := 64

  /** One room of one replica; a room name carries the epoch it was opened under. */
  datatype Site = Site(replica: nat, epoch: nat)

  /** A Y.Doc object.  It outlives its unloading when a store still refers to it. */
  datatype Instance = Instance(site: Site, doc: Doc)

  datatype Source = Live(instance: nat) | Snapshot(doc: Doc)

  /** `Locked`: the transaction has read the row and `read`, and prepared its result.
      `Committed`: the row has version `version`, and the caller has yet to settle or to fail. */
  datatype Phase = Begun | Locked(read: Doc, prepared: StoreOutcome) | Committed(read: Doc, version: nat, value: set<Id>)

  datatype Call = Call(site: Site, source: Source, claimed: set<nat>, phase: Phase)

  /** A projection request on its way to the gateway. */
  datatype Message = Message(version: nat, value: set<Id>)

  /** A receipt request and the document it was made against. */
  datatype Ask = Ask(site: Site, doc: Doc)

  /** A `checkpoint-persisted` broadcast. */
  datatype Receipt = Receipt(ids: set<nat>, version: nat)

  /** A row state, and the length of the operation log that led to it. */
  datatype Commit = Commit(epoch: nat, state: Doc, logged: nat)

  /** What happened so far; no transaction reads it. */
  datatype Trace = Trace(
    used: set<Id>,               // every id ever inserted
    known: map<nat, set<Id>>,    // ids inserted in, or carried into, each epoch
    asked: map<nat, Ask>,        // receipt requests that were queued
    receipts: set<Receipt>,      // receipts that were broadcast
    commits: seq<Commit>,        // row states, version 1 first
    log: seq<Batch>)             // the operation log

  datatype State = State(
    material: Material,
    lock: Option<nat>,           // the store call that holds the row
    instances: map<nat, Instance>,
    loaded: map<Site, nat>,
    pending: map<Site, set<nat>>,
    failed: map<Site, Doc>,
    calls: map<nat, Call>,
    messages: set<Message>,
    trace: Trace)

  datatype Event =
    | SqlWrite(content: Content)
    | Load(site: Site, instance: nat)
    | Unload(site: Site)
    | Edit(site: Site, update: Doc)
    | Request(site: Site, id: nat)
    | BeginStore(site: Site, call: nat)
    | BeginRetry(site: Site, call: nat)
    | LockRow(call: nat)
    | CommitStore(call: nat)
    | SettleStore(call: nat)
    | FailStore(call: nat, queue: bool)
    | AwaitFails(instance: nat)  // after its commit, a service command's store gives up on the projection
    | DropFailed(site: Site)
    | ReadPending
    | Deliver(message: Message)
    | Compact(epoch: nat)

  ghost predicate Init(s: State) {
    && s.material.row.None?
    && s == State(s.material, None, map[], map[], map[], map[], map[], {}, Trace({}, map[], map[], {}, [], []))
  }

  function PendingAt(s: State, site: Site): set<nat> {
    QueueOf(s.pending, site)
  }

  // ---------- The receipt queue ----------

  function QueueOf(pending: map<Site, set<nat>>, site: Site): set<nat> {
    if site in pending then pending[site] else {}
  }

  /** A request beyond the bound is dropped silently. */
  function Enqueue(pending: map<Site, set<nat>>, site: Site, id: nat): map<Site, set<nat>> {
    if |QueueOf(pending, site)| >= MAX_PENDING_CHECKPOINTS then pending
    else pending[site := QueueOf(pending, site) + {id}]
  }

  function Dequeue(pending: map<Site, set<nat>>, site: Site, claimed: set<nat>): map<Site, set<nat>> {
    var rest := QueueOf(pending, site) - claimed;
    if rest == {} then pending - {site} else pending[site := rest]
  }

  /** The module-level map of queued receipt requests, as the hooks update it. */
  class CheckpointQueue {
    var pending: map<Site, set<nat>>

    constructor ()
      ensures pending == map[]
    {
      pending := map[];
    }

    /** onStateless, for a valid request of a writable connection. */
    method Request(site: Site, id: nat)
      modifies this
      ensures pending == Enqueue(old(pending), site, id)
    {
      if site in pending {
        if |pending[site]| >= MAX_PENDING_CHECKPOINTS {
          return;
        }
        pending := pending[site := pending[site] + {id}];
      } else {
        pending := pending[site := {}];
        pending := pending[site := pending[site] + {id}];
      }
    }

    /** The copy onStoreDocument takes before the store reads the document. */
    method Claim(site: Site) returns (claimed: set<nat>)
      ensures claimed == QueueOf(pending, site)
    {
      claimed := if site in pending then pending[site] else {};
    }

    /** Requests made since the claim stay queued, and no empty queue is kept. */
    method Settle(site: Site, claimed: set<nat>)
      modifies this
      ensures pending == Dequeue(old(pending), site, claimed)
      ensures forall other :: other != site ==> QueueOf(pending, other) == QueueOf(old(pending), other)
      ensures QueueOf(pending, site) == QueueOf(old(pending), site) - claimed
    {
      if site in pending {
        pending := pending[site := pending[site] - claimed];
        if pending[site] == {} {
          pending := pending - {site};
        }
      }
    }

    /** afterUnloadDocument. */
    method Forget(site: Site)
      modifies this
      ensures pending == old(pending) - {site}
    {
      pending := pending - {site};
    }
  }

  ghost predicate Enabled(measure: Measure, s: State, e: Event) {
    match e
    case SqlWrite(_) => s.material.row.None?
    case Load(site, i) => s.lock.None? && site !in s.loaded && i !in s.instances && site.epoch >= 1
    case Unload(site) => site in s.loaded
    case Edit(site, update) =>
      && site in s.loaded && s.loaded[site] in s.instances && site.epoch in s.trace.known
      && Merge(s.instances[s.loaded[site]].doc, update).WellFormed()
      && update.inserted * s.trace.used <= s.trace.known[site.epoch]
    case Request(site, id) =>
      site in s.loaded && s.loaded[site] in s.instances && id !in s.trace.asked
    case BeginStore(site, c) => site in s.loaded && c !in s.calls
    case BeginRetry(site, c) => site in s.failed && c !in s.calls
    case LockRow(c) =>
      && c in s.calls && s.calls[c].phase.Begun? && s.lock.None?
      && (s.calls[c].source.Live? ==> s.calls[c].source.instance in s.instances)
      && StoreRow(measure, s.material, s.calls[c].site.epoch, SourceDoc(s, s.calls[c].source)).Stored?
    case CommitStore(c) => c in s.calls && s.calls[c].phase.Locked? && s.calls[c].phase.prepared.Stored?
    case SettleStore(c) => c in s.calls && s.calls[c].phase.Committed?
    case FailStore(c, _) =>
      c in s.calls && (s.calls[c].source.Live? ==> s.calls[c].source.instance in s.instances)
    case AwaitFails(i) => i in s.instances
    case DropFailed(_) => true
    case ReadPending => true
    case Deliver(message) => message in s.messages && s.lock.None?
    case Compact(_) => s.lock.None?
  }

  function SourceDoc(s: State, source: Source): Doc
    requires source.Live? ==> source.instance in s.instances
  {
    match source
    case Live(i) => s.instances[i].doc
    case Snapshot(doc) => doc
  }

  function Step(measure: Measure, s: State, e: Event): State
    requires Enabled(measure, s, e)
  {
    match e
    case SqlWrite(content) => s.(material := s.material.(content := content))
    case Load(site, i) => AfterLoad(s, site, i)
    case Unload(site) => s.(loaded := s.loaded - {site}, pending := s.pending - {site})
    case Edit(site, update) => AfterEdit(s, site, update)
    case Request(site, id) => AfterRequest(s, site, id)
    case BeginStore(site, c) =>
      s.(calls := s.calls[c := Call(site, Live(s.loaded[site]), PendingAt(s, site), Begun)])
    case BeginRetry(site, c) =>
      s.(calls := s.calls[c := Call(site, Snapshot(s.failed[site]), {}, Begun)])
    case LockRow(c) =>
      var call := s.calls[c];
      var doc := SourceDoc(s, call.source);
      s.(lock := Some(c),
         calls := s.calls[c := call.(phase := Locked(doc, StoreRow(measure, s.material, call.site.epoch, doc)))])
    case CommitStore(c) => AfterCommit(s, c)
    case SettleStore(c) => AfterSettle(s, c)
    case FailStore(c, queue) => AfterFailure(s, c, queue)
    case AwaitFails(i) => s.(failed := s.failed[s.instances[i].site := s.instances[i].doc])
    case DropFailed(site) => s.(failed := s.failed - {site})
    case ReadPending => AfterReadPending(s)
    case Deliver(message) =>
      (match ProjectRow(s.material, message.version, message.value)
       case Advanced(m) => s.(material := m)
       case _ => s)
    case Compact(epoch) => AfterCompact(s, epoch)
  }

  /** onLoadDocument: the transaction of `load`, whose result becomes the site's document.  The first
      load of a material bootstraps the row, which is version 1. */
  function AfterLoad(s: State, site: Site, i: nat): State {
    match LoadRow(s.material, site.epoch)
    case LoadRefused(_) => s
    case Loaded(row) =>
      var started := s.(material := s.material.(row := Some(row)),
                        instances := s.instances[i := Instance(site, row.state)],
                        loaded := s.loaded[site := i]);
      if s.material.row.Some? then started
      else started.(trace := s.trace.(
        used := s.trace.used + row.state.inserted,
        known := s.trace.known[site.epoch := row.state.inserted],
        commits := s.trace.commits + [Commit(site.epoch, row.state, |s.trace.log| + 1)],
        log := s.trace.log + [Batch(row.state.inserted, {})]))
  }

  function AfterEdit(s: State, site: Site, update: Doc): State
    requires site in s.loaded && s.loaded[site] in s.instances && site.epoch in s.trace.known
  {
    var i := s.loaded[site];
    s.(instances := s.instances[i := s.instances[i].(doc := Merge(s.instances[i].doc, update))],
       trace := s.trace.(used := s.trace.used + update.inserted,
                         known := s.trace.known[site.epoch := s.trace.known[site.epoch] + update.inserted]))
  }

  function AfterRequest(s: State, site: Site, id: nat): State
    requires site in s.loaded && s.loaded[site] in s.instances
  {
    if |PendingAt(s, site)| >= MAX_PENDING_CHECKPOINTS then s
    else s.(pending := Enqueue(s.pending, site, id),
            trace := s.trace.(asked := s.trace.asked[id := Ask(site, s.instances[s.loaded[site]].doc)]))
  }

  /** COMMIT of a prepared store: the row changes and the lock is released. */
  function AfterCommit(s: State, c: nat): State
    requires c in s.calls && s.calls[c].phase.Locked? && s.calls[c].phase.prepared.Stored?
  {
    var prepared := s.calls[c].phase.prepared;
    var row := prepared.row;
    var before := if s.material.row.Some? then s.material.row.value.state else EMPTY_DOC;
    s.(material := s.material.(row := Some(row)), lock := None,
       calls := s.calls[c := s.calls[c].(phase := Committed(s.calls[c].phase.read, row.stored, prepared.value))],
       trace := s.trace.(commits := s.trace.commits + [Commit(row.epoch, row.state, |s.trace.log| + 1)],
                         log := s.trace.log + [Unseen(before, row.state)]))
  }

  /** What the caller does once it hears of the commit.  Only onStoreDocument settles receipts. */
  function AfterSettle(s: State, c: nat): State
    requires c in s.calls && s.calls[c].phase.Committed?
  {
    var call := s.calls[c];
    var done := s.(calls := s.calls - {c}, failed := s.failed - {call.site},
                   messages := s.messages + {Message(call.phase.version, call.phase.value)});
    if call.source.Snapshot? then done
    else done.(pending := Dequeue(s.pending, call.site, call.claimed),
               trace := s.trace.(receipts := s.trace.receipts + {Receipt(call.claimed, call.phase.version)}))
  }

  /** The catch block: roll back, and queue the live document for a retry or not.  A commit whose
      answer was lost ends here too. */
  function AfterFailure(s: State, c: nat, queue: bool): State
    requires c in s.calls && (s.calls[c].source.Live? ==> s.calls[c].source.instance in s.instances)
  {
    var call := s.calls[c];
    s.(calls := s.calls - {c}, lock := if s.lock == Some(c) then None else s.lock,
       failed := if queue && call.source.Live?
                 then s.failed[call.site := s.instances[call.source.instance].doc] else s.failed)
  }

  /** The retry loop of the projection service reads a lagging row without the lock. */
  function AfterReadPending(s: State): State {
    if s.material.row.Some? && s.material.row.value.projected < s.material.row.value.stored then
      var row := s.material.row.value;
      s.(messages := s.messages + {Message(row.stored, row.state.Value())})
    else s
  }

  function AfterCompact(s: State, epoch: nat): State {
    match CompactRow(s.material, epoch)
    case Compacted(row) =>
      s.(material := s.material.(row := Some(row)),
         trace := s.trace.(known := s.trace.known[row.epoch := row.state.inserted],
                           commits := s.trace.commits + [Commit(row.epoch, row.state, |s.trace.log|)]))
    case _ => s
  }

  ghost predicate Run(measure: Measure, states: seq<State>, events: seq<Event>) {
    && |states| == |events| + 1
    && Init(states[0])
    && forall i :: 0 <= i < |events| ==> StepAt(measure, states, events, i)
  }

  ghost predicate StepAt(measure: Measure, states: seq<State>, events: seq<Event>, i: nat)
    requires i < |events| && |states| == |events| + 1
  {
    Enabled(measure, states[i], events[i]) && states[i + 1] == Step(measure, states[i], events[i])
  }
}
