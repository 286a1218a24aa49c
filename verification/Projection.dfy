/** The projection service: bounded retry passes over the rows whose read projection lags. */
module Projection {
  import opened Documents
  import opened Persistence

  const BATCH := 25

  /** One material's row with the columns the retry query and the error report use. */
  datatype Tracked = Tracked(material: Material, updatedAt: nat, failed: bool)

  datatype PendingRow = PendingRow(id: nat, version: nat, value: set<Id>)

  type Rows = map<nat, Tracked>

  ghost predicate Sound(rows: Rows) {
    forall id :: id in rows ==>
      && rows[id].material.row.Some? && !rows[id].material.content.Missing?
      && rows[id].material.row.value.projected <= rows[id].material.row.value.stored
  }

  function Lagging(rows: Rows): set<nat> {
    set id | id in rows && rows[id].material.row.Some?
          && rows[id].material.row.value.projected < rows[id].material.row.value.stored
  }

  ghost predicate Increasing(rows: Rows, queue: seq<nat>) {
    && (forall id :: id in queue ==> id in rows)
    && forall i, j :: 0 <= i < j < |queue| ==> rows[queue[i]].updatedAt < rows[queue[j]].updatedAt
  }

  /** The lagging rows, oldest update first. */
  ghost predicate Ordered(rows: Rows, queue: seq<nat>) {
    Increasing(rows, queue) && forall id :: id in queue <==> id in Lagging(rows)
  }

  /** A pending row carries the version and the value its material has together. */
  ghost predicate ReadFrom(rows: Rows, r: PendingRow) {
    && r.id in Lagging(rows)
    && r.version == rows[r.id].material.row.value.stored
    && r.value == rows[r.id].material.row.value.state.Value()
  }

  function Ids(batch: seq<PendingRow>): seq<nat> {
    seq(|batch|, i requires 0 <= i < |batch| => batch[i].id)
  }

  /** A row after the gateway has answered for it: brought up to date, or marked with an error. */
  function Answered(t: Tracked, rejected: bool): Tracked {
    if t.material.row.None? then t
    else if rejected then t.(failed := true)
    else
      var row := t.material.row.value;
      Tracked(Material(Some(row.(projected := row.stored)), Plate(row.state.Value())), t.updatedAt, false)
  }

  function AnsweredRows(rows: Rows, done: set<nat>, rejects: set<nat>): Rows {
    map id | id in rows :: if id in done then Answered(rows[id], id in rejects) else rows[id]
  }

  /** `batch` is what a query has read, and `rest` what it has still to read. */
  ghost predicate Taken(rows: Rows, batch: seq<PendingRow>, rest: set<nat>) {
    && (forall r :: r in batch ==> ReadFrom(rows, r))
    && (forall i, j :: 0 <= i < j < |batch| ==> batch[i].id != batch[j].id)
    && (forall id :: id in rest <==> id in Lagging(rows) && id !in Ids(batch))
  }

  ghost predicate TakenInOrder(rows: Rows, ids: seq<nat>) {
    forall queue :: Ordered(rows, queue) ==> |ids| <= |queue| && ids == queue[..|ids|]
  }

  /** An accepted row no longer lags and shows its own value; a rejected one keeps what it showed and has
      an error. */
  lemma AnsweredIsCurrent(t: Tracked, rejected: bool)
    requires t.material.row.Some?
    ensures var t' := Answered(t, rejected);
      && t'.material.row.Some? && t'.updatedAt == t.updatedAt && t'.failed == rejected
      && (rejected ==> t'.material == t.material)
      && (!rejected ==>
            && t'.material.row.value.projected == t.material.row.value.stored == t'.material.row.value.stored
            && t'.material.row.value.state == t.material.row.value.state
            && t'.material.row.value.epoch == t.material.row.value.epoch
            && t'.material.content == Plate(t.material.row.value.state.Value()))
  {
  }

  class Table {
    var rows: Rows

    constructor (rows: Rows)
      ensures this.rows == rows
    {
      this.rows := rows;
    }

    /** The query of `pending`: state and version of each row are read together. */
    method Pending(limit: nat) returns (batch: seq<PendingRow>)
      requires Sound(rows)
      ensures |batch| <= limit
      ensures forall r :: r in batch ==> ReadFrom(rows, r)
      ensures forall i, j :: 0 <= i < j < |batch| ==> batch[i].id != batch[j].id
      ensures |batch| < limit ==> forall id :: id in Lagging(rows) ==> id in Ids(batch)
      ensures forall queue :: Ordered(rows, queue) ==> |batch| <= |queue| && Ids(batch) == queue[..|batch|]
    {
      batch := [];
      var rest := Lagging(rows);
      while rest != {} && |batch| < limit
        invariant |batch| <= limit
        invariant Taken(rows, batch, rest) && TakenInOrder(rows, Ids(batch))
        decreases rest
      {
        var next := Oldest(rows, rest);
        var row := rows[next].material.row.value;
        TakeNext(rows, batch, rest, next);
        batch := batch + [PendingRow(next, row.stored, row.state.Value())];
        rest := rest - {next};
      }
    }

    /** The projection endpoint, for a material whose content it accepts or rejects. */
    method Project(r: PendingRow, rejects: set<nat>) returns (ok: bool)
      requires r.id in rows && rows[r.id].material.row.Some?
      modifies this
      ensures ok == match ProjectRow(old(rows[r.id].material), r.version, r.value)
                    case Advanced(_) => r.id !in rejects
                    case AlreadyProjected => true
                    case ProjectRefused => false
      ensures rows == match ProjectRow(old(rows[r.id].material), r.version, r.value)
                      case Advanced(m) =>
                        if r.id in rejects then old(rows)
                        else old(rows)[r.id := old(rows[r.id]).(material := m, failed := false)]
                      case _ => old(rows)
    {
      match ProjectRow(rows[r.id].material, r.version, r.value) {
        case Advanced(m) =>
          ok := r.id !in rejects;
          if ok {
            rows := rows[r.id := rows[r.id].(material := m, failed := false)];
          }
        case AlreadyProjected => ok := true;
        case ProjectRefused => ok := false;
      }
    }

    /** Recording an error does not touch `updated_at`. */
    method RecordProjectionError(id: nat)
      requires id in rows
      modifies this
      ensures rows == old(rows)[id := old(rows[id]).(failed := true)]
    {
      rows := rows[id := rows[id].(failed := true)];
    }
  }

  method Oldest(rows: Rows, ids: set<nat>) returns (oldest: nat)
    requires ids != {} && forall id :: id in ids ==> id in rows
    ensures oldest in ids && forall id :: id in ids ==> rows[oldest].updatedAt <= rows[id].updatedAt
  {
    oldest :| oldest in ids;
    var rest := ids - {oldest};
    while rest != {}
      invariant rest <= ids && oldest in ids
      invariant forall id :: id in ids - rest ==> rows[oldest].updatedAt <= rows[id].updatedAt
      decreases rest
    {
      var id :| id in rest;
      if rows[id].updatedAt < rows[oldest].updatedAt {
        oldest := id;
      }
      rest := rest - {id};
    }
  }

  lemma TakeInOrder(rows: Rows, ids: seq<nat>, rest: set<nat>, next: nat)
    requires TakenInOrder(rows, ids) && next in rest && forall id :: id in rest <==> id in Lagging(rows) && id !in ids
    requires forall id :: id in rest ==> rows[next].updatedAt <= rows[id].updatedAt
    ensures TakenInOrder(rows, ids + [next])
  {
    forall queue | Ordered(rows, queue) ensures |ids| + 1 <= |queue| && ids + [next] == queue[..|ids| + 1] {
      NextInQueue(rows, queue, ids, rest, next);
    }
  }

  lemma IdsAppend(batch: seq<PendingRow>, row: PendingRow)
    ensures Ids(batch + [row]) == Ids(batch) + [row.id]
    ensures forall k :: 0 <= k < |batch| ==> batch[k].id in Ids(batch)
  {
    assert forall k :: 0 <= k < |batch| ==> Ids(batch)[k] == batch[k].id;
  }

  lemma TakeNext(rows: Rows, batch: seq<PendingRow>, rest: set<nat>, next: nat)
    requires Taken(rows, batch, rest) && TakenInOrder(rows, Ids(batch)) && next in rest
    requires forall id :: id in rest ==> rows[next].updatedAt <= rows[id].updatedAt
    ensures var row := rows[next].material.row.value;
            var longer := batch + [PendingRow(next, row.stored, row.state.Value())];
      Taken(rows, longer, rest - {next}) && TakenInOrder(rows, Ids(longer))
  {
    var row := rows[next].material.row.value;
    IdsAppend(batch, PendingRow(next, row.stored, row.state.Value()));
    TakeInOrder(rows, Ids(batch), rest, next);
  }

  lemma NextInQueue(rows: Rows, queue: seq<nat>, taken: seq<nat>, rest: set<nat>, next: nat)
    requires Ordered(rows, queue) && |taken| <= |queue| && taken == queue[..|taken|]
    requires forall id :: id in rest <==> id in Lagging(rows) && id !in taken
    requires next in rest && forall id :: id in rest ==> id in rows && rows[next].updatedAt <= rows[id].updatedAt
    ensures |taken| < |queue| && queue[|taken|] == next
  {
    assert next in queue;
    var i :| 0 <= i < |queue| && queue[i] == next;
    assert forall j :: 0 <= j < |taken| ==> queue[j] == taken[j] && taken[j] in taken;
    assert i >= |taken|;
    var head := queue[|taken|];
    assert forall j :: 0 <= j < |taken| ==> taken[j] != head;
    assert head in queue;
    assert head in rest;
  }

  // ---------- The service ----------

  /** Passes interleave at their awaits: `active` are those between their first and last line. */
  datatype Flag = Flag(running: bool, active: set<nat>)

  datatype FlagEvent = Enter(pass: nat) | Leave(pass: nat)

  function FlagStep(f: Flag, e: FlagEvent): Flag {
    match e
    case Enter(p) => if f.running then f else Flag(true, f.active + {p})
    case Leave(p) => if p in f.active then Flag(false, f.active - {p}) else f
  }

  ghost predicate OneAtMost(f: Flag) {
    (f.running <==> f.active != {}) && forall p, q :: p in f.active && q in f.active ==> p == q
  }

  class ProjectionService {
    const table: Table
    var running: bool
    ghost var active: set<nat>

    ghost function Passes(): Flag
      reads `running, `active
    {
      Flag(running, active)
    }

    constructor (table: Table)
      ensures this.table == table && Passes() == Flag(false, {})
    {
      this.table := table;
      running, active := false, {};
    }

    /** The first lines of retryPending. */
    method EnterPass(ghost pass: nat) returns (entered: bool)
      modifies `running, `active
      ensures Passes() == FlagStep(old(Passes()), Enter(pass)) && entered == !old(running)
    {
      if running {
        return false;
      }
      running, active := true, active + {pass};
      return true;
    }

    /** The finally block of a pass that entered. */
    method LeavePass(ghost pass: nat)
      requires pass in active
      modifies `running, `active
      ensures Passes() == FlagStep(old(Passes()), Leave(pass))
    {
      running, active := false, active - {pass};
    }

    /** One retry pass against a gateway that rejects exactly `rejects`, between whose lines no other
        code runs.  The first rows of the queue are answered, every other row is untouched, and the
        queue becomes `Pass` of itself; a pass that finds another active does nothing. */
    method RetryPending(ghost pass: nat, rejects: set<nat>) returns (ghost answered: set<nat>)
      requires Sound(table.rows) && OneAtMost(Passes()) && pass !in active
      modifies this, table
      ensures Passes() == old(Passes())
      ensures answered <= Lagging(old(table.rows))
      ensures table.rows == AnsweredRows(old(table.rows), answered, rejects)
      ensures old(active) != {} ==> answered == {}
      ensures old(active) == {} ==> |answered| == Min(25, |Lagging(old(table.rows))|)
      ensures old(active) == {} ==>
                forall queue :: Ordered(old(table.rows), queue) ==> Ordered(table.rows, Pass(queue, rejects))
    {
      answered := {};
      assert table.rows == AnsweredRows(table.rows, {}, rejects);
      var entered := EnterPass(pass);
      if !entered {
        return;
      }
      ghost var before := table.rows;
      var batch := table.Pending(BATCH);
      answered := AnswerAll(batch, rejects);
      LeavePass(pass);
      BatchSize(before, batch, answered);
      forall queue | Ordered(before, queue) ensures Ordered(table.rows, Pass(queue, rejects)) {
        BatchIsHead(before, queue, batch, answered);
        PassOrdered(before, queue, answered, rejects);
      }
    }

    method AnswerAll(batch: seq<PendingRow>, rejects: set<nat>) returns (ghost answered: set<nat>)
      requires Sound(table.rows)
      requires forall r :: r in batch ==> ReadFrom(table.rows, r)
      requires forall i, j :: 0 <= i < j < |batch| ==> batch[i].id != batch[j].id
      modifies table
      ensures answered == set r | r in batch :: r.id
      ensures |answered| == |batch|
      ensures table.rows == AnsweredRows(old(table.rows), answered, rejects)
    {
      answered := {};
      for i := 0 to |batch|
        invariant answered == set r | r in batch[..i] :: r.id
        invariant |answered| == i
        invariant table.rows == AnsweredRows(old(table.rows), answered, rejects)
      {
        var row := batch[i];
        assert ReadFrom(old(table.rows), row);
        assert row.id !in answered;
        var ok := table.Project(row, rejects);
        if !ok {
          table.RecordProjectionError(row.id);
        }
        assert batch[..i + 1] == batch[..i] + [row];
        answered := answered + {row.id};
        assert table.rows == AnsweredRows(old(table.rows), answered, rejects);
      }
      assert batch[..|batch|] == batch;
    }
  }

  lemma BatchSize(rows: Rows, batch: seq<PendingRow>, answered: set<nat>)
    requires answered == (set r | r in batch :: r.id) && |answered| == |batch| <= BATCH
    requires forall r :: r in batch ==> ReadFrom(rows, r)
    requires |batch| < BATCH ==> forall id :: id in Lagging(rows) ==> id in Ids(batch)
    ensures answered <= Lagging(rows) && |answered| == Min(BATCH, |Lagging(rows)|)
  {
    SubsetSize(answered, Lagging(rows));
    if |batch| < BATCH {
      forall id | id in Lagging(rows) ensures id in answered {
        var k :| 0 <= k < |batch| && Ids(batch)[k] == id;
        assert batch[k] in batch;
      }
      assert answered == Lagging(rows);
    }
  }

  lemma {:induction false} SubsetSize(a: set<nat>, b: set<nat>)
    requires a <= b
    ensures |a| <= |b|
  {
    if a != {} {
      var x :| x in a;
      SubsetSize(a - {x}, b - {x});
    }
  }

  lemma BatchIsHead(rows: Rows, queue: seq<nat>, batch: seq<PendingRow>, answered: set<nat>)
    requires Ordered(rows, queue) && |batch| <= BATCH
    requires |batch| <= |queue| && Ids(batch) == queue[..|batch|]
    requires |batch| < BATCH ==> forall id :: id in Lagging(rows) ==> id in Ids(batch)
    requires answered == set r | r in batch :: r.id
    ensures forall id :: id in answered <==> id in queue[..Min(BATCH, |queue|)]
  {
    var n := |batch|;
    if n < |queue| {
      assert queue[n] in queue;
      assert forall k :: 0 <= k < n ==> queue[k] != queue[n];
      assert queue[n] in Lagging(rows) && queue[n] !in Ids(batch);
    }
    forall id ensures id in answered <==> id in Ids(batch) {
      if id in answered {
        var k :| 0 <= k < n && batch[k].id == id;
        assert Ids(batch)[k] == id;
      }
      if id in Ids(batch) {
        var k :| 0 <= k < n && Ids(batch)[k] == id;
        assert batch[k] in batch;
      }
    }
  }

  // ---------- The queue over many passes ----------

  /** The rejected elements, in order. */
  function Keep(queue: seq<nat>, rejects: set<nat>): seq<nat> {
    if queue == [] then []
    else (if queue[0] in rejects then [queue[0]] else []) + Keep(queue[1..], rejects)
  }

  /** One pass: the first batch is answered and only its rejected rows stay, at the head. */
  function Pass(queue: seq<nat>, rejects: set<nat>): seq<nat> {
    var n := Min(BATCH, |queue|);
    Keep(queue[..n], rejects) + queue[n..]
  }

  function Passes(queue: seq<nat>, rejects: set<nat>, k: nat): seq<nat>
    decreases k
  {
    if k == 0 then queue else Passes(Pass(queue, rejects), rejects, k - 1)
  }

  lemma Associate(a: seq<nat>, b: seq<nat>, c: seq<nat>)
    ensures a + (b + c) == (a + b) + c
  {
  }

  lemma {:induction false} KeepAppend(a: seq<nat>, b: seq<nat>, rejects: set<nat>)
    ensures Keep(a + b, rejects) == Keep(a, rejects) + Keep(b, rejects)
  {
    if a == [] {
      assert a + b == b;
      assert [] + Keep(b, rejects) == Keep(b, rejects);
    } else {
      var first := if a[0] in rejects then [a[0]] else [];
      KeepAppend(a[1..], b, rejects);
      assert (a + b)[1..] == a[1..] + b;
      Associate(first, Keep(a[1..], rejects), Keep(b, rejects));
    }
  }

  lemma {:induction false} KeepMembers(queue: seq<nat>, rejects: set<nat>)
    ensures |Keep(queue, rejects)| <= |queue|
    ensures forall x :: x in Keep(queue, rejects) <==> x in queue && x in rejects
    ensures Keep(Keep(queue, rejects), rejects) == Keep(queue, rejects)
  {
    if queue != [] {
      KeepMembers(queue[1..], rejects);
      var rest := Keep(queue[1..], rejects);
      if queue[0] in rejects {
        assert ([queue[0]] + rest)[1..] == rest;
      } else {
        assert [] + rest == rest;
      }
    }
  }

  ghost predicate Before(rows: Rows, a: seq<nat>, b: seq<nat>)
    requires (forall id :: id in a ==> id in rows) && (forall id :: id in b ==> id in rows)
  {
    forall x, y :: x in a && y in b ==> rows[x].updatedAt < rows[y].updatedAt
  }

  lemma ConcatIncreasing(rows: Rows, a: seq<nat>, b: seq<nat>)
    requires Increasing(rows, a) && Increasing(rows, b) && Before(rows, a, b)
    ensures Increasing(rows, a + b)
  {
    var c := a + b;
    forall i, j | 0 <= i < j < |c| ensures rows[c[i]].updatedAt < rows[c[j]].updatedAt {
      if i < |a| <= j {
        assert a[i] in a && b[j - |a|] in b;
      }
    }
  }

  lemma SplitIncreasing(rows: Rows, queue: seq<nat>, n: nat)
    requires Increasing(rows, queue) && n <= |queue|
    ensures Increasing(rows, queue[..n]) && Increasing(rows, queue[n..]) && Before(rows, queue[..n], queue[n..])
  {
    assert forall x :: x in queue[..n] || x in queue[n..] ==> x in queue;
    forall x, y | x in queue[..n] && y in queue[n..] ensures rows[x].updatedAt < rows[y].updatedAt {
      var i :| 0 <= i < n && queue[i] == x;
      var j :| n <= j < |queue| && queue[j] == y;
    }
  }

  lemma {:induction false} KeepIncreasing(rows: Rows, queue: seq<nat>, rejects: set<nat>)
    requires Increasing(rows, queue)
    ensures Increasing(rows, Keep(queue, rejects))
  {
    if queue != [] {
      SplitIncreasing(rows, queue, 1);
      KeepMembers(queue[1..], rejects);
      KeepIncreasing(rows, queue[1..], rejects);
      var first := if queue[0] in rejects then [queue[0]] else [];
      assert forall x :: x in first ==> x in queue[..1];
      ConcatIncreasing(rows, first, Keep(queue[1..], rejects));
    }
  }

  lemma PassIncreasing(rows: Rows, queue: seq<nat>, rejects: set<nat>)
    requires Increasing(rows, queue)
    ensures Increasing(rows, Pass(queue, rejects))
  {
    var n := Min(BATCH, |queue|);
    SplitIncreasing(rows, queue, n);
    KeepMembers(queue[..n], rejects);
    KeepIncreasing(rows, queue[..n], rejects);
    ConcatIncreasing(rows, Keep(queue[..n], rejects), queue[n..]);
  }

  lemma PassMembers(rows: Rows, queue: seq<nat>, rejects: set<nat>)
    requires Increasing(rows, queue)
    ensures var head := queue[..Min(BATCH, |queue|)];
      forall id :: id in Pass(queue, rejects) <==> id in queue && (id in head ==> id in rejects)
  {
    var n := Min(BATCH, |queue|);
    var head, tail := queue[..n], queue[n..];
    SplitIncreasing(rows, queue, n);
    KeepMembers(head, rejects);
    assert forall x, y :: x in head && y in tail ==> x != y;
    assert queue == head + tail;
  }

  lemma PassOrdered(rows: Rows, queue: seq<nat>, answered: set<nat>, rejects: set<nat>)
    requires Sound(rows) && Ordered(rows, queue)
    requires forall id :: id in answered <==> id in queue[..Min(BATCH, |queue|)]
    ensures Ordered(AnsweredRows(rows, answered, rejects), Pass(queue, rejects))
  {
    var after, next := AnsweredRows(rows, answered, rejects), Pass(queue, rejects);
    PassIncreasing(rows, queue, rejects);
    SameTimes(rows, after, next);
    PassMembers(rows, queue, rejects);
    AnsweredLagging(rows, answered, rejects);
  }

  lemma AnsweredLagging(rows: Rows, answered: set<nat>, rejects: set<nat>)
    ensures Lagging(AnsweredRows(rows, answered, rejects)) == Lagging(rows) - (answered - rejects)
  {
  }

  lemma SameTimes(rows: Rows, after: Rows, queue: seq<nat>)
    requires Increasing(rows, queue) && after.Keys == rows.Keys
    requires forall id :: id in rows ==> after[id].updatedAt == rows[id].updatedAt
    ensures Increasing(after, queue)
  {
    forall i, j | 0 <= i < j < |queue| ensures after[queue[i]].updatedAt < after[queue[j]].updatedAt {
      assert queue[i] in queue && queue[j] in queue;
    }
  }

  lemma {:induction false} KeepNothing(queue: seq<nat>)
    ensures Keep(queue, {}) == []
  {
    if queue != [] {
      KeepNothing(queue[1..]);
    }
  }

  /** With a gateway that accepts everything, k passes take exactly the first 25k rows: none lag
      once 25k reaches their number, and not before. */
  lemma {:induction false} PassesDrain(queue: seq<nat>, k: nat)
    ensures Passes(queue, {}, k) == queue[Min(25 * k, |queue|)..]
    ensures Passes(queue, {}, k) == [] <==> 25 * k >= |queue|
    decreases k
  {
    if k > 0 {
      var n := Min(BATCH, |queue|);
      KeepNothing(queue[..n]);
      assert Pass(queue, {}) == queue[n..];
      PassesDrain(queue[n..], k - 1);
    }
  }

  /** One pass on a row beyond the batch: it moves up by the accepted rows of the batch, and the
      rejected rows before it stay before it. */
  lemma PassMovesUp(queue: seq<nat>, rejects: set<nat>, i: nat)
    requires BATCH <= i < |queue|
    ensures var next := Pass(queue, rejects);
            var k := |Keep(queue[..BATCH], rejects)|;
      && k <= BATCH && i - BATCH + k < |next| && next[i - BATCH + k] == queue[i]
      && Keep(next[..i - BATCH + k], rejects) == Keep(queue[..i], rejects)
      && k <= |Keep(queue[..i], rejects)|
  {
    var head := queue[..BATCH];
    var next := Pass(queue, rejects);
    var kept := Keep(head, rejects);
    KeepMembers(head, rejects);
    assert next[..i - BATCH + |kept|] == kept + queue[BATCH..i];
    assert queue[..i] == head + queue[BATCH..i];
    KeepAppend(kept, queue[BATCH..i], rejects);
    KeepAppend(head, queue[BATCH..i], rejects);
  }

  ghost predicate Distinct(queue: seq<nat>) {
    forall i, j :: 0 <= i < j < |queue| ==> queue[i] != queue[j]
  }

  lemma {:induction false} KeepDistinct(queue: seq<nat>, rejects: set<nat>)
    requires Distinct(queue)
    ensures Distinct(Keep(queue, rejects))
  {
    if queue != [] {
      KeepDistinct(queue[1..], rejects);
      KeepMembers(queue[1..], rejects);
      assert queue[0] !in queue[1..];
    }
  }

  lemma PassDistinct(queue: seq<nat>, rejects: set<nat>)
    requires Distinct(queue)
    ensures Distinct(Pass(queue, rejects))
  {
    var n := Min(BATCH, |queue|);
    KeepDistinct(queue[..n], rejects);
    KeepMembers(queue[..n], rejects);
    var next, k := Pass(queue, rejects), |Keep(queue[..n], rejects)|;
    forall i, j | 0 <= i < j < |next| ensures next[i] != next[j] {
      if i < k <= j {
        assert next[i] in Keep(queue[..n], rejects) && next[i] in queue[..n];
        var a :| 0 <= a < n && queue[..n][a] == next[i];
        assert next[j] == queue[n + (j - k)];
      }
    }
  }

  /** A row is brought up to date within i + 1 passes when fewer than a batch of older rows keep
      being rejected. */
  lemma {:induction false} ServedSoon(queue: seq<nat>, rejects: set<nat>, i: nat) returns (k: nat)
    requires Distinct(queue) && i < |queue| && queue[i] !in rejects
    requires |Keep(queue[..i], rejects)| < BATCH
    ensures queue[i] !in Passes(queue, rejects, k)
    decreases i
  {
    var next := Pass(queue, rejects);
    if i < BATCH {
      var n := Min(BATCH, |queue|);
      KeepMembers(queue[..n], rejects);
      forall j | 0 <= j < |next| ensures next[j] != queue[i] {
        var kept := |Keep(queue[..n], rejects)|;
        if j < kept {
          assert next[j] in Keep(queue[..n], rejects);
        } else {
          assert next[j] == queue[n + (j - kept)];
        }
      }
      assert Passes(queue, rejects, 1) == Passes(next, rejects, 0) == next;
      k := 1;
    } else {
      PassMovesUp(queue, rejects, i);
      PassDistinct(queue, rejects);
      var i' := i - BATCH + |Keep(queue[..BATCH], rejects)|;
      var k' := ServedSoon(next, rejects, i');
      k := k' + 1;
    }
  }

  /** One pass does not help a row with a whole batch of rejected rows before it. */
  lemma StarvedStep(queue: seq<nat>, rejects: set<nat>, i: nat)
    requires i < |queue| && |Keep(queue[..i], rejects)| >= BATCH
    ensures var next, i' := Pass(queue, rejects), i - BATCH + |Keep(queue[..Min(BATCH, |queue|)], rejects)|;
      0 <= i' < |next| && next[i'] == queue[i] && |Keep(next[..i'], rejects)| >= BATCH
  {
    KeepMembers(queue[..i], rejects);
    PassMovesUp(queue, rejects, i);
  }

  lemma {:induction false} Starved(queue: seq<nat>, rejects: set<nat>, i: nat, k: nat)
    requires i < |queue| && |Keep(queue[..i], rejects)| >= BATCH
    ensures queue[i] in Passes(queue, rejects, k)
    decreases k
  {
    if k > 0 {
      StarvedStep(queue, rejects, i);
      var i' := i - BATCH + |Keep(queue[..Min(BATCH, |queue|)], rejects)|;
      Starved(Pass(queue, rejects), rejects, i', k - 1);
    }
  }

  /** Not every lagging row is eventually retried: an acceptable row is brought up to date exactly
      when fewer than 25 of the rows updated before it keep being rejected. */
  lemma EventuallyProjectedIff(queue: seq<nat>, rejects: set<nat>, i: nat)
    requires Distinct(queue) && i < |queue| && queue[i] !in rejects
    ensures (exists k: nat :: queue[i] !in Passes(queue, rejects, k)) <==> |Keep(queue[..i], rejects)| < 25
  {
    if |Keep(queue[..i], rejects)| < BATCH {
      var k := ServedSoon(queue, rejects, i);
    } else {
      forall k: nat ensures queue[i] in Passes(queue, rejects, k) {
        Starved(queue, rejects, i, k);
      }
    }
  }

  // ---------- The running flag ----------

  function FlagAfter(events: seq<FlagEvent>): Flag {
    if events == [] then Flag(false, {})
    else FlagStep(FlagAfter(events[..|events| - 1]), events[|events| - 1])
  }

  /** However the first and last lines of passes interleave, at most one pass is active. */
  lemma {:induction false} PassesNeverOverlap(events: seq<FlagEvent>)
    ensures OneAtMost(FlagAfter(events))
  {
    if events != [] {
      PassesNeverOverlap(events[..|events| - 1]);
    }
  }

  /** A pass gets in exactly when none is active, and a pass that ends lets the next one in. */
  lemma PassEntersIff(events: seq<FlagEvent>, pass: nat)
    requires pass !in FlagAfter(events).active
    ensures var f := FlagAfter(events);
      && (pass in FlagAfter(events + [Enter(pass)]).active <==> f.active == {})
      && (f.active == {} ==>
            FlagAfter(events + [Enter(pass)]) == Flag(true, {pass})
            && FlagAfter(events + [Enter(pass)] + [Leave(pass)]) == Flag(false, {}))
  {
    PassesNeverOverlap(events);
    var entered := events + [Enter(pass)];
    assert entered[..|events|] == events;
    assert (entered + [Leave(pass)])[..|entered|] == entered;
  }
}
