/** Shared documents as two-phase sets: every insertion has a globally unique id, a deletion leaves
    a tombstone, and merging two replicas is union.  `Fresh` is what compaction builds: the visible
    value with every tombstone dropped. */
module Documents {
  datatype Option<+T> = None | Some(value: T)

  type Id = nat

  datatype Doc = Doc(inserted: set<Id>, deleted: set<Id>) {
    /** A deletion is only integrated after the insertion it refers to. */
    ghost predicate WellFormed() {
      deleted <= inserted
    }

    function Value(): set<Id> {
      inserted - deleted
    }

    /** `this` has integrated every operation of `other`. */
    ghost predicate Includes(other: Doc) {
      other.inserted <= inserted && other.deleted <= deleted
    }
  }

  const EMPTY_DOC := Doc({}, {})

  function Merge(a: Doc, b: Doc): Doc {
    Doc(a.inserted + b.inserted, a.deleted + b.deleted)
  }

  function Fresh(value: set<Id>): Doc {
    Doc(value, {})
  }

  /** The operations one commit adds: insertions first, then deletions. */
  datatype Batch = Batch(inserts: set<Id>, deletes: set<Id>)

  function Unseen(before: Doc, after: Doc): Batch {
    Batch(after.inserted - before.inserted, after.deleted - before.deleted)
  }

  /** Sequential meaning of an operation log on a plain set, with no tombstones. */
  function Replay(log: seq<Batch>): set<Id> {
    if log == [] then {}
    else
      var last := log[|log| - 1];
      (Replay(log[..|log| - 1]) + last.inserts) - last.deletes
  }

  /** Every id some batch of the log deletes. */
  function Deletions(log: seq<Batch>): set<Id> {
    if log == [] then {} else Deletions(log[..|log| - 1]) + log[|log| - 1].deletes
  }

  lemma ReplayAppend(log: seq<Batch>, batch: Batch)
    ensures Replay(log + [batch]) == (Replay(log) + batch.inserts) - batch.deletes
    ensures Deletions(log + [batch]) == Deletions(log) + batch.deletes
  {
    assert (log + [batch])[..|log|] == log;
  }

  lemma {:induction false} DeletionsGrow(log: seq<Batch>, longer: seq<Batch>)
    requires log <= longer
    ensures Deletions(log) <= Deletions(longer)
    decreases |longer|
  {
    if |log| < |longer| {
      DeletionsGrow(log, longer[..|longer| - 1]);
    } else {
      assert log == longer;
    }
  }

  lemma {:induction false} DeletionsConcat(a: seq<Batch>, b: seq<Batch>)
    ensures Deletions(a + b) == Deletions(a) + Deletions(b)
    decreases |b|
  {
    if b == [] {
      assert a + b == a;
    } else {
      var front, last := b[..|b| - 1], b[|b| - 1];
      DeletionsConcat(a, front);
      assert a + b == (a + front) + [last];
      ReplayAppend(a + front, last);
    }
  }

  lemma DeletionsSplit(log: seq<Batch>, i: nat, j: nat, k: nat)
    requires i <= j <= k <= |log|
    ensures Deletions(log[i..k]) == Deletions(log[i..j]) + Deletions(log[j..k])
  {
    assert log[i..k] == log[i..j] + log[j..k];
    DeletionsConcat(log[i..j], log[j..k]);
  }

  /** Merging a replica into the row is replaying, on the row's visible value, exactly the
      operations the row had not seen. */
  lemma MergeReplaysUnseen(row: Doc, live: Doc)
    requires row.WellFormed() && live.WellFormed()
    ensures Merge(row, live).WellFormed()
    ensures Merge(row, live).Value()
         == (row.Value() + Unseen(row, Merge(row, live)).inserts) - Unseen(row, Merge(row, live)).deletes
  {
    var merged := Merge(row, live);
    forall x ensures x in merged.Value() <==>
        x in (row.Value() + Unseen(row, merged).inserts) - Unseen(row, merged).deletes
    {
    }
  }

  /** Why compaction needs a new epoch.  While the tombstones are kept, merging any earlier replica
      leaves the value alone.  After compaction it does so exactly when that replica shows nothing
      the row had deleted; otherwise deleted content comes back. */
  lemma StaleMergeResurrects(row: Doc, stale: Doc)
    requires row.WellFormed() && stale.WellFormed() && row.Includes(stale)
    ensures Merge(row, stale).Value() == row.Value()
    ensures Merge(Fresh(row.Value()), stale).Value() == row.Value() <==> stale.Value() !! row.deleted
    ensures Merge(Fresh(row.Value()), stale).Value() * row.deleted == stale.Value() * row.deleted
  {
    var after := Merge(Fresh(row.Value()), stale).Value();
    assert Merge(row, stale) == row;
    forall x ensures x in after * row.deleted <==> x in stale.Value() * row.deleted {
    }
    if stale.Value() !! row.deleted {
      forall x ensures x in after <==> x in row.Value() {
      }
    } else {
      var x :| x in stale.Value() && x in row.deleted;
      assert x in after && x !in row.Value();
    }
  }

  function Min(a: nat, b: nat): nat {
    if a < b then a else b
  }

  /** A number above every one of a set. */
  ghost function Above(ids: set<nat>): (id: nat)
    ensures forall other :: other in ids ==> other < id
  {
    if ids == {} then 0
    else
      var other :| other in ids;
      var rest := Above(ids - {other});
      assert forall x :: x in ids && x != other ==> x in ids - {other};
      if other < rest then rest else other + 1
  }
}
