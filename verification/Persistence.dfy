/** One material in PostgreSQL: its collaboration row and its read projection, the transactions that
    touch them as functions, and the document store whose methods run those transactions. */
module Persistence {
  import opened Documents
  import opened Limits
  import opened Validation

  datatype Row = Row(epoch: nat, state: Doc, stored: nat, projected: nat)

  /** `materials.content`: absent, not a Plate envelope, or a value. */
  datatype Content = Missing | Malformed | Plate(value: set<Id>)

  datatype Material = Material(row: Option<Row>, content: Content)

  datatype LoadOutcome =
    | Loaded(row: Row)
    | LoadRefused(error: StoreError)

  datatype StoreOutcome =
    | Stored(row: Row, value: set<Id>, metrics: Metrics, limitCode: Option<LimitCode>)
    | StoreRefused(error: StoreError)

  datatype CompactOutcome =
    | Compacted(row: Row)
    | Skipped
    | CompactRefused(error: StoreError)

  datatype ProjectOutcome =
    | Advanced(material: Material)
    | AlreadyProjected
    | ProjectRefused

  datatype StoreError = MaterialNotFound | InvalidEnvelope | StaleSchema | OverLimit(code: LimitCode, metrics: Metrics)

  // ---------- Transactions ----------

  function LoadRow(m: Material, epoch: nat): LoadOutcome {
    match m.row
    case Some(row) =>
      if row.epoch != epoch then LoadRefused(StaleSchema) else Loaded(row)
    case None =>
      match m.content
      case Missing => LoadRefused(MaterialNotFound)
      case Malformed => LoadRefused(InvalidEnvelope)
      case Plate(value) => Loaded(Row(epoch, Fresh(value), 1, 1))
  }

  function StoreRow(measure: Measure, m: Material, epoch: nat, current: Doc): StoreOutcome {
    if m.row.Some? && m.row.value.epoch != epoch then StoreRefused(StaleSchema)
    else
      var merged := if m.row.Some? then Merge(m.row.value.state, current) else Merge(EMPTY_DOC, current);
      var metrics := measure(merged.Value());
      var previous := if m.row.Some? then Some(measure(m.row.value.state.Value())) else None;
      if !Acceptable(metrics, previous) then
        StoreRefused(OverLimit(MaterialLimitCode(metrics).value, metrics))
      else
        var row := if m.row.Some?
                   then m.row.value.(state := merged, stored := m.row.value.stored + 1)
                   else Row(epoch, merged, 1, 0);
        Stored(row, merged.Value(), metrics, MaterialLimitCode(metrics))
  }

  function CompactRow(m: Material, epoch: nat): CompactOutcome {
    if m.row.None? || m.row.value.epoch != epoch || m.row.value.stored != m.row.value.projected then Skipped
    else
      match m.content
      case Missing => CompactRefused(MaterialNotFound)
      case Malformed => CompactRefused(InvalidEnvelope)
      case Plate(value) =>
        var next := m.row.value.stored + 1;
        Compacted(Row(epoch + 1, Fresh(value), next, next))
  }

  /** The gateway's projection endpoint: locks the row, refuses versions it has not seen stored,
      ignores versions already projected, and otherwise replaces the content. */
  function ProjectRow(m: Material, version: nat, value: set<Id>): ProjectOutcome {
    if version < 1 || m.row.None? || version > m.row.value.stored then ProjectRefused
    else if version <= m.row.value.projected then AlreadyProjected
    else if m.content.Missing? then ProjectRefused
    else Advanced(Material(Some(m.row.value.(projected := version)), Plate(value)))
  }

  /** When a load succeeds, and with what: the row itself under its own epoch, or else, with no row,
      version 1 of the content. */
  lemma LoadsIff(m: Material, epoch: nat)
    ensures LoadRow(m, epoch).Loaded? <==>
              if m.row.Some? then m.row.value.epoch == epoch else m.content.Plate?
    ensures var out := LoadRow(m, epoch);
      && (out.Loaded? && m.row.Some? ==> out.row == m.row.value)
      && (out.Loaded? && m.row.None? ==>
            && out.row.state.Value() == m.content.value && out.row.state.deleted == {}
            && out.row.epoch == epoch && out.row.stored == 1 == out.row.projected)
      && (out == LoadRefused(StaleSchema) <==> m.row.Some? && m.row.value.epoch != epoch)
      && (out == LoadRefused(MaterialNotFound) <==> m.row.None? && m.content.Missing?)
      && (out == LoadRefused(InvalidEnvelope) <==> m.row.None? && m.content.Malformed?)
  {
    assert m.content.Plate? ==> Fresh(m.content.value).Value() == m.content.value;
  }

  /** What a store would have to fit: the metrics of the row with the document merged into it. */
  ghost function MergedMetrics(measure: Measure, m: Material, current: Doc): Metrics {
    measure((if m.row.Some? then Merge(m.row.value.state, current) else current).Value())
  }

  /** When a store commits, and with what.  It is turned away for exactly two reasons: another epoch,
      or metrics that exceed a cap and in some component the metrics of the row. */
  lemma StoresIff(measure: Measure, m: Material, epoch: nat, current: Doc)
    ensures var out, metrics := StoreRow(measure, m, epoch, current), MergedMetrics(measure, m, current);
      && (m.row.Some? ==>
            && (out.Stored? <==>
                  && m.row.value.epoch == epoch
                  && (EachUnderCap(metrics) || EachAtMost(metrics, measure(m.row.value.state.Value()))))
            && (out == StoreRefused(StaleSchema) <==> m.row.value.epoch != epoch))
      && (m.row.None? ==> (out.Stored? <==> EachUnderCap(metrics)))
      && (out.StoreRefused? && out.error != StaleSchema ==>
            out.error.OverLimit? && out.error.metrics == metrics && Some(out.error.code) == MaterialLimitCode(metrics))
    ensures var out := StoreRow(measure, m, epoch, current);
      out.Stored? ==>
        && out.row.epoch == epoch
        && out.row.state == (if m.row.Some? then Merge(m.row.value.state, current) else current)
        && out.row.stored == (if m.row.Some? then m.row.value.stored + 1 else 1)
        && out.row.projected == (if m.row.Some? then m.row.value.projected else 0)
        && out.value == out.row.state.Value() && out.metrics == measure(out.row.state.Value())
        && (out.limitCode == None <==> EachUnderCap(out.metrics))
  {
    CodeNamesFirstCap(MergedMetrics(measure, m, current));
    if m.row.Some? {
      CodeNamesFirstCap(measure(m.row.value.state.Value()));
    } else {
      assert Merge(EMPTY_DOC, current) == current;
    }
  }

  /** When a compaction writes, and what. */
  lemma CompactsIff(m: Material, epoch: nat)
    ensures CompactRow(m, epoch).Compacted? <==>
              && m.row.Some? && m.row.value.epoch == epoch && m.row.value.stored == m.row.value.projected
              && m.content.Plate?
    ensures var out := CompactRow(m, epoch);
      && (out.Compacted? ==>
            && out.row.epoch == epoch + 1
            && out.row.stored == m.row.value.stored + 1 == out.row.projected
            && out.row.state.Value() == m.content.value && out.row.state.deleted == {})
      && (out.Skipped? <==>
            !(m.row.Some? && m.row.value.epoch == epoch && m.row.value.stored == m.row.value.projected))
      && (out == CompactRefused(MaterialNotFound) <==> !out.Skipped? && m.content.Missing?)
      && (out == CompactRefused(InvalidEnvelope) <==> !out.Skipped? && m.content.Malformed?)
  {
    assert m.content.Plate? ==> Fresh(m.content.value).Value() == m.content.value;
  }

  /** When a projection replaces the content, and with what. */
  lemma ProjectsIff(m: Material, version: nat, value: set<Id>)
    ensures ProjectRow(m, version, value).Advanced? <==>
              && m.row.Some? && 1 <= version <= m.row.value.stored && m.row.value.projected < version
              && !m.content.Missing?
    ensures var out := ProjectRow(m, version, value);
      && (out.Advanced? ==>
            && out.material.content == Plate(value) && out.material.row.Some?
            && out.material.row.value.projected == version && out.material.row.value.stored == m.row.value.stored
            && out.material.row.value.epoch == m.row.value.epoch
            && out.material.row.value.state == m.row.value.state)
      && (out.AlreadyProjected? <==>
            m.row.Some? && 1 <= version <= m.row.value.stored && version <= m.row.value.projected)
  {
  }

  /** Compaction rebuilds the document from the projection alone, so it keeps the visible value
      exactly when the projection shows that value. */
  lemma CompactionKeepsValueIff(m: Material, epoch: nat)
    requires m.row.Some? && CompactRow(m, epoch).Compacted?
    ensures var row := CompactRow(m, epoch).row;
      && row.state.deleted == {}
      && row.stored == row.projected == m.row.value.stored + 1
      && (row.state.Value() == m.row.value.state.Value() <==> m.content == Plate(m.row.value.state.Value()))
  {
    assert Fresh(m.content.value).Value() == m.content.value;
  }

  /** A SQL content write that was allowed because no row existed, but lands after a load has
      bootstrapped the row, is taken for the projection of version 1: compaction then replaces the
      stored document by the written value. */
  lemma LateSqlWriteReplacesDocument(before: set<Id>, written: set<Id>, epoch: nat)
    requires before != written
    ensures var boot := LoadRow(Material(None, Plate(before)), epoch);
      && boot.Loaded?
      && var late := Material(Some(boot.row), Plate(written));
      && CompactRow(late, epoch).Compacted?
      && CompactRow(late, epoch).row.state.Value() == written != boot.row.state.Value()
  {
    assert Fresh(written).Value() == written && Fresh(before).Value() == before;
  }

  // ---------- The store ----------

  /** A Y.Doc in memory. */
  class LiveDoc {
    var doc: Doc

    constructor ()
      ensures doc == EMPTY_DOC
    {
      doc := EMPTY_DOC;
    }

    method ApplyUpdate(update: Doc)
      modifies this
      ensures doc == Merge(old(doc), update)
    {
      doc := Merge(doc, update);
    }
  }

  /** The database one material lives in; every method below holds its lock for the whole body. */
  class Database {
    var material: Material

    constructor (material: Material)
      ensures this.material == material
    {
      this.material := material;
    }

    /** The internal projection endpoint. */
    method Project(version: nat, value: set<Id>) returns (accepted: bool)
      modifies this
      ensures accepted == !ProjectRow(old(material), version, value).ProjectRefused?
      ensures material == match ProjectRow(old(material), version, value)
                          case Advanced(m) => m
                          case _ => old(material)
    {
      if version < 1 || material.row.None? {
        return false;
      }
      var row := material.row.value;
      if version > row.stored {
        return false;
      }
      if version <= row.projected {
        return true;
      }
      if material.content.Missing? {
        return false;
      }
      material := Material(Some(row.(projected := version)), Plate(value));
      return true;
    }
  }

  /** A room name carries the epoch; with one material the epoch is the room. */
  class YjsDocumentStore {
    const db: Database
    const measure: Measure
    var validators: map<nat, RoomValidator>

    ghost predicate Valid()
      reads this
    {
      forall a, b :: a in validators && b in validators && a != b ==> validators[a] != validators[b]
    }

    constructor (db: Database, measure: Measure)
      ensures Valid() && this.db == db && this.measure == measure && validators == map[]
    {
      this.db := db;
      this.measure := measure;
      validators := map[];
    }

    /** What the accounting of a room is, a room without a validator being unmeasured. */
    ghost function AccountOf(room: nat): Account
      reads this, if room in validators then {validators[room]} else {}
    {
      if room in validators then validators[room].View() else NO_ACCOUNT
    }

    method ValidateUpdate(room: nat, current: LiveDoc, update: Doc, byteLength: nat, shrinkOnly: bool)
      returns (error: Option<LimitCode>)
      requires Valid()
      modifies this, if room in validators then {validators[room]} else {}
      ensures Valid() && validators.Keys == old(validators.Keys) + {room}
      ensures room !in old(validators) ==> fresh(validators[room])
      ensures forall other :: other in old(validators) ==> validators[other] == old(validators[other])
      ensures var verdict := Validate(old(AccountOf(room)), measure(current.doc.Value()),
                                      measure(Merge(current.doc, update).Value()), byteLength, shrinkOnly);
              AccountOf(room) == verdict.account && error == verdict.error
    {
      var validator := ValidatorFor(room);
      validator.pendingBytes := validator.pendingBytes + byteLength;
      error := Judge(validator, current, update, shrinkOnly);
    }

    /** The validator of a room, created on first use. */
    method ValidatorFor(room: nat) returns (validator: RoomValidator)
      requires Valid()
      modifies this
      ensures Valid() && room in validators && validator == validators[room]
      ensures room in old(validators) ==> validators == old(validators)
      ensures room !in old(validators) ==>
        fresh(validator) && validators == old(validators)[room := validator] && validator.View() == NO_ACCOUNT
    {
      if room !in validators {
        var created := new RoomValidator();
        validators := validators[room := created];
      }
      validator := validators[room];
    }

    /** The measuring half of the check, once the update's bytes are counted. */
    method Judge(validator: RoomValidator, current: LiveDoc, update: Doc, shrinkOnly: bool)
      returns (error: Option<LimitCode>)
      modifies validator
      ensures var verdict := Validate(old(validator.View()), measure(current.doc.Value()),
                                      measure(Merge(current.doc, update).Value()), 0, shrinkOnly);
              validator.View() == verdict.account && error == verdict.error
    {
      var measured := validator.ShouldMeasure();
      if !measured && !shrinkOnly {
        return None;
      }
      if validator.metrics == None {
        validator.metrics := Some(measure(current.doc.Value()));
      }
      var candidate := new LiveDoc();
      candidate.ApplyUpdate(current.doc);
      candidate.ApplyUpdate(update);
      assert candidate.doc == Merge(current.doc, update);
      var metrics := measure(candidate.doc.Value());
      var code := MaterialLimitCode(metrics);
      if code.Some? && !Recovers(metrics, validator.metrics) {
        return code;
      }
      if shrinkOnly && !Recovers(metrics, validator.metrics) {
        return Some(SizeExceeded);
      }
      validator.Accept(metrics);
      return None;
    }

    method ForgetRoom(room: nat)
      requires Valid()
      modifies this
      ensures Valid() && validators == old(validators) - {room}
    {
      validators := validators - {room};
    }

    method Load(room: nat, target: LiveDoc) returns (error: Option<StoreError>)
      modifies db, target
      ensures match LoadRow(old(db.material), room)
        case Loaded(row) =>
          && error == None
          && db.material == old(db.material).(row := Some(row))
          && target.doc == Merge(old(target.doc), row.state)
        case LoadRefused(e) =>
          error == Some(e) && db.material == old(db.material) && target.doc == old(target.doc)
    {
      var material := db.material;
      if material.row.None? {
        if material.content.Missing? {
          return Some(MaterialNotFound);
        }
        if material.content.Malformed? {
          return Some(InvalidEnvelope);
        }
        var bootstrap := new LiveDoc();
        bootstrap.ApplyUpdate(Fresh(material.content.value));
        assert bootstrap.doc == Fresh(material.content.value);
        material := material.(row := Some(Row(room, bootstrap.doc, 1, 1)));
      }
      if material.row.value.epoch != room {
        return Some(StaleSchema);
      }
      target.ApplyUpdate(material.row.value.state);
      db.material := material;
      return None;
    }

    /** On success the accounting baseline becomes the committed metrics, with nothing pending. */
    method Store(room: nat, current: LiveDoc) returns (outcome: StoreOutcome)
      requires Valid()
      modifies db, if room in validators then {validators[room]} else {}
      ensures Valid() && validators == old(validators)
      ensures outcome == StoreRow(measure, old(db.material), room, current.doc)
      ensures db.material == if outcome.Stored?
                             then old(db.material).(row := Some(outcome.row)) else old(db.material)
      ensures AccountOf(room) == if outcome.Stored? && room in validators
                                 then Account(Some(outcome.metrics), 0) else old(AccountOf(room))
    {
      var merged := new LiveDoc();
      var existing := db.material.row;
      if existing.Some? {
        if existing.value.epoch != room {
          return StoreRefused(StaleSchema);
        }
        merged.ApplyUpdate(existing.value.state);
        assert merged.doc == existing.value.state;
      }
      merged.ApplyUpdate(current.doc);
      var value := merged.doc.Value();
      var metrics := measure(value);
      var limitCode := MaterialLimitCode(metrics);
      if limitCode.Some? {
        var previous := if existing.Some? then Some(measure(existing.value.state.Value())) else None;
        if !Recovers(metrics, previous) {
          return StoreRefused(OverLimit(limitCode.value, metrics));
        }
      }
      var row := if existing.Some?
                 then existing.value.(state := merged.doc, stored := existing.value.stored + 1)
                 else Row(room, merged.doc, 1, 0);
      db.material := db.material.(row := Some(row));
      outcome := Stored(row, value, metrics, limitCode);
      if room in validators {
        validators[room].Accept(metrics);
      }
    }

    method Compact(room: nat) returns (outcome: CompactOutcome)
      modifies db
      ensures outcome == CompactRow(old(db.material), room)
      ensures db.material == if outcome.Compacted?
                             then old(db.material).(row := Some(outcome.row)) else old(db.material)
    {
      var material := db.material;
      if material.row.None? || material.row.value.epoch != room {
        return Skipped;
      }
      if material.row.value.stored != material.row.value.projected {
        return Skipped;
      }
      if material.content.Missing? {
        return CompactRefused(MaterialNotFound);
      }
      if material.content.Malformed? {
        return CompactRefused(InvalidEnvelope);
      }
      var compacted := new LiveDoc();
      compacted.ApplyUpdate(Fresh(material.content.value));
      assert compacted.doc == Fresh(material.content.value);
      var nextVersion := material.row.value.stored + 1;
      var nextSchema := room + 1;
      outcome := Compacted(Row(nextSchema, compacted.doc, nextVersion, nextVersion));
      db.material := material.(row := Some(outcome.row));
    }
  }
}
