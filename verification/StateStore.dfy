/** The persistent state store: unit status by id, a cursor per (pipeline, source) and schema snapshots. */
module StateStore {
  import opened Rows

  /**
   The text of a unit key. Rendered numbers are told apart by their values, so the offset and
   page keys keep the numbers; a cursor key keeps the text after "cursor=".
   */
  datatype UnitKey =
    | OffsetKey(offset: int, limit: int)
    | PageKey(page: int, perPage: int)
    | CursorKey(text: string)

  /** The hash of (pipeline, source, key), taken to be injective. */
  datatype UnitId = UnitId(pipeline: string, source: string, key: UnitKey)

  datatype Status = Pending | Running | Done | Failed | Quarantined

  datatype UnitRecord = UnitRecord(
    status: Status, attempts: nat, lastError: Option<string>, rowCount: Option<nat>)

  type Units = map<UnitId, UnitRecord>

  /** What the store keeps of one pipeline over one source. */
  datatype Saved = Saved(units: Units, cursor: Option<string>, schema: Option<Schema>)

  /** A snapshot of a batch's schema: for each field its type and whether it is nullable. */
  type Schema = map<string, (string, bool)>

  /** Reserved cursor value: the traversal has reached its end. */
  const SOURCE_EXHAUSTED: string := "\0__ARSENAL_SOURCE_EXHAUSTED__"

  predicate IsDone(units: Units, uid: UnitId) {
    uid in units && units[uid].status == Done
  }

  /** INSERT OR IGNORE. */
  function RegisterUnit(units: Units, uid: UnitId): Units {
    if uid in units then units else units[uid := UnitRecord(Pending, 0, None, None)]
  }

  /** UPDATE ... SET status, last_error, attempts; an unknown id updates no row. */
  function SetStatus(units: Units, uid: UnitId, status: Status, error: Option<string>): Units {
    if uid !in units then units
    else
      var bump := if status == Failed then 1 else 0;
      units[uid := units[uid].(status := status, lastError := error, attempts := units[uid].attempts + bump)]
  }

  function SetDone(units: Units, uid: UnitId, rowCount: nat): Units {
    if uid !in units then units
    else units[uid := units[uid].(status := Done, rowCount := Some(rowCount))]
  }

  /** Quarantine is no retry failure: attempts stay as they are. */
  function SetQuarantined(units: Units, uid: UnitId, reason: string): Units {
    if uid !in units then units
    else units[uid := units[uid].(status := Quarantined, lastError := Some(reason))]
  }

  /** requeue looks at no old status: a done unit goes back to pending as well. */
  function RequeueUnit(units: Units, uid: UnitId): Units {
    if uid !in units then units
    else units[uid := units[uid].(status := Pending, lastError := None)]
  }

  class StateStore {
    var units: Units
    var cursors: map<(string, string), string>
    var snapshots: map<string, seq<Schema>>  // by pipeline, the latest one last

    constructor ()
      ensures units == map[] && cursors == map[] && snapshots == map[]
    {
      units, cursors, snapshots := map[], map[], map[];
    }

    method Register(uid: UnitId)
      modifies this`units
      ensures units == RegisterUnit(old(units), uid)
      ensures units == if uid in old(units) then old(units)
                       else old(units)[uid := UnitRecord(Pending, 0, None, None)]
    {
      if uid !in units {
        units := units[uid := UnitRecord(Pending, 0, None, None)];
      }
    }

    method MarkRunning(uid: UnitId)
      modifies this`units
      ensures units == SetStatus(old(units), uid, Running, None)
      ensures uid in old(units) ==>
                var was := old(units)[uid];
                units == old(units)[uid := UnitRecord(Running, was.attempts, None, was.rowCount)]
      ensures uid !in old(units) ==> units == old(units)
    {
      units := SetStatus(units, uid, Running, None);
    }

    method MarkFailed(uid: UnitId, error: string)
      modifies this`units
      ensures units == SetStatus(old(units), uid, Failed, Some(error))
      ensures uid in old(units) ==>
                var was := old(units)[uid];
                units == old(units)[uid := UnitRecord(Failed, was.attempts + 1, Some(error), was.rowCount)]
      ensures uid !in old(units) ==> units == old(units)
    {
      units := SetStatus(units, uid, Failed, Some(error));
    }

    method MarkQuarantined(uid: UnitId, reason: string)
      modifies this`units
      ensures units == SetQuarantined(old(units), uid, reason)
      ensures uid in old(units) ==>
                var was := old(units)[uid];
                units == old(units)[uid := UnitRecord(Quarantined, was.attempts, Some(reason), was.rowCount)]
      ensures uid !in old(units) ==> units == old(units)
    {
      if uid in units {
        units := units[uid := units[uid].(status := Quarantined, lastError := Some(reason))];
      }
    }

    method MarkDone(uid: UnitId, rowCount: nat)
      modifies this`units
      ensures units == SetDone(old(units), uid, rowCount)
      ensures uid in old(units) ==>
                var was := old(units)[uid];
                units == old(units)[uid := UnitRecord(Done, was.attempts, was.lastError, Some(rowCount))]
      ensures uid !in old(units) ==> units == old(units)
    {
      if uid in units {
        units := units[uid := units[uid].(status := Done, rowCount := Some(rowCount))];
      }
    }

    /** Both statements in one commit: no state between them is ever stored. */
    method MarkDoneAndAdvanceCursor(uid: UnitId, pipeline: string, source: string, cursor: string, rowCount: nat)
      modifies this`units, this`cursors
      ensures units == SetDone(old(units), uid, rowCount)
      ensures uid in old(units) ==>
                var was := old(units)[uid];
                units == old(units)[uid := UnitRecord(Done, was.attempts, was.lastError, Some(rowCount))]
      ensures uid !in old(units) ==> units == old(units)
      ensures cursors == old(cursors)[(pipeline, source) := cursor]
    {
      MarkDone(uid, rowCount);
      cursors := cursors[(pipeline, source) := cursor];
    }

    method Requeue(uid: UnitId) returns (updated: nat)
      modifies this`units
      ensures units == RequeueUnit(old(units), uid)
      ensures uid in old(units) ==>
                var was := old(units)[uid];
                units == old(units)[uid := UnitRecord(Pending, was.attempts, None, was.rowCount)]
      ensures uid !in old(units) ==> units == old(units)
      ensures updated == if uid in old(units) then 1 else 0
    {
      updated := 0;
      if uid in units {
        units := units[uid := units[uid].(status := Pending, lastError := None)];
        updated := 1;
      }
    }

    method SnapshotSchema(pipeline: string, schema: Schema)
      modifies this`snapshots
      ensures LastSchema(pipeline) == Some(schema)
      ensures forall other :: other != pipeline ==> LastSchema(other) == old(LastSchema(other))
    {
      var earlier := if pipeline in snapshots then snapshots[pipeline] else [];
      snapshots := snapshots[pipeline := earlier + [schema]];
    }

    function LastSchema(pipeline: string): Option<Schema>
      reads this`snapshots
    {
      if pipeline in snapshots && snapshots[pipeline] != []
      then Some(snapshots[pipeline][|snapshots[pipeline]| - 1])
      else None
    }

    function State(pipeline: string, source: string): Saved
      reads this
    {
      Saved(units, GetCursor(pipeline, source), LastSchema(pipeline))
    }

    function GetCursor(pipeline: string, source: string): Option<string>
      reads this`cursors
    {
      if (pipeline, source) in cursors then Some(cursors[(pipeline, source)]) else None
    }
  }
}
