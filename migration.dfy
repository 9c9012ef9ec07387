/**
  * The one-shot move of browser-local data to the remote database on first
  * sign-in: a flag in local storage gates it, every local measurement
  * becomes one remote row and the local baseline one more.
  */
module Migration {
  import opened JsValues
  import opened Storage

  /** The columns of a remote measurement row. */
  const MeasurementColumns: set<string> := {
    "distance_from_front_wall", "distance_from_side_wall", "listening_position",
    "bass", "treble", "vocals", "soundstage", "is_favorite", "user_id"
  }

  /** The columns of a remote baseline row. */
  const BaselineColumns: set<string> := {
    "calculation_type", "method_name", "speaker_type", "values", "user_id"
  }

  /** The row a local measurement becomes: camelCase fields under their
      snake_case column names, plus the owner. */
  function MeasurementRow(m: Record, userId: JsValue): (row: Record)
    ensures row.Keys == MeasurementColumns
    ensures row["user_id"] == userId
    ensures row["distance_from_front_wall"] == Field(m, "distanceFromFrontWall")
    ensures row["distance_from_side_wall"] == Field(m, "distanceFromSideWall")
    ensures row["listening_position"] == Field(m, "listeningPosition")
    ensures row["is_favorite"] == Field(m, "isFavorite")
  {
    map[
      "distance_from_front_wall" := Field(m, "distanceFromFrontWall"),
      "distance_from_side_wall" := Field(m, "distanceFromSideWall"),
      "listening_position" := Field(m, "listeningPosition"),
      "bass" := Field(m, "bass"),
      "treble" := Field(m, "treble"),
      "vocals" := Field(m, "vocals"),
      "soundstage" := Field(m, "soundstage"),
      "is_favorite" := Field(m, "isFavorite"),
      "user_id" := userId
    ]
  }

  /** `measurements.map(...)`: one row per measurement, in order. */
  function MeasurementRows(measurements: seq<Record>, userId: JsValue): (rows: seq<Record>)
    ensures |rows| == |measurements|
    ensures forall i :: 0 <= i < |rows| ==> rows[i] == MeasurementRow(measurements[i], userId)
  {
    if measurements == [] then []
    else [MeasurementRow(measurements[0], userId)] + MeasurementRows(measurements[1..], userId)
  }

  /** Mapping a list with one more record in front. */
  lemma MeasurementRowsCons(m: Record, rest: seq<Record>, userId: JsValue)
    ensures MeasurementRows([m] + rest, userId) == [MeasurementRow(m, userId)] + MeasurementRows(rest, userId)
  {
    assert ([m] + rest)[0] == m && ([m] + rest)[1..] == rest;
  }

  /** Mapping a concatenation maps each part: the rows keep the local order. */
  lemma {:induction false} MeasurementRowsAppend(a: seq<Record>, b: seq<Record>, userId: JsValue)
    ensures MeasurementRows(a + b, userId) == MeasurementRows(a, userId) + MeasurementRows(b, userId)
  {
    if a == [] {
      assert a + b == b;
    } else {
      var m, rest := a[0], a[1..];
      var row := [MeasurementRow(m, userId)];
      calc {
        MeasurementRows(a + b, userId);
        { assert a + b == [m] + (rest + b); }
        MeasurementRows([m] + (rest + b), userId);
        { MeasurementRowsCons(m, rest + b, userId); }
        row + MeasurementRows(rest + b, userId);
        { MeasurementRowsAppend(rest, b, userId); }
        row + (MeasurementRows(rest, userId) + MeasurementRows(b, userId));
        (row + MeasurementRows(rest, userId)) + MeasurementRows(b, userId);
        { assert a == [m] + rest; MeasurementRowsCons(m, rest, userId); }
        MeasurementRows(a, userId) + MeasurementRows(b, userId);
      }
    }
  }

  /** Local-only fields do not travel: the local id, the timestamp, the name
      and the baseline method are not columns, whatever the record holds. */
  lemma MeasurementRowDropsLocalFields(m: Record, userId: JsValue)
    ensures var row := MeasurementRow(m, userId);
      "id" !in row && "createdAt" !in row && "name" !in row && "baselineMethodName" !in row
  {
  }

  /** The ratings travel unchanged. */
  lemma MeasurementRowKeepsRatings(m: Record, userId: JsValue)
    ensures var row := MeasurementRow(m, userId);
      row["bass"] == Field(m, "bass") && row["treble"] == Field(m, "treble")
      && row["vocals"] == Field(m, "vocals") && row["soundstage"] == Field(m, "soundstage")
  {
  }

  /** `value || fallback`. */
  function OrDefault(value: JsValue, fallback: string): (v: JsValue)
    requires fallback != ""
    ensures Truthy(v)
    ensures Truthy(value) ==> v == value
    ensures !Truthy(value) ==> v == Str(fallback)
  {
    if Truthy(value) then value else Str(fallback)
  }

  /** The row the local baseline becomes. */
  function BaselineRow(baseline: JsValue, userId: JsValue): (row: Record)
    ensures row.Keys == BaselineColumns
    ensures row["user_id"] == userId
    ensures row["method_name"] == Get(baseline, "methodName")
    ensures row["values"] == Get(baseline, "values")
  {
    map[
      "calculation_type" := OrDefault(Get(baseline, "calculationType"), "unknown"),
      "method_name" := Get(baseline, "methodName"),
      "speaker_type" := OrDefault(Get(baseline, "speakerType"), "conventional"),
      "values" := Get(baseline, "values"),
      "user_id" := userId
    ]
  }

  /** A baseline without a calculation type or speaker type is uploaded as
      'unknown' and 'conventional'; present ones are kept. */
  lemma BaselineRowDefaults(baseline: JsValue, userId: JsValue)
    ensures var row := BaselineRow(baseline, userId);
      && (Truthy(Get(baseline, "calculationType")) <==> row["calculation_type"] == Get(baseline, "calculationType"))
      && (!Truthy(Get(baseline, "calculationType")) ==> row["calculation_type"] == Str("unknown"))
      && (!Truthy(Get(baseline, "speakerType")) ==> row["speaker_type"] == Str("conventional"))
      && (Truthy(Get(baseline, "speakerType")) ==> row["speaker_type"] == Get(baseline, "speakerType"))
  {
  }

  /** Local storage as the migration sees it, and the two remote tables as
      append-only sinks of the inserts issued. */
  class Migrator {
    /** The 'supabase-migrated' key: None when absent. */
    var flag: Option<string>
    /** The parsed 'distance-measurements' key: None when absent. */
    var localMeasurements: Option<seq<Record>>
    /** The parsed 'speaker-baseline' key: None when absent. */
    var localBaseline: Option<JsValue>
    /** The row batches inserted into the measurements table, in order. */
    var measurementInserts: seq<seq<Record>>
    /** The rows inserted into the baselines table, in order. */
    var baselineInserts: seq<Record>

    /** `localStorage.getItem('supabase-migrated')` is truthy. */
    predicate Migrated()
      reads this
    {
      flag.Some? && flag.value != ""
    }

    /** `JSON.parse(getItem('distance-measurements') || '[]')`. */
    function Measurements(): seq<Record>
      reads this
    {
      if localMeasurements.Some? then localMeasurements.value else []
    }

    /** `JSON.parse(getItem('speaker-baseline') || 'null')`. */
    function LocalBaseline(): JsValue
      reads this
    {
      if localBaseline.Some? then localBaseline.value else Null
    }

    /** `migrateLocalStorageData(userId)`. Each flag says whether that
        insert throws; a throw skips the rest, the flag included. An insert
        that fails by returning an `error` does not throw, so it counts as
        issued and the flag is still set. */
    method Migrate(userId: JsValue, measurementsInsertThrows: bool, baselineInsertThrows: bool)
      modifies this
      ensures localMeasurements == old(localMeasurements) && localBaseline == old(localBaseline)
      ensures old(Migrated()) ==>
        flag == old(flag) && measurementInserts == old(measurementInserts) && baselineInserts == old(baselineInserts)
      ensures !old(Migrated()) ==>
        var measurementsSent := |Measurements()| > 0;
        var measurementsOk := !(measurementsSent && measurementsInsertThrows);
        var baselineSent := measurementsOk && Truthy(LocalBaseline());
        var baselineOk := !(baselineSent && baselineInsertThrows);
        && measurementInserts == old(measurementInserts)
           + (if measurementsSent && measurementsOk then [MeasurementRows(Measurements(), userId)] else [])
        && baselineInserts == old(baselineInserts)
           + (if baselineSent && baselineOk then [BaselineRow(LocalBaseline(), userId)] else [])
        && flag == (if measurementsOk && baselineOk then Some("true") else old(flag))
      ensures !measurementsInsertThrows && !baselineInsertThrows ==> Migrated()
    {
      if Migrated() {
        return;
      }
      var measurements := Measurements();
      var baseline := LocalBaseline();
      if |measurements| > 0 {
        if measurementsInsertThrows {
          return;
        }
        measurementInserts := measurementInserts + [MeasurementRows(measurements, userId)];
      }
      if Truthy(baseline) {
        if baselineInsertThrows {
          return;
        }
        baselineInserts := baselineInserts + [BaselineRow(baseline, userId)];
      }
      flag := Some("true");
    }
  }
}
