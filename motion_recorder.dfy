/** The recording session of the watch app: `MotionRecorder` owns
    `isRecording` and the row buffer `samples`, arms the accelerometer and
    gyroscope handlers on start, appends one row per paired gyroscope
    delivery, and on stop writes the buffer as CSV under a file name built
    from the swing type and a timestamp. Sensor deliveries, the write's
    outcome and the clock arrive as parameters. */
module MotionRecording {
  import opened Csv

  datatype Option<T> = None | Some(value: T)

  /** One CoreMotion reading (x, y, z), each axis already formatted with "%.3f". */
  datatype Reading = Reading(x: string, y: string, z: string)

  /** The gyroscope handler currently installed: the accelerometer reading and
      the swing type that the accelerometer handler captured when it installed it. */
  datatype GyroHandler = GyroHandler(accel: Reading, swingType: string)

  /** The file `stopRecording` asks the file system to write. */
  datatype CsvFile = CsvFile(name: string, contents: string)

  /** The column names of the first row of every buffer. */
  const Header: seq<string> :=
    ["accelX", "accelY", "accelZ", "gyroX", "gyroY", "gyroZ", "swingType", "confidence"]

  /** The placeholder confidence written in every sample row. */
  const Confidence: string := "0.95"

  /** The swing types the picker of the watch face offers. */
  const SwingTypes: set<string> := {"Forehand", "Backhand", "Serve"}

  /** A row of the buffer after the header: eight fields, the last the placeholder confidence. */
  predicate IsSampleRow(row: seq<string>)
  {
    |row| == 8 && row[7] == Confidence
  }

  /** The row the gyroscope handler appends: accelerometer axes, gyroscope
      axes, the captured swing type and the placeholder confidence. */
  function SampleRow(accel: Reading, gyro: Reading, swingType: string): (row: seq<string>)
    ensures IsSampleRow(row) && row[6] == swingType
    ensures row[..3] == [accel.x, accel.y, accel.z] && row[3..6] == [gyro.x, gyro.y, gyro.z]
  {
    [accel.x, accel.y, accel.z, gyro.x, gyro.y, gyro.z, swingType, Confidence]
  }

  /** The name of the exported file: "swing_data_<swingType>_<timestamp>.csv". */
  function FileName(swingType: string, timestamp: string): (name: string)
    ensures |name| == |swingType| + |timestamp| + 16
    ensures name[..11] == "swing_data_" && name[|name| - 4..] == ".csv"
  {
    "swing_data_" + swingType + "_" + timestamp + ".csv"
  }

  /** The text of a `timeIntervalSince1970` value as string interpolation
      writes a Double: digits, a point, perhaps an exponent, never a '_'. */
  predicate ClockText(timestamp: string)
  {
    '_' !in timestamp
  }

  /** Where the swing type, the '_' after it and the timestamp sit in the file name. */
  lemma FileNameAt(swingType: string, timestamp: string)
    ensures forall k :: 0 <= k < |swingType| ==> FileName(swingType, timestamp)[11 + k] == swingType[k]
    ensures FileName(swingType, timestamp)[11 + |swingType|] == '_'
    ensures forall k :: 0 <= k < |timestamp| ==> FileName(swingType, timestamp)[12 + |swingType| + k] == timestamp[k]
  {
  }

  /** For timestamps the clock writes, the file name determines the swing type
      and the timestamp, whatever the swing type holds: the last '_' before
      ".csv" ends the swing type. Sessions at distinct times never share a name. */
  lemma FileNameInjective(l1: string, t1: string, l2: string, t2: string)
    requires ClockText(t1) && ClockText(t2)
    ensures FileName(l1, t1) == FileName(l2, t2) <==> l1 == l2 && t1 == t2
  {
    var n1, n2 := FileName(l1, t1), FileName(l2, t2);
    if n1 == n2 {
      FileNameAt(l1, t1);
      FileNameAt(l2, t2);
      if |l1| < |l2| {
        assert false;
      } else if |l2| < |l1| {
        assert false;
      }
      assert l1 == n1[11..11 + |l1|] == l2;
      assert t1 == n1[12 + |l1|..|n1| - 4];
      assert t2 == n2[12 + |l2|..|n2| - 4];
    }
  }

  /** The condition on the timestamps is needed: a '_' in the timestamp text,
      which the clock never writes, would let two sessions name their files alike. */
  lemma FileNameCollides()
    ensures ClockText("1") && !ClockText("b_1")
    ensures FileName("a_b", "1") == FileName("a", "b_1")
  {
  }

  /** The picker's swing types contain no CSV separator and no '_'. */
  lemma SwingTypesArePlain()
    ensures forall l :: l in SwingTypes ==> ',' !in l && '\n' !in l && '_' !in l
  {
  }

  /** No column name holds a separator. */
  lemma HeaderPlain()
    ensures forall j :: 0 <= j < |Header| ==> ',' !in Header[j] && '\n' !in Header[j]
  {
  }

  /** Reading the first line of any export back gives the eight column names,
      whatever the labels and readings in the rows after it hold. */
  lemma HeaderParses(rows: seq<seq<string>>)
    requires |rows| >= 1 && rows[0] == Header
    ensures Split(',', Split('\n', CsvText(rows))[0]) == Header
  {
    HeaderPlain();
    CsvFirstLine(rows);
    SplitJoin(',', Header);
  }

  /** A field holding neither CSV separator. */
  predicate PlainField(s: string)
  {
    ',' !in s && '\n' !in s
  }

  /** A reading whose formatted axes hold neither CSV separator, as "%.3f" output never does. */
  predicate PlainReading(r: Reading)
  {
    PlainField(r.x) && PlainField(r.y) && PlainField(r.z)
  }

  /** A row built from plain readings and a picker swing type holds no CSV separator. */
  lemma SampleRowPlain(accel: Reading, gyro: Reading, swingType: string)
    requires PlainReading(accel) && PlainReading(gyro) && swingType in SwingTypes
    ensures FieldsAvoid([SampleRow(accel, gyro, swingType)], ',')
    ensures FieldsAvoid([SampleRow(accel, gyro, swingType)], '\n')
  {
    SwingTypesArePlain();
  }

  /** An export reads back as the buffer it was made from when the sample
      rows hold no separator: the header is always plain. */
  lemma ExportReadsBack(rows: seq<seq<string>>)
    requires |rows| >= 1 && rows[0] == Header
    requires forall i :: 1 <= i < |rows| ==> IsSampleRow(rows[i])
    requires FieldsAvoid(rows[1..], ',') && FieldsAvoid(rows[1..], '\n')
    ensures ParseCsv(CsvText(rows)) == rows
  {
    HeaderPlain();
    forall i, j | 0 <= i < |rows| && 0 <= j < |rows[i]|
      ensures ',' !in rows[i][j] && '\n' !in rows[i][j]
    {
      if i > 0 {
        assert rows[i] == rows[1..][i - 1];
      }
    }
    ParseCsvText(rows);
  }

  class MotionRecorder {
    var isRecording: bool
    var samples: seq<seq<string>>
    /** The swing type captured by the accelerometer handler that the last
        successful start installed. */
    var sessionLabel: string
    /** The gyroscope handler, once an accelerometer delivery has installed one. */
    var gyroHandler: Option<GyroHandler>

    /** The header stays first, every later row is a sample row, and no
        gyroscope handler runs while not recording. */
    ghost predicate Valid()
      reads this
    {
      |samples| >= 1 && samples[0] == Header &&
      (forall i :: 1 <= i < |samples| ==> IsSampleRow(samples[i])) &&
      (!isRecording ==> gyroHandler == None)
    }

    /** Every sample row, and the row the gyroscope handler would add next,
        carries the swing type `swingType`. */
    ghost predicate RowsLabelled(swingType: string)
      reads this
      requires Valid()
    {
      (forall i :: 1 <= i < |samples| ==> samples[i][6] == swingType) &&
      (gyroHandler.Some? ==> gyroHandler.value.swingType == swingType)
    }

    /** No sample row, nor the row the gyroscope handler would add next,
        holds a CSV separator, so the buffer reads back from its export. */
    ghost predicate RowsPlain()
      reads this
      requires Valid()
    {
      FieldsAvoid(samples[1..], ',') && FieldsAvoid(samples[1..], '\n') &&
      PlainField(sessionLabel) &&
      (gyroHandler.Some? ==> PlainReading(gyroHandler.value.accel) && PlainField(gyroHandler.value.swingType))
    }

    constructor ()
      ensures Valid() && !isRecording && samples == [Header] && gyroHandler == None
    {
      isRecording := false;
      samples := [Header];
      sessionLabel := "";
      gyroHandler := None;
    }

    /** `startRecording`: fails without any change unless both sensors are
        available; otherwise resets the buffer to the header and records. */
    method Start(swingType: string, accelAvailable: bool, gyroAvailable: bool) returns (started: bool)
      requires Valid()
      modifies this
      ensures Valid()
      ensures started == (accelAvailable && gyroAvailable)
      ensures !started ==> unchanged(this)
      ensures started ==> isRecording && samples == [Header] && sessionLabel == swingType
      ensures gyroHandler == old(gyroHandler)
      ensures started && !old(isRecording) ==> RowsLabelled(swingType)
      ensures started && !old(isRecording) && PlainField(swingType) ==> RowsPlain()
    {
      if !(accelAvailable && gyroAvailable) {
        return false;
      }
      samples := [Header];
      isRecording := true;
      sessionLabel := swingType;
      started := true;
    }

    /** The accelerometer handler: while recording, a delivered reading
        installs a fresh gyroscope handler that captures it. */
    method AccelEvent(data: Option<Reading>)
      requires Valid()
      modifies this`gyroHandler
      ensures Valid()
      ensures gyroHandler ==
        if isRecording && data.Some? then Some(GyroHandler(data.value, sessionLabel)) else old(gyroHandler)
      ensures old(RowsLabelled(sessionLabel)) ==> RowsLabelled(sessionLabel)
      ensures old(RowsPlain()) && (data.Some? ==> PlainReading(data.value)) ==> RowsPlain()
    {
      if isRecording && data.Some? {
        gyroHandler := Some(GyroHandler(data.value, sessionLabel));
      }
    }

    /** The gyroscope handler: while recording, once installed, a delivered
        reading appends one row pairing it with the captured accelerometer reading. */
    method GyroEvent(data: Option<Reading>)
      requires Valid()
      modifies this`samples
      ensures Valid()
      ensures samples ==
        if isRecording && data.Some? && gyroHandler.Some?
        then old(samples) + [SampleRow(gyroHandler.value.accel, data.value, gyroHandler.value.swingType)]
        else old(samples)
      ensures |old(samples)| <= |samples| <= |old(samples)| + 1 && samples[..|old(samples)|] == old(samples)
      ensures old(RowsLabelled(sessionLabel)) ==> RowsLabelled(sessionLabel)
      ensures old(RowsPlain()) && (data.Some? ==> PlainReading(data.value)) ==> RowsPlain()
    {
      if isRecording && data.Some? && gyroHandler.Some? {
        var h := gyroHandler.value;
        var row := SampleRow(h.accel, data.value, h.swingType);
        ghost var before := samples;
        samples := samples + [row];
        assert samples[1..] == before[1..] + [row];
      }
    }

    /** `stopRecording`: without a session, completes with nothing and changes
        nothing; otherwise stops recording and both handlers, writes the
        buffer's CSV text under the session's file name, and completes with
        that name if the write succeeded. */
    method Stop(swingType: string, writeOk: bool, timestamp: string)
      returns (url: Option<string>, attempted: Option<CsvFile>)
      requires Valid()
      modifies this`isRecording, this`gyroHandler
      ensures Valid()
      ensures !old(isRecording) ==> url == None && attempted == None && unchanged(this)
      ensures old(isRecording) ==>
        !isRecording && gyroHandler == None &&
        attempted == Some(CsvFile(FileName(swingType, timestamp), CsvText(samples))) &&
        url == if writeOk then Some(FileName(swingType, timestamp)) else None
      ensures attempted.Some? && RowsPlain() ==> ParseCsv(attempted.value.contents) == samples
    {
      if !isRecording {
        return None, None;
      }
      isRecording := false;
      gyroHandler := None;
      var name := FileName(swingType, timestamp);
      attempted := Some(CsvFile(name, CsvText(samples)));
      if RowsPlain() {
        ghost var rows := samples;
        assert FieldsAvoid(rows[1..], ',') && FieldsAvoid(rows[1..], '\n');
        ExportReadsBack(rows);
      }
      url := if writeOk then Some(name) else None;
    }
  }

  /** A session on an idle recorder, whatever it recorded before, started
      from the button and stopped by its timer with the swing type it was
      started with. A gyroscope delivery before the first accelerometer
      delivery adds nothing; the two after it both pair with that one
      accelerometer reading. The export holds the header and those two rows
      only, and the recorder is left idle with them. */
  method RecordSession(recorder: MotionRecorder, swingType: string, a: Reading, g1: Reading, g2: Reading,
                       timestamp: string)
    returns (url: Option<string>, csv: Option<CsvFile>)
    requires recorder.Valid() && !recorder.isRecording
    modifies recorder
    ensures recorder.Valid() && !recorder.isRecording
    ensures recorder.samples == [Header, SampleRow(a, g1, swingType), SampleRow(a, g2, swingType)]
    ensures url == Some(FileName(swingType, timestamp))
    ensures csv == Some(CsvFile(FileName(swingType, timestamp), CsvText(recorder.samples)))
  {
    var ok := recorder.Start(swingType, true, true);
    recorder.GyroEvent(Some(g1));
    recorder.AccelEvent(Some(a));
    recorder.GyroEvent(Some(g1));
    recorder.GyroEvent(Some(g2));
    assert recorder.samples == [Header, SampleRow(a, g1, swingType), SampleRow(a, g2, swingType)];
    url, csv := recorder.Stop(swingType, true, timestamp);
  }

  /** One session of the watch app followed by deliveries that arrive after
      stop: they leave the buffer as stop found it, and a second stop
      completes with nothing and writes nothing. */
  method SessionThenLateEvents(swingType: string, a: Reading, g1: Reading, g2: Reading, timestamp: string)
    returns (url: Option<string>, csv: Option<CsvFile>, late: seq<seq<string>>,
             again: Option<string>, rewritten: Option<CsvFile>)
    ensures url == Some(FileName(swingType, timestamp)) && again == None && rewritten == None
    ensures late == [Header, SampleRow(a, g1, swingType), SampleRow(a, g2, swingType)]
    ensures csv == Some(CsvFile(FileName(swingType, timestamp), CsvText(late)))
  {
    var recorder := new MotionRecorder();
    url, csv := RecordSession(recorder, swingType, a, g1, g2, timestamp);
    recorder.AccelEvent(Some(a));
    recorder.GyroEvent(Some(g1));
    late := recorder.samples;
    again, rewritten := recorder.Stop(swingType, true, timestamp);
  }

  /** Two sessions on one recorder: each export holds only its own
      session's rows. */
  method RestartResets(first: string, second: string, a1: Reading, g1: Reading, a2: Reading, g2: Reading,
                       t1: string, t2: string)
    returns (export1: Option<CsvFile>, export2: Option<CsvFile>)
    ensures export1 == Some(CsvFile(FileName(first, t1),
                                    CsvText([Header, SampleRow(a1, g1, first), SampleRow(a1, g1, first)])))
    ensures export2 == Some(CsvFile(FileName(second, t2),
                                    CsvText([Header, SampleRow(a2, g2, second), SampleRow(a2, g2, second)])))
  {
    var recorder := new MotionRecorder();
    var url1, url2;
    url1, export1 := RecordSession(recorder, first, a1, g1, g1, t1);
    url2, export2 := RecordSession(recorder, second, a2, g2, g2, t2);
  }
}
