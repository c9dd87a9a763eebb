# SwingData motion recorder, modelled in Dafny

The watch app of SwingData records five seconds of paired accelerometer and
gyroscope readings, labelled with the swing type picked on the watch face
(Forehand, Backhand or Serve), writes them as a CSV file and hands the file to
the phone. This project models the recording session of `MotionRecorder`
and proves what it guarantees.

- `csv.dfy`, module `Csv`: the serialiser. `Join` is Swift's
  `joined(separator:)`; `CsvText(rows)` joins each row's fields with ',' and
  the rows with '\n'. `Split` and `ParseCsv` are the reading side, used only to
  state what the text means: the line-count, first-line, append and
  split/join round-trip lemmas.
- `motion_recorder.dfy`, module `MotionRecording`: the class
  `MotionRecorder` with the source's fields `isRecording` and `samples`
  (the row buffer, header first), plus `sessionLabel` (the swing type the
  installed accelerometer handler captured) and `gyroHandler` (the gyroscope
  handler the last accelerometer delivery installed, with the reading and the
  swing type it captured). `Start`, `AccelEvent`, `GyroEvent` and `Stop` are
  `startRecording`, the two nested sensor closures and `stopRecording`.
  `FileName` builds `swing_data_<swingType>_<timestamp>.csv`. Three client
  methods run whole sessions the way the button and the timer do.

Sensor deliveries are the event methods' parameters (`Option<Reading>`,
since CoreMotion may hand over no data). Each axis is a string already
formatted with "%.3f". Sensor availability, the write's outcome and the
timestamp text are parameters too.

Every accelerometer delivery restarts the gyroscope updates with a closure
that captures that reading. So a row is appended per gyroscope delivery,
paired with the latest accelerometer reading. Rows therefore follow
gyroscope deliveries, not accelerometer deliveries. In a session started
while idle, no row appears before the first accelerometer delivery.

A `Start` made while already recording is modelled as the code does it. The
buffer is reset, but the gyroscope handler from the earlier session stays
installed. Until the next accelerometer delivery, its rows carry the earlier
swing type. The watch face prevents this by disabling the button while
recording. `Start` therefore promises `RowsLabelled(swingType)` only when it
is called while idle.

`RowsPlain` says that no sample row holds a CSV separator, and neither do the
captured reading nor the swing types still to be written. It holds after a
start from idle with a plain swing type. Deliveries of plain readings keep
it. While it holds, the text that `Stop` writes reads back as the buffer.

## Model

| member | source | states |
|---|---|---|
| `Csv.Join` | MotionRecorder.swift:75 | Swift's `joined(separator:)`: no parts give the empty text and one part gives itself; `SplitJoin` and `JoinSplit` state that it puts exactly one separator between neighbouring parts |
| `Csv.CsvText` | MotionRecorder.swift:75 | the text written for the buffer: no rows give the empty text and a lone row gets no newline; `CsvLines`, `CsvFirstLine`, `CsvAppend` and `ParseCsvText` state what it means |
| `Csv.Split` | MotionRecorder.swift:75 | the reading side of the serialiser: one piece more than there are separators, and no piece holds a separator |
| `Csv.SplitJoin` | MotionRecorder.swift:75 | splitting a join on its separator gives back the parts when no part holds the separator |
| `Csv.JoinSplit` | MotionRecorder.swift:75 | joining the pieces of any text with the separator it was split on gives back the text |
| `Csv.JoinAvoids` | MotionRecorder.swift:75 | a character in no part and different from the separator is not in the join, so rows without '\n' give one line each |
| `Csv.CsvLines` | MotionRecorder.swift:75 | when no field holds '\n', the CSV text has exactly one line per row, line k is row k joined with ',', and it holds exactly |rows| - 1 newlines (none trails the last row) |
| `Csv.CsvFirstLine` | MotionRecorder.swift:75 | the first line of the CSV text is the first row joined with ',', whatever the later rows hold |
| `Csv.CsvAppend` | MotionRecorder.swift:54 | appending a row to the buffer appends "\n" and that row's line to the CSV text, leaving the earlier text unchanged |
| `Csv.ParseCsvText` | MotionRecorder.swift:75 | reading the CSV text back at '\n' and then ',' gives the rows exactly, when no field holds ',' or '\n' and no row is empty |
| `MotionRecording.SampleRow` | MotionRecorder.swift:44-53 | an appended row has eight fields: the three accelerometer axes, the three gyroscope axes, the captured swing type and the literal "0.95" |
| `MotionRecording.FileName` | MotionRecorder.swift:76 | the file name starts with "swing_data_", ends with ".csv", and is 16 characters longer than the swing type and timestamp together |
| `MotionRecording.FileNameInjective` | MotionRecorder.swift:76 | for timestamp texts without '_', as the clock's Double text always is (`ClockText`), two file names are equal exactly when their swing types and timestamps are both equal, whatever the swing types hold |
| `MotionRecording.FileNameCollides` | MotionRecorder.swift:76 | the condition on the timestamps cannot be dropped: with a '_' in one timestamp text, which the clock never writes, two different swing-type and timestamp pairs give the same name |
| `MotionRecording.SwingTypesArePlain` | ContentView.swift:20-24 | the picker's swing types, the constant `SwingTypes`, hold no ',', no '\n' and no '_' |
| `MotionRecording.HeaderPlain` | MotionRecorder.swift:15 | no column name of the header row, the constant `Header` that the buffer starts with and is reset to, holds ',' or '\n' |
| `MotionRecording.HeaderParses` | MotionRecorder.swift:32 | reading back the first line of any export made from a buffer that starts with the header gives exactly the eight column names in order, whatever the labels and readings |
| `MotionRecording.SampleRowPlain` | MotionRecorder.swift:44-53 | a row from readings without separators and a picker swing type holds neither ',' nor '\n' |
| `MotionRecording.ExportReadsBack` | MotionRecorder.swift:75 | a buffer of header plus sample rows whose fields hold no separator reads back exactly from its CSV text |
| `MotionRecording.MotionRecorder.constructor` | MotionRecorder.swift:14-15 | a new recorder is not recording, its buffer is the header row alone, and no gyroscope handler is installed |
| `MotionRecording.MotionRecorder.Start` | MotionRecorder.swift:25-33 | succeeds exactly when both sensors are available. On failure nothing changes. On success it is recording and the buffer is exactly the header, so no earlier row survives. The gyroscope handler is left as it was. From idle, every row of the session will carry the given swing type; if that swing type also holds neither ',' nor '\n', the recorder satisfies `RowsPlain` |
| `MotionRecording.MotionRecorder.AccelEvent` | MotionRecorder.swift:38-41 | while recording, a delivered reading installs a gyroscope handler that captures it and the session's swing type; otherwise nothing changes; the buffer never changes; a plain reading keeps `RowsPlain` |
| `MotionRecording.MotionRecorder.GyroEvent` | MotionRecorder.swift:42-55 | while recording and once a handler is installed, a delivered reading appends exactly one row at the end, built from the captured accelerometer reading, this reading and the captured swing type. Otherwise, and in particular after stop, the buffer is unchanged. Earlier rows are never changed and the header stays first. A plain reading keeps `RowsPlain` |
| `MotionRecording.MotionRecorder.Stop` | MotionRecorder.swift:64-94 | when not recording it completes with nothing, attempts no write and changes nothing. Otherwise it leaves recording off, removes the gyroscope handler and writes the buffer's CSV text under `FileName(swingType, timestamp)`. It completes with that name exactly when the write succeeds, and the buffer is kept. While `RowsPlain` holds, the written text reads back at '\n' and ',' as exactly the buffer |
| `MotionRecording.RecordSession` | MotionRecorder.swift:25-94 | on an idle recorder, whatever it held before, a gyroscope delivery before any accelerometer delivery adds nothing, and two gyroscope deliveries after one accelerometer delivery both pair with it. The export is exactly the header and those two rows under the session's file name, and the recorder is left idle with that buffer |
| `MotionRecording.SessionThenLateEvents` | MotionRecorder.swift:38-72 | after a session ends, an accelerometer and a gyroscope delivery leave the buffer exactly as stop wrote it (header and the session's two rows). A second stop then completes with nothing and attempts no write |
| `MotionRecording.RestartResets` | MotionRecorder.swift:32-33 | two sessions on one recorder: each export holds only its own session's rows |

## Left out

- CoreMotion is not modelled: availability checks, update intervals and delivery on the main queue. Availability is two booleans given to `Start`, and deliveries are explicit calls of `AccelEvent` and `GyroEvent`.
- The five-second `DispatchQueue.main.asyncAfter` timer is not modelled, because its timing is a clock and scheduling matter. `Stop` is an explicit call, so the race where a stale timer stops a later session is not captured.
- `String(format: "%.3f", …)` is floating-point formatting. The six axes are opaque strings, and `PlainReading` states the one fact about its output that the round trip needs.
- The file system and the clock are not modelled. The write's outcome is the `writeOk` parameter, the `timeIntervalSince1970` text is the `timestamp` parameter, and `Stop` returns the file name rather than the URL in the temporary directory.
- WatchConnectivity is not modelled: activation, reachability, `transferFile` with its swing-type metadata, and every delegate method, including the phone-side file move and notification. These are foreign calls whose outcomes are only logged and never reach the completion.
- Logging through `print` is not modelled.
- The watch face's UI and haptics are not modelled. The picker's label set appears as `SwingTypes`. The button's being disabled while recording shows up only as the condition under which `Start` promises `RowsLabelled`.
- MotionRecording.MotionRecorder.Stop: says nothing about whether the name's swing type matches the session. The source takes the swing type as a parameter of `stopRecording`, and its only caller, the timer, passes the one given to `startRecording`. The client methods show that case.
- The clock is not modelled, so two sessions in the same instant are not ruled out. File names are unique for distinct timestamps: `FileNameInjective` proves it for every swing type, using only that the clock's text holds no '_' (`ClockText`).
