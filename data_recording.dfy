// The telemetry sampler (Assets/Scripts/DataManager.cs): while recording, at
// most one sample per `delay` seconds is added to an insertion-ordered map
// keyed by a wall-clock timestamp; stopping the recording lays the samples
// out as spreadsheet rows under a header row.
//
// Time.time, the formatted DateTime.Now timestamp and the bicycle's speed are
// parameters. Workbook files, directories and the file browser are not part
// of this model: a saved sheet is the map from (row, column) to cell value,
// and `savedSheets` lists the sheets written so far.

module DataRecording {
  import opened Options
  import opened SpeedReceiving

  /** The value stored per timestamp: (sensorSpeed, bikeSpeed). */
  datatype Sample = Sample(sensorSpeed: real, bikeSpeed: real)

  datatype Entry = Entry(key: string, sample: Sample)

  datatype Cell = Text(text: string) | Number(number: real)

  /** Cells by (row, column), both counted from 1. */
  type Sheet = map<(int, int), Cell>

  /** OrderedDictionary.Contains(key). */
  predicate HasKey(entries: seq<Entry>, key: string) {
    exists i :: 0 <= i < |entries| && entries[i].key == key
  }

  /** No two entries share a key. */
  predicate KeysUnique(entries: seq<Entry>) {
    forall i, j :: 0 <= i < j < |entries| ==> entries[i].key != entries[j].key
  }

  /** OrderedDictionary.Add(key, sample) for an absent key: the entry goes
      last and the keys stay unique. */
  function Add(entries: seq<Entry>, key: string, sample: Sample): (r: seq<Entry>)
    requires !HasKey(entries, key)
    ensures KeysUnique(entries) ==> KeysUnique(r)
    ensures |r| == |entries| + 1 && r[..|entries|] == entries && r[|entries|] == Entry(key, sample)
    ensures HasKey(r, key)
  {
    assert (entries + [Entry(key, sample)])[|entries|].key == key;
    entries + [Entry(key, sample)]
  }

  function Header(): Sheet {
    map[(1, 1) := Text("Time"),
        (1, 2) := Text("Sensor Speed (KPH)"),
        (1, 3) := Text("In-game Speed (KPH)")]
  }

  /** The header row, then one row per entry in insertion order. */
  function Layout(entries: seq<Entry>): Sheet
    decreases |entries|
  {
    if entries == [] then Header()
    else
      var e := entries[|entries| - 1];
      var row := |entries| + 1;
      Layout(entries[..|entries| - 1])[(row, 1) := Text(e.key)]
                                      [(row, 2) := Number(e.sample.sensorSpeed)]
                                      [(row, 3) := Number(e.sample.bikeSpeed)]
  }

  /** A cell position of the sheet for `count` entries. */
  predicate InSheet(count: int, row: int, column: int) {
    1 <= row <= count + 1 && 1 <= column <= 3
  }

  /** Row 1 holds the three headers and entry k (from 0) lands on row k + 2
      as (key, sensor speed, bike speed); there are no other cells, so the
      sheet has one row more than there are entries. */
  lemma {:induction false} LayoutRows(entries: seq<Entry>)
    ensures forall row, column :: (row, column) in Layout(entries) <==> InSheet(|entries|, row, column)
    ensures (1, 1) in Layout(entries) && Layout(entries)[(1, 1)] == Text("Time")
    ensures (1, 2) in Layout(entries) && Layout(entries)[(1, 2)] == Text("Sensor Speed (KPH)")
    ensures (1, 3) in Layout(entries) && Layout(entries)[(1, 3)] == Text("In-game Speed (KPH)")
    ensures forall k :: 0 <= k < |entries| ==>
              && (k + 2, 1) in Layout(entries) && (k + 2, 2) in Layout(entries) && (k + 2, 3) in Layout(entries)
              && Layout(entries)[(k + 2, 1)] == Text(entries[k].key)
              && Layout(entries)[(k + 2, 2)] == Number(entries[k].sample.sensorSpeed)
              && Layout(entries)[(k + 2, 3)] == Number(entries[k].sample.bikeSpeed)
    decreases |entries|
  {
    if entries != [] {
      var front := entries[..|entries| - 1];
      LayoutRows(front);
      assert forall k :: 0 <= k < |front| ==> front[k] == entries[k];
    }
  }

  /** What writing the workbook produces: nothing at all when there is no
      data, the laid-out sheet otherwise. */
  function SheetFor(entries: seq<Entry>): Option<Sheet> {
    if |entries| == 0 then None else Some(Layout(entries))
  }

  class DataManager {
    /** orderedDictionary, in insertion order. */
    var entries: seq<Entry>
    var lastRecordedTime: real
    var delay: real
    var startRecording: bool
    var recordingCanvasActive: bool
    /** The sheets written so far, oldest first. */
    var savedSheets: seq<Sheet>
    const speedReceiver: SpeedReceiver

    constructor (speedReceiver: SpeedReceiver)
      ensures this.speedReceiver == speedReceiver
      ensures entries == [] && lastRecordedTime == 0.0 && delay == 1.0
      ensures !startRecording && savedSheets == []
    {
      this.speedReceiver := speedReceiver;
      entries := [];
      lastRecordedTime := 0.0;
      delay := 1.0;
      startRecording := false;
      recordingCanvasActive := false;
      savedSheets := [];
    }

    method StartRecording()
      modifies this`startRecording
      ensures startRecording
    {
      startRecording := true;
    }

    /** Stops recording and writes what has been recorded; the recorded data
        is kept. */
    method StopRecording()
      modifies this`startRecording, this`savedSheets
      ensures !startRecording
      ensures savedSheets == old(savedSheets) + (if entries == [] then [] else [Layout(entries)])
    {
      startRecording := false;
      var sheet := WriteExcelFile();
      if sheet.Some? {
        savedSheets := savedSheets + [sheet.value];
      }
    }

    /** The input action's handler: toggles recording and the recording
        canvas; only turning recording off writes a sheet. */
    method StartStopRecording()
      modifies this`startRecording, this`savedSheets, this`recordingCanvasActive
      ensures startRecording == !old(startRecording)
      ensures recordingCanvasActive == startRecording
      ensures old(startRecording) ==> savedSheets == old(savedSheets) + (if entries == [] then [] else [Layout(entries)])
      ensures !old(startRecording) ==> savedSheets == old(savedSheets)
    {
      if startRecording {
        recordingCanvasActive := false;
        StopRecording();
      } else {
        recordingCanvasActive := true;
        StartRecording();
      }
    }

    method OnApplicationQuit()
      modifies this`startRecording, this`savedSheets
      ensures !startRecording
      ensures old(startRecording) ==> savedSheets == old(savedSheets) + (if entries == [] then [] else [Layout(entries)])
      ensures !old(startRecording) ==> savedSheets == old(savedSheets)
    {
      if startRecording {
        StopRecording();
      }
    }

    /** One frame at time `now`, with the formatted wall-clock `timeStamp` and
        the bicycle's speed: while recording and more than `delay` seconds
        after the last sample, a sample under a new timestamp is appended.
        A timestamp already present changes nothing. */
    method Update(now: real, timeStamp: string, bikeSpeed: real)
      modifies this`entries, this`lastRecordedTime
      ensures var recorded := old(startRecording) && now > old(lastRecordedTime) + delay
                              && !HasKey(old(entries), timeStamp);
              && (recorded ==> && entries == Add(old(entries), timeStamp, Sample(speedReceiver.SpeedKph(), bikeSpeed))
                               && lastRecordedTime == now)
              && (!recorded ==> entries == old(entries) && lastRecordedTime == old(lastRecordedTime))
      ensures KeysUnique(old(entries)) ==> KeysUnique(entries)
    {
      if startRecording {
        if now > lastRecordedTime + delay {
          var speed := speedReceiver.SpeedKph();
          if !HasKey(entries, timeStamp) {
            entries := Add(entries, timeStamp, Sample(speed, bikeSpeed));
            lastRecordedTime := now;
          }
        }
      }
    }

    /** The workbook's cells: none when nothing was recorded, otherwise the
        header row and one row per entry, written with a running row
        number. */
    method WriteExcelFile() returns (sheet: Option<Sheet>)
      ensures sheet == SheetFor(entries)
    {
      if |entries| == 0 {
        return None;
      }
      var cells := Header();
      var row := 2;
      for k := 0 to |entries|
        invariant row == k + 2
        invariant cells == Layout(entries[..k])
      {
        var entry := entries[k];
        assert entries[..k + 1][..k] == entries[..k];
        cells := cells[(row, 1) := Text(entry.key)];
        cells := cells[(row, 2) := Number(entry.sample.sensorSpeed)];
        cells := cells[(row, 3) := Number(entry.sample.bikeSpeed)];
        row := row + 1;
      }
      assert entries[..|entries|] == entries;
      sheet := Some(cells);
    }
  }
}
