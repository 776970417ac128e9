/** `LogWriter`: CSV rows to a log file that is opened lazily on the first
    write and replaced by a fresh one once it is `interval_sec` old.

    The directory, the file names and the csv module are replaced by the
    sequence `files` of every file opened so far, each the sequence of rows
    written to it; the writer's nullable `file`/`start_ts` pair is read as
    the two-state machine `Closed | Open(since)`. */
module CsiLog {
  import opened PyStr

  datatype Phase = Closed | Open(since: real)

  /** A CSV row: the fixed header (`timestamp, mode, subcarrier, amplitude,
      motion_score`), or one sample with those five columns. */
  datatype Row =
    | Header
    | Data(timestamp: real, mode: string, subcarrier: int, amplitude: int, motionScore: real)

  datatype Logger = Logger(phase: Phase, files: seq<seq<Row>>)

  const Initial: Logger := Logger(Closed, [])

  /** A header row first, data rows after it. */
  predicate IsLogFile(f: seq<Row>) {
    f != [] && f[0] == Header && forall i :: 1 <= i < |f| ==> f[i].Data?
  }

  predicate WellFormed(s: Logger) {
    && (s.phase.Open? ==> s.files != [])
    && forall k :: 0 <= k < |s.files| ==> IsLogFile(s.files[k])
  }

  /** `self.file is None or (now - self.start_ts) >= self.interval_sec` */
  predicate NeedsNewFile(p: Phase, now: real, intervalSec: real) {
    p.Closed? || now - p.since >= intervalSec
  }

  /** `_open_new_file(now)`: a new file holding only the header. */
  function OpenFile(enabled: bool, s: Logger, now: real): (r: Logger)
    ensures !enabled ==> r == s
    ensures enabled ==> r.phase == Open(now) && |r.files| == |s.files| + 1
  {
    if !enabled then s else Logger(Open(now), s.files + [[Header]])
  }

  /** `close()` */
  function CloseFile(s: Logger): (r: Logger)
    ensures r.phase == Closed && r.files == s.files
  {
    Logger(Closed, s.files)
  }

  /** `writer.writerow(row)` on the newest file. */
  function AppendRow(s: Logger, row: Row): (r: Logger)
    requires s.files != []
    ensures r.phase == s.phase && |r.files| == |s.files|
  {
    Logger(s.phase, s.files[..|s.files| - 1] + [s.files[|s.files| - 1] + [row]])
  }

  /** `write(now, ...)`, with `enabled` standing for a truthy `log_dir`. */
  function LogWrite(enabled: bool, intervalSec: real, s: Logger, now: real, row: Row): (r: Logger)
    requires WellFormed(s) && row.Data?
    ensures WellFormed(r)
  {
    if !enabled then s
    else
      var current := if NeedsNewFile(s.phase, now, intervalSec) then OpenFile(true, CloseFile(s), now) else s;
      AppendRow(current, row)
  }

  // ---------------------------------------------------------------------
  // Counting rows

  function DataIn(f: seq<Row>): nat {
    if f == [] then 0 else DataIn(f[..|f| - 1]) + (if f[|f| - 1].Data? then 1 else 0)
  }

  function DataRows(files: seq<seq<Row>>): nat {
    if files == [] then 0 else DataRows(files[..|files| - 1]) + DataIn(files[|files| - 1])
  }

  /** One call of `write` with a log directory: exactly one data row is
      added, at the end of the newest file; a new file (header first) is
      started exactly when none is open or the open one is `interval_sec`
      old, and then it is marked as opened `now`; no earlier file changes. */
  lemma WriteAddsOneRow(intervalSec: real, s: Logger, now: real, row: Row)
    requires WellFormed(s) && row.Data?
    ensures var r := LogWrite(true, intervalSec, s, now, row);
      var rotated := NeedsNewFile(s.phase, now, intervalSec);
      && DataRows(r.files) == DataRows(s.files) + 1
      && r.files[|r.files| - 1][|r.files[|r.files| - 1]| - 1] == row
      && (rotated ==> r.files == s.files + [[Header, row]] && r.phase == Open(now))
      && (!rotated ==> |r.files| == |s.files| && r.phase == s.phase
                       && r.files[..|s.files| - 1] == s.files[..|s.files| - 1]
                       && r.files[|s.files| - 1] == s.files[|s.files| - 1] + [row])
  {
    var r := LogWrite(true, intervalSec, s, now, row);
    var current := if NeedsNewFile(s.phase, now, intervalSec) then OpenFile(true, CloseFile(s), now) else s;
    var n := |current.files|;
    assert r.files[..n - 1] == current.files[..n - 1];
    assert current.files[n - 1] + [row] == r.files[n - 1];
    assert (current.files[n - 1] + [row])[..|current.files[n - 1]|] == current.files[n - 1];
    assert r.files[..n - 1] + [r.files[n - 1]] == r.files;
    if NeedsNewFile(s.phase, now, intervalSec) {
      assert current.files[..n - 1] == s.files;
      assert [Header] + [row] == [Header, row];
      assert r.files == s.files + [[Header, row]];
      assert DataIn([Header]) == 0 by { assert [Header][..0] == []; }
    }
  }

  /** With no log directory `write` does nothing at all. */
  lemma WriteDisabledIsNoOp(intervalSec: real, s: Logger, now: real, row: Row)
    requires WellFormed(s) && row.Data?
    ensures LogWrite(false, intervalSec, s, now, row) == s
  {
  }

  /** `close()` twice is `close()` once, and the write after it opens a fresh file. */
  lemma CloseIdempotent(s: Logger, now: real, intervalSec: real)
    ensures CloseFile(CloseFile(s)) == CloseFile(s)
    ensures CloseFile(s).files == s.files
    ensures NeedsNewFile(CloseFile(s).phase, now, intervalSec)
  {
  }

  // ---------------------------------------------------------------------
  // Runs of writes

  function WriteAll(enabled: bool, intervalSec: real, s: Logger, writes: seq<Row>): (r: Logger)
    requires WellFormed(s) && forall k :: 0 <= k < |writes| ==> writes[k].Data?
    ensures WellFormed(r)
    decreases |writes|
  {
    if writes == [] then s
    else
      var last := writes[|writes| - 1];
      LogWrite(enabled, intervalSec, WriteAll(enabled, intervalSec, s, writes[..|writes| - 1]), last.timestamp, last)
  }

  /** The log holds one data row per write: none is lost across a rotation. */
  lemma {:induction false} WriteAllCountsRows(intervalSec: real, s: Logger, writes: seq<Row>)
    requires WellFormed(s) && forall k :: 0 <= k < |writes| ==> writes[k].Data?
    ensures DataRows(WriteAll(true, intervalSec, s, writes).files) == DataRows(s.files) + |writes|
    decreases |writes|
  {
    if writes != [] {
      var before := WriteAll(true, intervalSec, s, writes[..|writes| - 1]);
      WriteAllCountsRows(intervalSec, s, writes[..|writes| - 1]);
      WriteAddsOneRow(intervalSec, before, writes[|writes| - 1].timestamp, writes[|writes| - 1]);
    }
  }

  /** Whatever the clock does, within every file each row is less than
      `interval_sec` later than the file's first row: a row at least that
      late goes to a new file. */
  predicate SpanWithin(f: seq<Row>, intervalSec: real) {
    forall i :: 2 <= i < |f| && f[1].Data? && f[i].Data? ==> f[i].timestamp - f[1].timestamp < intervalSec
  }

  /** The open phase remembers the timestamp of its file's first row. */
  predicate SinceIsFirstRow(s: Logger) {
    s.phase.Open? ==>
      (&& s.files != [] && |s.files[|s.files| - 1]| >= 2
       && s.files[|s.files| - 1][1].Data?
       && s.files[|s.files| - 1][1].timestamp == s.phase.since)
  }

  predicate Rotating(s: Logger, intervalSec: real) {
    && WellFormed(s)
    && SinceIsFirstRow(s)
    && forall k :: 0 <= k < |s.files| ==> SpanWithin(s.files[k], intervalSec)
  }

  lemma WritePreservesRotating(intervalSec: real, s: Logger, row: Row)
    requires Rotating(s, intervalSec) && row.Data?
    ensures Rotating(LogWrite(true, intervalSec, s, row.timestamp, row), intervalSec)
  {
    var r := LogWrite(true, intervalSec, s, row.timestamp, row);
    WriteAddsOneRow(intervalSec, s, row.timestamp, row);
    if !NeedsNewFile(s.phase, row.timestamp, intervalSec) {
      var n := |s.files|;
      var f := s.files[n - 1];
      assert r.files[n - 1] == f + [row];
      assert SpanWithin(f + [row], intervalSec) by {
        forall i | 2 <= i < |f| + 1 && (f + [row])[1].Data? && (f + [row])[i].Data?
          ensures (f + [row])[i].timestamp - (f + [row])[1].timestamp < intervalSec
        {
          if i < |f| {
            assert (f + [row])[i] == f[i];
          }
        }
      }
      forall k | 0 <= k < |r.files| ensures SpanWithin(r.files[k], intervalSec) {
        if k < n - 1 {
          assert r.files[k] == r.files[..n - 1][k];
        }
      }
    } else {
      forall k | 0 <= k < |r.files| ensures SpanWithin(r.files[k], intervalSec) {
        if k < |s.files| {
          assert r.files[k] == s.files[k];
        }
      }
    }
  }

  /** The first write opens the first file, stamped with its time. */
  lemma FirstWriteOpens(intervalSec: real, a: Row)
    requires a.Data?
    ensures LogWrite(true, intervalSec, Initial, a.timestamp, a) == Logger(Open(a.timestamp), [[Header, a]])
  {
    var files := Initial.files + [[Header]];
    assert files == [[Header]] && files[..0] == [];
    assert [Header] + [a] == [Header, a];
  }

  /** A write less than `interval_sec` after the file was opened joins it. */
  lemma WriteJoinsOpenFile(intervalSec: real, t0: real, a: Row, b: Row)
    requires a.Data? && b.Data? && b.timestamp - t0 < intervalSec
    ensures LogWrite(true, intervalSec, Logger(Open(t0), [[Header, a]]), b.timestamp, b)
            == Logger(Open(t0), [[Header, a, b]])
  {
    assert [[Header, a]][..0] == [];
    assert [Header, a] + [b] == [Header, a, b];
  }

  /** A write `interval_sec` or more after the file was opened starts the next one. */
  lemma WriteRotates(intervalSec: real, t0: real, a: Row, b: Row, c: Row)
    requires a.Data? && b.Data? && c.Data? && c.timestamp - t0 >= intervalSec
    ensures LogWrite(true, intervalSec, Logger(Open(t0), [[Header, a, b]]), c.timestamp, c)
            == Logger(Open(c.timestamp), [[Header, a, b], [Header, c]])
  {
    var files := [[Header, a, b]] + [[Header]];
    assert files[..1] == [[Header, a, b]];
    assert files[1] + [c] == [Header, c];
  }

  /** Interval R and writes at t0, t0+R-e and t0+R+e (e > 0): two files; the
      second is opened by the third write. */
  lemma ExampleTwoFiles(intervalSec: real, t0: real, e: real, a: Row, b: Row, c: Row)
    requires e > 0.0
    requires a.Data? && b.Data? && c.Data?
    requires a.timestamp == t0 && b.timestamp == t0 + intervalSec - e && c.timestamp == t0 + intervalSec + e
    ensures WriteAll(true, intervalSec, Initial, [a, b, c]).files == [[Header, a, b], [Header, c]]
  {
    ExampleOneFile(intervalSec, t0, e, a, b);
    assert [a, b, c][..2] == [a, b];
    WriteRotates(intervalSec, t0, a, b, c);
  }

  /** The first two of those writes share the first file. */
  lemma ExampleOneFile(intervalSec: real, t0: real, e: real, a: Row, b: Row)
    requires e > 0.0
    requires a.Data? && b.Data?
    requires a.timestamp == t0 && b.timestamp == t0 + intervalSec - e
    ensures WriteAll(true, intervalSec, Initial, [a, b]) == Logger(Open(t0), [[Header, a, b]])
  {
    var first := Logger(Open(t0), [[Header, a]]);
    assert WriteAll(true, intervalSec, Initial, [a]) == first by {
      assert [a][..0] == [];
      FirstWriteOpens(intervalSec, a);
    }
    assert [a, b][..1] == [a];
    assert WriteAll(true, intervalSec, Initial, [a, b])
           == LogWrite(true, intervalSec, first, b.timestamp, b);
    WriteJoinsOpenFile(intervalSec, t0, a, b);
  }

  // ---------------------------------------------------------------------
  // The writer object

  class LogWriter {
    const logDir: string
    const intervalSec: real
    var startTs: Option<real>
    /** `self.file` and `self.writer`, which are always set and cleared together. */
    var fileOpen: bool
    /** Every file opened so far, each the rows written to it. */
    var files: seq<seq<Row>>

    predicate Enabled() {
      logDir != []
    }

    function State(): Logger
      reads this
    {
      Logger(if fileOpen && startTs.Some? then Open(startTs.value) else Closed, files)
    }

    ghost predicate Valid()
      reads this
    {
      && (fileOpen ==> startTs.Some?)
      && (!Enabled() ==> !fileOpen && files == [])
      && WellFormed(State())
    }

    constructor (logDir: string, intervalSec: real)
      ensures Valid()
      ensures this.logDir == logDir && this.intervalSec == intervalSec
      ensures State() == Initial && startTs == None
    {
      this.logDir := logDir;
      this.intervalSec := intervalSec;
      startTs := None;
      fileOpen := false;
      files := [];
    }

    /** `_open_new_file(now)` */
    method OpenNewFile(now: real)
      requires Valid()
      modifies this
      ensures Valid()
      ensures State() == OpenFile(Enabled(), old(State()), now)
    {
      if !Enabled() {
        return;
      }
      startTs := Some(now);
      files := files + [[Header]];
      fileOpen := true;
    }

    /** `write(now, mode, subcarrier, amplitude, motion_score)` */
    method Write(now: real, mode: string, subcarrier: int, amplitude: int, motionScore: real)
      requires Valid()
      modifies this
      ensures Valid()
      ensures State() == LogWrite(Enabled(), intervalSec, old(State()), now,
                                      Data(now, mode, subcarrier, amplitude, motionScore))
    {
      if !Enabled() {
        return;
      }
      if !fileOpen || now - startTs.value >= intervalSec {
        Close();
        OpenNewFile(now);
      }
      if fileOpen {
        files := files[..|files| - 1] + [files[|files| - 1] + [Data(now, mode, subcarrier, amplitude, motionScore)]];
      }
    }

    /** `close()`: nothing happens when no file is open. */
    method Close()
      requires Valid()
      modifies this
      ensures Valid()
      ensures State() == CloseFile(old(State()))
      ensures old(!fileOpen) ==> unchanged(this)
      ensures startTs == old(startTs)
    {
      if fileOpen {
        fileOpen := false;
      }
    }
  }
}
