/** The body of `main`'s loop: a parsed frame is checked against the chosen
    subcarrier, pushed into the three plot windows in lockstep, scored for
    motion, logged and counted.  The wall clock and the two `WaitTimer`s are
    inputs (`now`, `statsDue`, `renderDue`); the standard deviation is the
    abstract function `std` of the subcarrier window. */
module SerialPlot {
  import opened PyStr
  import opened CsiParser
  import opened CsiLog
  import opened BoundedWindow

  /** `last_motion` after a frame: the window's dispersion once it holds
      two samples or more, otherwise the previous score. */
  function NextMotion(window: seq<int>, last: real, std: seq<int> -> real): (m: real)
    ensures |window| <= 1 ==> m == last
    ensures |window| > 1 ==> m == std(window)
  {
    if |window| > 1 then std(window) else last
  }

  /** `parse_csi_line` raised: `int()` rejected a token or `math.sqrt`
      could not convert a square.  Either exception ends `main`. */
  predicate Raises(o: ParseOutcome) {
    o.ValueError? || o.OverflowError?
  }

  /** The value `parse_csi_line` returns, for a line on which it returns. */
  function Returned(o: ParseOutcome): Option<seq<int>>
    requires !Raises(o)
  {
    if o.Frame? then Some(o.amplitudes) else None
  }

  /** A frame is kept only when it exists and has the chosen subcarrier. */
  predicate Accepts(frame: Option<seq<int>>, subcarrier: nat) {
    frame.Some? && subcarrier < |frame.value|
  }

  /** What `parse_csi_line` yields for each line, in order. */
  function Outcomes(lines: seq<string>): (os: seq<ParseOutcome>)
    ensures |os| == |lines|
    ensures forall k :: 0 <= k < |lines| ==> os[k] == ParseLine(lines[k])
  {
    seq(|lines|, k requires 0 <= k < |lines| => ParseLine(lines[k]))
  }

  /** The frames among `outcomes` that the loop keeps, in order. */
  function Kept(outcomes: seq<ParseOutcome>, subcarrier: nat): (frames: seq<seq<int>>)
    ensures forall k :: 0 <= k < |frames| ==> subcarrier < |frames[k]|
    ensures |frames| <= |outcomes|
  {
    if outcomes == [] then []
    else
      var o := outcomes[|outcomes| - 1];
      Kept(outcomes[..|outcomes| - 1], subcarrier)
        + (if o.Frame? && subcarrier < |o.amplitudes| then [o.amplitudes] else [])
  }

  /** The frames of `lines` that the loop keeps, in order. */
  function AcceptedFrames(lines: seq<string>, subcarrier: nat): (frames: seq<seq<int>>)
    ensures forall k :: 0 <= k < |frames| ==> subcarrier < |frames[k]|
    ensures |frames| <= |lines|
  {
    Kept(Outcomes(lines), subcarrier)
  }

  /** The chosen subcarrier's amplitude in each frame. */
  function Samples(frames: seq<seq<int>>, subcarrier: nat): (samples: seq<int>)
    requires forall k :: 0 <= k < |frames| ==> subcarrier < |frames[k]|
    ensures |samples| == |frames|
    ensures forall k :: 0 <= k < |frames| ==> samples[k] == frames[k][subcarrier]
  {
    if frames == [] then []
    else Samples(frames[..|frames| - 1], subcarrier) + [frames[|frames| - 1][subcarrier]]
  }

  /** One more outcome extends the kept frames by its frame exactly when the
      loop keeps it, and the samples by that frame's chosen entry. */
  lemma KeptNext(outcomes: seq<ParseOutcome>, o: ParseOutcome, subcarrier: nat)
    requires !Raises(o)
    ensures var before := Kept(outcomes, subcarrier);
      var frame := Returned(o);
      && Kept(outcomes + [o], subcarrier)
         == before + (if Accepts(frame, subcarrier) then [frame.value] else [])
      && Samples(Kept(outcomes + [o], subcarrier), subcarrier)
         == Samples(before, subcarrier) + (if Accepts(frame, subcarrier) then [frame.value[subcarrier]] else [])
  {
    assert (outcomes + [o])[..|outcomes|] == outcomes;
    var before := Kept(outcomes, subcarrier);
    var frame := Returned(o);
    if Accepts(frame, subcarrier) {
      assert (before + [frame.value])[..|before|] == before;
    }
  }

  /** The k-th sample is the chosen entry of the k-th frame. */
  predicate CoIndexed(frames: seq<seq<int>>, samples: seq<int>, subcarrier: nat) {
    && |frames| == |samples|
    && forall k :: 0 <= k < |frames| ==> subcarrier < |frames[k]| && samples[k] == frames[k][subcarrier]
  }

  /** Appending a frame and its sample to equally long windows keeps them co-indexed. */
  lemma AppendKeepsCoIndexed(frames: seq<seq<int>>, samples: seq<int>, frame: seq<int>, subcarrier: nat, maxLen: nat)
    requires CoIndexed(frames, samples, subcarrier) && 1 <= maxLen && |frames| <= maxLen
    requires subcarrier < |frame|
    ensures CoIndexed(Append(frames, frame, maxLen), Append(samples, frame[subcarrier], maxLen), subcarrier)
  {
    if |frames| < maxLen {
      assert Append(frames, frame, maxLen) == frames + [frame];
      assert Append(samples, frame[subcarrier], maxLen) == samples + [frame[subcarrier]];
    } else {
      assert Append(frames, frame, maxLen) == frames[1..] + [frame];
      assert Append(samples, frame[subcarrier], maxLen) == samples[1..] + [frame[subcarrier]];
    }
  }

  /** `"Replay" if args.replay_file else "Live"` */
  function ModeLabel(replayFile: string): (mode: string)
    ensures mode == "Replay" <==> replayFile != []
    ensures mode == "Replay" || mode == "Live"
  {
    if replayFile != [] then "Replay" else "Live"
  }

  class Pipeline {
    const subcarrier: nat
    const maxPoints: nat
    const modeLabel: string
    const std: seq<int> -> real
    const log: LogWriter

    var ampWindow: seq<seq<int>>
    var subcarrierWindow: seq<int>
    var motionWindow: seq<real>
    var lastMotion: real
    var packetCount: nat
    var totalPacketCounts: nat

    /** Three windows of one length, at most `max_points`, co-indexed: the
        k-th subcarrier sample is the chosen entry of the k-th frame. */
    ghost predicate Valid()
      reads this, log
    {
      && 1 <= maxPoints
      && |ampWindow| == |subcarrierWindow| == |motionWindow| <= maxPoints
      && CoIndexed(ampWindow, subcarrierWindow, subcarrier)
      && log.Valid()
    }

    /** The state `main` sets up before reading the first line. */
    constructor (subcarrier: nat, maxPoints: nat, replayFile: string, logDir: string,
                 logIntervalMin: real, std: seq<int> -> real)
      requires 1 <= maxPoints
      ensures Valid() && fresh(log)
      ensures this.subcarrier == subcarrier && this.maxPoints == maxPoints && this.std == std
      ensures modeLabel == ModeLabel(replayFile)
      ensures log.logDir == logDir && log.intervalSec == logIntervalMin * 60.0 && log.State() == Initial
      ensures ampWindow == [] && subcarrierWindow == [] && motionWindow == []
      ensures lastMotion == 0.0 && packetCount == 0 && totalPacketCounts == 0
    {
      this.subcarrier := subcarrier;
      this.maxPoints := maxPoints;
      this.std := std;
      modeLabel := ModeLabel(replayFile);
      log := new LogWriter(logDir, logIntervalMin * 60.0);
      ampWindow, subcarrierWindow, motionWindow := [], [], [];
      lastMotion := 0.0;
      packetCount, totalPacketCounts := 0, 0;
    }

    /** One pass of the loop body for the value `parse_csi_line` returned.
        `report` is what the stats line prints, `render` whether
        `render_plots` is called. */
    method Step(frame: Option<seq<int>>, now: real, statsDue: bool, renderDue: bool)
      returns (accepted: bool, report: Option<(nat, nat)>, render: bool)
      requires Valid()
      modifies this, log
      ensures Valid()
      ensures accepted == Accepts(frame, subcarrier)
      ensures !accepted ==> unchanged(this, log) && report == None && !render
      ensures accepted ==>
        && ampWindow == Append(old(ampWindow), frame.value, maxPoints)
        && subcarrierWindow == Append(old(subcarrierWindow), frame.value[subcarrier], maxPoints)
        && lastMotion == NextMotion(subcarrierWindow, old(lastMotion), std)
        && motionWindow == Append(old(motionWindow), lastMotion, maxPoints)
      ensures accepted ==>
        log.State() == LogWrite(log.Enabled(), log.intervalSec, old(log.State()), now,
                                Data(now, modeLabel, subcarrier, frame.value[subcarrier], lastMotion))
      ensures accepted ==>
        && totalPacketCounts == old(totalPacketCounts) + 1
        && packetCount == (if statsDue then 0 else old(packetCount) + 1)
        && report == (if statsDue then Some((old(packetCount) + 1, totalPacketCounts)) else None)
        && render == (renderDue && |ampWindow| > 2)
    {
      if frame.None? {
        return false, None, false;
      }
      var amplitudes := frame.value;
      if subcarrier >= |amplitudes| {
        return false, None, false;
      }

      PushFrame(amplitudes);
      var subcarrierAmp := amplitudes[subcarrier];

      log.Write(now, modeLabel, subcarrier, subcarrierAmp, lastMotion);

      packetCount := packetCount + 1;
      totalPacketCounts := totalPacketCounts + 1;

      report := None;
      if statsDue {
        report := Some((packetCount, totalPacketCounts));
        packetCount := 0;
      }
      render := renderDue && |ampWindow| > 2;
      accepted := true;
    }

    /** Lines 163-170 of the loop body: the frame, its chosen sample and the
        possibly refreshed motion score each enter their window. */
    method PushFrame(amplitudes: seq<int>)
      requires Valid() && subcarrier < |amplitudes|
      modifies this
      ensures Valid()
      ensures ampWindow == Append(old(ampWindow), amplitudes, maxPoints)
      ensures subcarrierWindow == Append(old(subcarrierWindow), amplitudes[subcarrier], maxPoints)
      ensures lastMotion == NextMotion(subcarrierWindow, old(lastMotion), std)
      ensures motionWindow == Append(old(motionWindow), lastMotion, maxPoints)
      ensures packetCount == old(packetCount) && totalPacketCounts == old(totalPacketCounts)
    {
      AppendKeepsCoIndexed(ampWindow, subcarrierWindow, amplitudes, subcarrier, maxPoints);
      ampWindow := Append(ampWindow, amplitudes, maxPoints);
      var subcarrierAmp := amplitudes[subcarrier];
      subcarrierWindow := Append(subcarrierWindow, subcarrierAmp, maxPoints);
      if |subcarrierWindow| > 1 {
        lastMotion := std(subcarrierWindow);
      }
      motionWindow := Append(motionWindow, lastMotion, maxPoints);
    }

    /** The loop over a finite run of input lines; `clock[i]`, `statsDue[i]`
        and `renderDue[i]` are what `time.time()` and the two timers answer
        while line `i` is handled.  The loop stops early, `crashed`, at the
        first line on which `parse_csi_line` raises `ValueError` or
        `OverflowError`. */
    method Run(lines: seq<string>, clock: seq<real>, statsDue: seq<bool>, renderDue: seq<bool>)
      returns (processed: nat, crashed: bool)
      requires Valid()
      requires |clock| == |lines| && |statsDue| == |lines| && |renderDue| == |lines|
      modifies this, log
      ensures Valid()
      ensures processed <= |lines|
      ensures crashed <==> processed < |lines|
      ensures crashed ==> Raises(ParseLine(lines[processed]))
      ensures forall k :: 0 <= k < processed ==> !Raises(ParseLine(lines[k]))
      ensures var frames := AcceptedFrames(lines[..processed], subcarrier);
        && totalPacketCounts == old(totalPacketCounts) + |frames|
        && ampWindow == LastN(old(ampWindow) + frames, maxPoints)
        && subcarrierWindow == LastN(old(subcarrierWindow) + Samples(frames, subcarrier), maxPoints)
        && (log.Enabled() ==> DataRows(log.files) == old(DataRows(log.files)) + |frames|)
        && (!log.Enabled() ==> log.files == [])
    {
      ghost var amp0, sub0, rows0, count0 := ampWindow, subcarrierWindow, DataRows(log.files), totalPacketCounts;
      ghost var seen: seq<ParseOutcome> := [];
      var i := 0;
      while i < |lines|
        invariant 0 <= i <= |lines| && |seen| == i
        invariant Valid() && |amp0| <= maxPoints && |sub0| <= maxPoints
        invariant Recorded(lines, seen) && NoneRaised(seen)
        invariant Tracks(seen, amp0, sub0, rows0, count0)
      {
        var parsed := ParseCsiLine(lines[i]);
        if Raises(parsed) {
          processed, crashed := i, true;
          Conclude(lines, seen, amp0, sub0, rows0, count0);
          return;
        }
        Advance(seen, parsed, clock[i], statsDue[i], renderDue[i], amp0, sub0, rows0, count0);
        RecordedNext(lines, seen, parsed);
        seen := seen + [parsed];
        i := i + 1;
      }
      processed, crashed := |lines|, false;
      Conclude(lines, seen, amp0, sub0, rows0, count0);
    }

    /** The state after the outcomes `seen`, starting from windows `amp0`
        and `sub0`, `rows0` logged rows and `count0` packets. */
    ghost predicate Tracks(seen: seq<ParseOutcome>, amp0: seq<seq<int>>, sub0: seq<int>, rows0: nat, count0: nat)
      reads this, log
      requires 1 <= maxPoints && |amp0| <= maxPoints && |sub0| <= maxPoints
    {
      var frames := Kept(seen, subcarrier);
      && totalPacketCounts == count0 + |frames|
      && ampWindow == AppendAll(amp0, frames, maxPoints)
      && subcarrierWindow == AppendAll(sub0, Samples(frames, subcarrier), maxPoints)
      && (log.Enabled() ==> DataRows(log.files) == rows0 + |frames|)
    }

    /** `Step` on one more outcome that did not raise keeps `Tracks`. */
    method Advance(ghost seen: seq<ParseOutcome>, parsed: ParseOutcome, now: real, statsDue: bool, renderDue: bool,
                   ghost amp0: seq<seq<int>>, ghost sub0: seq<int>, ghost rows0: nat, ghost count0: nat)
      requires Valid() && |amp0| <= maxPoints && |sub0| <= maxPoints
      requires !Raises(parsed) && Tracks(seen, amp0, sub0, rows0, count0)
      modifies this, log
      ensures Valid() && Tracks(seen + [parsed], amp0, sub0, rows0, count0)
    {
      ghost var logBefore := log.State();
      var accepted, report, render := Step(Returned(parsed), now, statsDue, renderDue);
      KeptNext(seen, parsed, subcarrier);
      if accepted {
        var frames := Kept(seen, subcarrier);
        AppendAllSnoc(amp0, frames, parsed.amplitudes, maxPoints);
        AppendAllSnoc(sub0, Samples(frames, subcarrier), parsed.amplitudes[subcarrier], maxPoints);
        if log.Enabled() {
          WriteAddsOneRow(log.intervalSec, logBefore, now,
                          Data(now, modeLabel, subcarrier, parsed.amplitudes[subcarrier], lastMotion));
        }
      } else {
        assert Kept(seen + [parsed], subcarrier) == Kept(seen, subcarrier);
      }
    }

    /** What `Tracks` says after the outcomes of a prefix of `lines`, in
        terms of the kept frames: the windows hold the newest `max_points`
        of them. */
    lemma Conclude(lines: seq<string>, seen: seq<ParseOutcome>, amp0: seq<seq<int>>, sub0: seq<int>,
                   rows0: nat, count0: nat)
      requires 1 <= maxPoints && |amp0| <= maxPoints && |sub0| <= maxPoints
      requires Recorded(lines, seen) && NoneRaised(seen) && Tracks(seen, amp0, sub0, rows0, count0)
      ensures forall k :: 0 <= k < |seen| ==> !Raises(ParseLine(lines[k]))
      ensures var frames := AcceptedFrames(lines[..|seen|], subcarrier);
        && totalPacketCounts == count0 + |frames|
        && ampWindow == LastN(amp0 + frames, maxPoints)
        && subcarrierWindow == LastN(sub0 + Samples(frames, subcarrier), maxPoints)
        && (log.Enabled() ==> DataRows(log.files) == rows0 + |frames|)
    {
      SeenIsOutcomes(lines, seen);
      var frames := Kept(seen, subcarrier);
      AppendAllKeepsNewest(amp0, frames, maxPoints);
      AppendAllKeepsNewest(sub0, Samples(frames, subcarrier), maxPoints);
    }
  }

  /** `seen` holds what `parse_csi_line` yields on each line of a prefix of
      `lines`. */
  ghost predicate Recorded(lines: seq<string>, seen: seq<ParseOutcome>) {
    |seen| <= |lines| && forall k :: 0 <= k < |seen| ==> seen[k] == ParseLine(lines[k])
  }

  /** No outcome in `seen` raised. */
  predicate NoneRaised(seen: seq<ParseOutcome>) {
    forall k :: 0 <= k < |seen| ==> !Raises(seen[k])
  }

  lemma RecordedNext(lines: seq<string>, seen: seq<ParseOutcome>, parsed: ParseOutcome)
    requires Recorded(lines, seen) && |seen| < |lines|
    requires parsed == ParseLine(lines[|seen|])
    ensures Recorded(lines, seen + [parsed])
  {
    var next := seen + [parsed];
    assert forall k :: 0 <= k < |seen| ==> next[k] == seen[k];
  }

  /** Outcomes recorded line by line are the outcomes of that prefix. */
  lemma SeenIsOutcomes(lines: seq<string>, seen: seq<ParseOutcome>)
    requires Recorded(lines, seen)
    ensures Outcomes(lines[..|seen|]) == seen
  {
  }

  // ---------------------------------------------------------------------
  // Properties of the loop body

  /** The motion score is kept, not reset, while the window holds fewer than
      two samples: with the initial 0.0 the first frame scores 0.0. */
  lemma FirstFrameScoresZero(sample: int, maxPoints: nat, std: seq<int> -> real)
    requires 1 <= maxPoints
    ensures NextMotion(Append([], sample, maxPoints), 0.0, std) == 0.0
  {
  }
}
