# CSI live plot: parser, plot windows and log rotation

A Dafny model of the sequential core of `python_utils/serial_plot_csi_live.py`, a tool
that reads ESP32 channel-state-information (CSI) lines from a serial port or a
replay file, plots one subcarrier's amplitude together with a motion score, and
logs every accepted sample to CSV files that rotate after a fixed interval.

The model has three parts:

- `parse_csi_line` (module `CsiParser`, with the Python string primitives it needs
  in `PyStr`). It checks for the `CSI_DATA` marker, splits the line on commas and
  takes field 25. It strips the brackets with `find`/`rfind`, tokenises with
  `split()` and converts each token with `int()`. The integers are split by index
  parity into imaginary and real parts, and one amplitude is produced per pair.
  `ParseCsiLine` is a method with the source's loops, proved equal to the
  specification function `ParseLine`.
- `LogWriter` (module `CsiLog`). It is a class with the source's fields. The file
  system is a sequence `files` of files, each of them the sequence of rows written
  to it. The class is specified by the pure state machine `Closed | Open(since)`
  (`LogWrite`, `OpenFile`, `CloseFile`).
- The body of `main`'s loop (module `SerialPlot`, with `collections.deque(maxlen=N)`
  in `BoundedWindow`). The class `Pipeline` holds the three plot windows,
  `last_motion`, both counters and the log writer. `Step` is one pass of the loop
  body for an already-parsed frame. `Run` is the loop over a finite sequence of
  lines.

Modelling choices:

- Amplitudes are kept squared (`imag^2 + real^2`), which is an exact integer.
- The standard deviation is an abstract function `std` of the subcarrier window.
- The wall clock (`time.time()`) and the two `WaitTimer.check()` answers are inputs:
  `now`, `statsDue` and `renderDue` in `Step`; `clock`, `statsDue` and `renderDue`
  in `Run`.
- `int()` raising `ValueError` is the outcome `ValueError(token)`. This includes a
  well-formed token of more than 4300 digits, the limit CPython applies by default
  in 3.11 and later and in the security releases 3.10.7, 3.9.14, 3.8.14 and 3.7.14.
- `math.sqrt` raising `OverflowError` is the outcome `OverflowError`. It happens when
  a squared sum rounds past the largest finite double, which is from
  (2^54 - 1) * 2^970 upwards (`FloatOverflowBound`).
- `Run` stops at the first line that raises either exception, as the uncaught
  exception stops `main`; a rejected token is never dropped.

## Model

| member | source | states |
|---|---|---|
| PyStr.Contains | python_utils/serial_plot_csi_live.py:14 | `"CSI_DATA" in line` can only hold when the line is at least as long as the marker |
| PyStr.ContainsIff | python_utils/serial_plot_csi_live.py:14 | `"CSI_DATA" in line` holds exactly when the marker occurs at some index of the line |
| PyStr.Split | python_utils/serial_plot_csi_live.py:17 | `line.split(',')` has one more part than the line has commas |
| PyStr.SplitPartsFree | python_utils/serial_plot_csi_live.py:17 | no part of `split(',')` contains a comma |
| PyStr.SplitJoin | python_utils/serial_plot_csi_live.py:17 | joining the parts with commas gives the line back |
| PyStr.Find | python_utils/serial_plot_csi_live.py:22 | `find('[')` is -1 exactly when there is no `[`; otherwise it is an index holding `[` with no `[` before it |
| PyStr.RFind | python_utils/serial_plot_csi_live.py:23 | `rfind(']')` is -1 exactly when there is no `]`; otherwise it is an index holding `]` with no `]` after it |
| PyStr.FindFirst | python_utils/serial_plot_csi_live.py:22 | `find` returns the first occurrence, whatever it is |
| PyStr.RFindLast | python_utils/serial_plot_csi_live.py:23 | `rfind` returns the last occurrence, whatever it is |
| PyStr.IsSpace | python_utils/serial_plot_csi_live.py:27 | Python's `str.isspace` for one character; no whitespace character is a digit, a sign or an underscore, so `split()` never cuts through a number |
| PyStr.WordLength | python_utils/serial_plot_csi_live.py:27 | the leading run of non-whitespace ends at the first whitespace character or at the end |
| PyStr.Words | python_utils/serial_plot_csi_live.py:27 | every token of `split()` is non-empty and has no whitespace, so the `if x` filter never drops one |
| PyStr.WordsEmptyIff | python_utils/serial_plot_csi_live.py:27-29 | `split()` is empty exactly when the text is all whitespace |
| PyStr.WordsUnwords | python_utils/serial_plot_csi_live.py:27 | `split()` of words joined by single spaces gives the words back |
| PyStr.ParseInt | python_utils/serial_plot_csi_live.py:27 | `int(x)` accepts an optional sign and digits with single underscores between them, of at most 4300 digits; the empty token never converts, a token starting with `-` gives a value `<= 0` and any other a value `>= 0` |
| PyStr.TooManyDigitsRaises | python_utils/serial_plot_csi_live.py:27 | a well-formed unsigned number of more than 4300 digits still raises `ValueError` |
| PyStr.DigitCountOfDigits | python_utils/serial_plot_csi_live.py:27 | a token of digits alone has as many digits, for the 4300-digit limit, as characters |
| PyStr.ParseIntUnsigned | python_utils/serial_plot_csi_live.py:27 | `int()` of a non-empty string of digits is their value when there are at most 4300 of them and raises otherwise |
| PyStr.ParseIntNegated | python_utils/serial_plot_csi_live.py:27 | `int()` of `-` followed by digits is the negated value when there are at most 4300 digits and raises otherwise |
| PyStr.ParseInts | python_utils/serial_plot_csi_live.py:27 | the comprehension succeeds exactly when every token converts: one integer per token, in order, each `int()` of its token; otherwise the error is a token of the list that `int()` rejects |
| PyStr.ParseDigit | python_utils/serial_plot_csi_live.py:27 | `int()` of a one-digit token is that digit |
| PyStr.ShowNat | python_utils/serial_plot_csi_live.py:27 | the source never calls `str()`. `ShowNat` is the decimal rendering in which `ParseIntShow` states the `int()` round trip: a non-empty string of digits |
| PyStr.ParseIntShow | python_utils/serial_plot_csi_live.py:27 | `int(str(n)) == n` for every integer `n` whose decimal form has at most 4300 digits; for a longer one `int()` raises |
| CsiParser.ParseCsiLine | python_utils/serial_plot_csi_live.py:13-46 | the procedure of `parse_csi_line` computes `ParseLine`: no frame, the squared amplitudes, the `ValueError` of the rejected token, or the `OverflowError` of `math.sqrt` |
| CsiParser.Payload | python_utils/serial_plot_csi_live.py:21-25 | the bracket strip never lengthens the field |
| CsiParser.Magnitudes | python_utils/serial_plot_csi_live.py:39-44 | n integers give n/2 squared amplitudes, each non-negative |
| CsiParser.Convertible | python_utils/serial_plot_csi_live.py:43 | defined as: every squared sum is below `FloatOverflowBound`, so `math.sqrt` can convert each one to a double |
| CsiParser.Amplitudes | python_utils/serial_plot_csi_live.py:39-46 | defined as: the frame of the n/2 squared sums when they all convert, otherwise `OverflowError`. `PairAmplitudes` is proved equal to it and `AmplitudesOverflowIff` states when it overflows |
| CsiParser.ParseField | python_utils/serial_plot_csi_live.py:21-46 | defined as: the field's bracket-stripped tokens give `ValueError` of a rejected token, `None` when there are none, and otherwise the amplitude loop over their integers. `ParseLineUsesField`, `NoFrameIff`, `FrameShape`, `OverflowIff` and `BadTokenRaises` state its outcomes |
| CsiParser.ParseLine | python_utils/serial_plot_csi_live.py:13-46 | a frame comes only from a line with at least 25 commas, and a reported `ValueError` names a token that `int()` rejects |
| CsiParser.PairAmplitudes | python_utils/serial_plot_csi_live.py:31-46 | the parity split and the amplitude loop give, for each j below n/2, `csi[2j]^2 + csi[2j+1]^2`, unless one of those sums is too large for a double, in which case the loop raises `OverflowError`; a single integer gives no amplitude |
| CsiParser.AmplitudesOverflowIff | python_utils/serial_plot_csi_live.py:42-44 | the amplitude loop raises `OverflowError` exactly when some pair j below n/2 has `csi[2j]^2 + csi[2j+1]^2 >= FloatOverflowBound` |
| CsiParser.OverflowIff | python_utils/serial_plot_csi_live.py:27-46 | a field raises `OverflowError` exactly when all its tokens convert and the amplitude loop over those integers overflows |
| CsiParser.SplitByParity | python_utils/serial_plot_csi_live.py:31-37 | `imaginary` holds the values at even positions and `real` those at odd positions, in order: ceil(n/2) and floor(n/2) of them |
| CsiParser.NoFrameIff | python_utils/serial_plot_csi_live.py:14-29 | `None` exactly when the marker is missing, there are fewer than 25 commas (so no field 25), or the payload has no tokens |
| CsiParser.ParseLineUsesField | python_utils/serial_plot_csi_live.py:14-21 | with the marker and 25 commas, the result is decided by field 25 alone |
| CsiParser.PayloadBetweenBrackets | python_utils/serial_plot_csi_live.py:21-25 | when the last `]` comes after the first `[`, the payload is exactly the text strictly between them |
| CsiParser.PayloadVerbatim | python_utils/serial_plot_csi_live.py:21-25 | when a bracket is missing or the last `]` does not come after the first `[`, the field is used verbatim |
| CsiParser.FrameShape | python_utils/serial_plot_csi_live.py:27-46 | n integers whose squared sums all convert to a double give a list of n/2 amplitudes, element j being `csi[2j]^2 + csi[2j+1]^2`; when n = 1 the list is empty, not `None` |
| CsiParser.BadTokenRaises | python_utils/serial_plot_csi_live.py:27 | any token `int()` rejects makes the line raise |
| CsiParser.ExampleBracketStrip | python_utils/serial_plot_csi_live.py:22-25 | `[1 2 3 4 5 6]` strips to `1 2 3 4 5 6` |
| CsiParser.ExampleTokens | python_utils/serial_plot_csi_live.py:27 | `1 2 3 4 5 6` tokenises into six tokens |
| CsiParser.ExampleIntegers | python_utils/serial_plot_csi_live.py:27 | those tokens convert to 1 … 6 |
| CsiParser.ExampleMagnitudes | python_utils/serial_plot_csi_live.py:31-46 | 1 … 6 pair into the squared amplitudes 5, 25, 61 |
| CsiParser.ExampleAmplitudes | python_utils/serial_plot_csi_live.py:39-46 | 1 … 6 give the frame [5, 25, 61], none of its squares overflowing |
| CsiParser.ExamplePayload | python_utils/serial_plot_csi_live.py:21-46 | the field `[1 2 3 4 5 6]` gives the frame [5, 25, 61] |
| CsiLog.NeedsNewFile | python_utils/serial_plot_csi_live.py:79 | defined as: no file is open, or `now - start_ts >= interval_sec`. `WriteJoinsOpenFile` and `WriteRotates` state both sides of the test |
| CsiLog.OpenFile | python_utils/serial_plot_csi_live.py:57-73 | without a log directory nothing changes; otherwise `start_ts = now` and exactly one new file is added |
| CsiLog.CloseFile | python_utils/serial_plot_csi_live.py:86-90 | no file is open afterwards, and no file's rows change |
| CsiLog.AppendRow | python_utils/serial_plot_csi_live.py:84 | `writerow` neither opens nor closes a file and adds no file |
| CsiLog.LogWrite | python_utils/serial_plot_csi_live.py:75-84 | a write keeps the log well formed: the header first in every file, data rows after it, and a file exists while one is open |
| CsiLog.WriteAddsOneRow | python_utils/serial_plot_csi_live.py:57-84 | with a log directory, one write adds exactly one data row, at the end of the newest file. A new file `[header, row]` with `start_ts = now` is opened exactly when none is open or `now - start_ts >= interval_sec`. Otherwise the current file gains the row and the earlier files are unchanged |
| CsiLog.WriteDisabledIsNoOp | python_utils/serial_plot_csi_live.py:75-77 | with no log directory a write changes nothing |
| CsiLog.CloseIdempotent | python_utils/serial_plot_csi_live.py:86-90 | closing twice is closing once, no file's rows change, and the next write opens a fresh file |
| CsiLog.WriteAll | python_utils/serial_plot_csi_live.py:75-84 | any sequence of writes keeps the log well formed |
| CsiLog.WriteAllCountsRows | python_utils/serial_plot_csi_live.py:75-84 | the log holds one data row per write; no row is lost across a rotation |
| CsiLog.WritePreservesRotating | python_utils/serial_plot_csi_live.py:79-81 | every row of a file is less than `interval_sec` later than the file's first row, whichever way the clock moves |
| CsiLog.FirstWriteOpens | python_utils/serial_plot_csi_live.py:79-84 | the first write opens the first file, stamped with the write's time |
| CsiLog.WriteJoinsOpenFile | python_utils/serial_plot_csi_live.py:79-84 | a write less than `interval_sec` after the file's start joins that file |
| CsiLog.WriteRotates | python_utils/serial_plot_csi_live.py:79-84 | a write `interval_sec` or more after the file's start opens the next file |
| CsiLog.ExampleTwoFiles | python_utils/serial_plot_csi_live.py:79-84 | writes at t0, t0+R-e and t0+R+e give two files, the second opened by the third write |
| CsiLog.ExampleOneFile | python_utils/serial_plot_csi_live.py:79-84 | the first two of those writes share the first file |
| CsiLog.LogWriter.Enabled | python_utils/serial_plot_csi_live.py:58 | defined as: the log directory is non-empty, the negation of the `not self.log_dir` test at lines 58 and 76 |
| CsiLog.LogWriter.constructor | python_utils/serial_plot_csi_live.py:50-55 | a new writer has no file open, no `start_ts` and no files |
| CsiLog.LogWriter.OpenNewFile | python_utils/serial_plot_csi_live.py:57-73 | `_open_new_file(now)` does nothing without a log directory; otherwise it records `start_ts = now` and opens a file holding only the header row |
| CsiLog.LogWriter.Write | python_utils/serial_plot_csi_live.py:75-84 | `write` moves the writer's state exactly as `LogWrite` does |
| CsiLog.LogWriter.Close | python_utils/serial_plot_csi_live.py:86-90 | `close` ends the open file, if any; with none open it changes nothing; `start_ts` is kept |
| BoundedWindow.Append | python_utils/serial_plot_csi_live.py:163-170 | after `append` the deque grows by one until it is full and then keeps its length; its newest element is the appended one |
| BoundedWindow.AppendIsSuffix | python_utils/serial_plot_csi_live.py:139-141 | after `append` the deque is a suffix of the old contents followed by the new element, so elements leave from the left |
| BoundedWindow.AppendEvictsOldest | python_utils/serial_plot_csi_live.py:139-141 | on a full deque, `append` drops exactly the oldest element |
| BoundedWindow.AppendAll | python_utils/serial_plot_csi_live.py:139-141 | a deque never holds more than `maxlen` elements |
| BoundedWindow.AppendAllKeepsNewest | python_utils/serial_plot_csi_live.py:139-141 | after any run of appends the deque holds the newest `maxlen` elements of everything it was given, oldest first |
| BoundedWindow.ExampleCapacityThree | python_utils/serial_plot_csi_live.py:139-141 | with capacity 3, appending 10, 20, 30, 40 evicts the 10 |
| SerialPlot.NextMotion | python_utils/serial_plot_csi_live.py:167-169 | with at most one sample in the window the previous motion score is kept; with more it is the window's standard deviation |
| SerialPlot.Raises | python_utils/serial_plot_csi_live.py:155-156 | defined as: the outcome is `ValueError` or `OverflowError`, either of which escapes `main`'s loop and ends it |
| SerialPlot.Returned | python_utils/serial_plot_csi_live.py:13-46 | defined, for an outcome that does not raise, as: the amplitude list for a frame and `None` otherwise |
| SerialPlot.Accepts | python_utils/serial_plot_csi_live.py:157-161 | defined as: a frame exists and `subcarrier < len(amplitudes)`, the two tests that do not `continue` |
| SerialPlot.Outcomes | python_utils/serial_plot_csi_live.py:155-156 | one `parse_csi_line` result per line, in order, each that of its own line |
| SerialPlot.ModeLabel | python_utils/serial_plot_csi_live.py:134 | the label is `Replay` exactly when a replay file is given, and `Live` otherwise |
| SerialPlot.Kept | python_utils/serial_plot_csi_live.py:156-161 | every frame the loop keeps has the chosen subcarrier, and no more frames are kept than there are lines |
| SerialPlot.AcceptedFrames | python_utils/serial_plot_csi_live.py:155-161 | the same for the frames kept from a sequence of lines |
| SerialPlot.Samples | python_utils/serial_plot_csi_live.py:164-165 | one sample per kept frame, the frame's entry at the chosen subcarrier |
| SerialPlot.KeptNext | python_utils/serial_plot_csi_live.py:156-165 | one more line adds its frame, and that frame's sample, exactly when the frame exists and has the chosen subcarrier |
| SerialPlot.AppendKeepsCoIndexed | python_utils/serial_plot_csi_live.py:163-165 | pushing a frame and its sample into two co-indexed windows of one length keeps them co-indexed |
| SerialPlot.FirstFrameScoresZero | python_utils/serial_plot_csi_live.py:145-170 | with one sample in the window the motion score is not recomputed, so the first frame scores the initial 0.0 |
| SerialPlot.Pipeline.constructor | python_utils/serial_plot_csi_live.py:134-147 | empty windows, `last_motion` 0.0, both counters 0, the mode label, and a log writer whose interval is `log_interval_min * 60` seconds |
| SerialPlot.Pipeline.Step | python_utils/serial_plot_csi_live.py:156-185 | a missing frame, or one without the chosen subcarrier, changes nothing. Otherwise: each window gains one element; `last_motion` is recomputed only when the subcarrier window holds more than one sample, and the same value goes to the motion window and the log row; both counters are bumped; `packet_count` resets to 0 only when the stats are printed; rendering happens when the timer fires and more than two frames are held. The windows stay of one length, at most `max_points`, co-indexed |
| SerialPlot.Pipeline.PushFrame | python_utils/serial_plot_csi_live.py:163-170 | the frame, its sample and the possibly refreshed motion score each enter their window |
| SerialPlot.Pipeline.Run | python_utils/serial_plot_csi_live.py:155-185 | the loop stops early exactly at the first line that raises `ValueError` or `OverflowError`, and no earlier line raises. `total_packet_counts` grows by the number of accepted frames. The frame and subcarrier windows hold the newest `max_points` of the accepted frames and their samples. With a log directory, the log gains one data row per accepted frame; without one, no file exists |
| SerialPlot.Pipeline.Advance | python_utils/serial_plot_csi_live.py:156-181 | one more line that does not raise keeps the windows, counters and log in step with the frames kept so far |
| SerialPlot.Pipeline.Conclude | python_utils/serial_plot_csi_live.py:155-176 | the frames kept so far are the accepted frames of that prefix of lines; the windows hold the newest `max_points` of them |

## Left out

- `math.sqrt` (line 43): amplitudes are kept squared, which is exact. No claim is made about the rounding of the square root; only its `OverflowError` is modelled.
- `np.std` over `float32` (lines 168-169): it is the abstract function `std` of the subcarrier window. Its samples are the squared amplitudes.
- `render_plots` and the matplotlib set-up (lines 93-111, 191-195) are not part of this model. Only the gate on line 183 is: `render` is true when the timer fires and the window holds more than two frames.
- `argparse` (lines 123-132): the parameters are constructor arguments. `max_points >= 1` is a precondition. `subcarrier` is a `nat`, which excludes Python's negative indexing.
- `WaitTimer` (`check` and `update`) is not part of this model. Its answers are inputs; `update` is not modelled.
- `readline`, `print_until_first_csi_line` and `iter_lines_from_file` (lines 114-119, 149-153) are not part of this model. `Run` takes the lines, already stripped, as a sequence. The live source is endless, which this finite sequence does not capture.
- `time.time()` and `time.sleep` (lines 172, 187-188): the clock is an input. The replay sleep is skipped for every line that takes the `continue` at line 158 or 161; it has no observable effect here.
- The file system: `os.makedirs`, `open`, `csv.writer` and the `time.strftime` file names (lines 61-66). Files are the sequence `files`, and rows are values rather than CSV text. Two files opened in the same second share a name, so the source truncates the first one; the model keeps both.
- The formatting of floats in CSV rows is not modelled.
- `PyStr.ParseInt`: `int()` is modelled for an optional sign, ASCII digits and single underscores between digits. Other Unicode decimal digits, which Python also accepts, are reported as `ValueError`.
- `PyStr.ParseInt`: the 4300-digit limit is CPython's default in 3.11 and later and in the security releases 3.10.7, 3.9.14, 3.8.14 and 3.7.14; older releases have no limit, and `sys.set_int_max_str_digits` can change it. The model fixes it at 4300.
- Doubles: `log_interval_min * 60.0` (line 147) and the rotation test `now - start_ts >= interval_sec` (line 79) are computed in doubles, but the model computes them in exact reals. Near the boundary the decision to rotate can therefore differ by one ulp.
- `SerialPlot.Pipeline.Run` does not state `motionWindow` or `packetCount` after the loop. Each step's effect on them is stated by `Step`.
- `main` never calls `log_writer.close()`. The last file is left open when the input ends or a line raises, and the model does the same.
