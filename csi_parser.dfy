/** `parse_csi_line`: one raw serial line to the amplitude of every
    subcarrier, or "not a CSI line".  Amplitudes are kept squared
    (`imaginary^2 + real^2`), which is exact; the square root is left out. */
module CsiParser {
  import opened PyStr

  /** What `parse_csi_line` yields: `None`, a list of amplitudes, the
      `ValueError` that `int()` raises on a token it rejects, or the
      `OverflowError` that `math.sqrt` raises on a squared sum too large for
      a double. */
  datatype ParseOutcome = NoFrame | Frame(amplitudes: seq<int>) | ValueError(token: string) | OverflowError

  /** 2^970, half the gap between the largest finite double and the next
      power of two. */
  const HalfGapAtMax: int := 0x4_0000_0000_0000_0000_0000_0000_0000_0000_0000_0000_0000_0000_0000_0000_0000_0000_0000_0000_0000_0000_0000_0000_0000_0000_0000_0000_0000_0000_0000_0000_0000_0000_0000_0000_0000_0000_0000_0000_0000_0000_0000_0000_0000_0000_0000_0000_0000_0000_0000_0000_0000_0000_0000_0000_0000_0000_0000_0000_0000_0000_00

  /** `math.sqrt` first converts the integer to a double, rounding to nearest
      with ties to even.  The largest finite double is (2^53 - 1) * 2^971;
      from the midpoint (2^54 - 1) * 2^970 between it and 2^1024 upwards an
      integer rounds to 2^1024, and the conversion raises `OverflowError`. */
  const FloatOverflowBound: int := 0x3F_FFFF_FFFF_FFFF * HalfGapAtMax

  /** Every squared amplitude converts to a double. */
  predicate Convertible(m: seq<int>) {
    forall j :: 0 <= j < |m| ==> m[j] < FloatOverflowBound
  }

  const Marker: string := "CSI_DATA"

  /** Zero-based index of the comma-separated field that carries the payload. */
  const PayloadField: nat := 25

  /** The text strictly between the first `[` and the last `]` when both
      exist in that order; otherwise the field itself. */
  function Payload(raw: string): (p: string)
    ensures |p| <= |raw|
  {
    var start := Find(raw, '[');
    var end := RFind(raw, ']');
    if start != -1 && end != -1 && end > start then raw[start + 1..end] else raw
  }

  /** Squared amplitude of each (imaginary, real) pair: even positions are
      imaginary, odd positions real; an unpaired last value is ignored. */
  function Magnitudes(csi: seq<int>): (m: seq<int>)
    ensures |m| == |csi| / 2
    ensures forall j :: 0 <= j < |m| ==> m[j] >= 0
  {
    seq(|csi| / 2, j requires 0 <= j < |csi| / 2 => csi[2 * j] * csi[2 * j] + csi[2 * j + 1] * csi[2 * j + 1])
  }

  /** Everything after the field has been picked out of the line. */
  function ParseField(field: string): ParseOutcome {
    match ParseInts(Words(Payload(field)))
    case Err(t) => ValueError(t)
    case Ok(csi) => if csi == [] then NoFrame else Amplitudes(csi)
  }

  /** The amplitude loop over a non-empty list of integers: the squares, or
      the `OverflowError` of the first one that does not convert. */
  function Amplitudes(csi: seq<int>): ParseOutcome {
    if Convertible(Magnitudes(csi)) then Frame(Magnitudes(csi)) else OverflowError
  }

  /** The meaning of `parse_csi_line(line)`.  A frame only comes from a line
      with the marker and a field 25; a reported `ValueError` names a token
      `int()` rejects. */
  function ParseLine(line: string): (r: ParseOutcome)
    ensures r.Frame? ==> Count(line, ',') >= PayloadField
    ensures r.ValueError? ==> ParseInt(r.token).None?
  {
    if !Contains(line, Marker) then NoFrame
    else
      var parts := Split(line, ',');
      if |parts| <= PayloadField then NoFrame else ParseField(parts[PayloadField])
  }

  /** `parse_csi_line`, step by step: the marker test, the comma split, the
      bracket strip, the integer conversion, the parity split into
      `imaginary` and `real`, and the amplitude loop. */
  method ParseCsiLine(line: string) returns (r: ParseOutcome)
    ensures r == ParseLine(line)
  {
    if !Contains(line, Marker) {
      return NoFrame;
    }
    var parts := Split(line, ',');
    if |parts| <= PayloadField {
      return NoFrame;
    }
    var raw := parts[PayloadField];
    var start := Find(raw, '[');
    var end := RFind(raw, ']');
    if start != -1 && end != -1 && end > start {
      raw := raw[start + 1..end];
    }
    assert raw == Payload(parts[PayloadField]);
    var converted := ParseInts(Words(raw));
    if converted.Err? {
      return ValueError(converted.error);
    }
    var csi := converted.value;
    if csi == [] {
      return NoFrame;
    }

    r := PairAmplitudes(csi);
  }

  /** The tail of `parse_csi_line` once the integers are known: split them
      by index parity, then emit one squared amplitude per index below
      `csi_size / 2`, and none at all unless both lists are non-empty.  The
      first square that does not convert to a double raises. */
  method PairAmplitudes(csi: seq<int>) returns (r: ParseOutcome)
    ensures r == Amplitudes(csi)
  {
    var imaginary, realPart := SplitByParity(csi);
    var csiSize := |csi|;
    var amplitudes := [];
    if imaginary != [] && realPart != [] {
      var j := 0;
      while j < csiSize / 2
        invariant 0 <= j <= csiSize / 2
        invariant |amplitudes| == j
        invariant forall k :: 0 <= k < j ==> amplitudes[k] == Magnitudes(csi)[k] < FloatOverflowBound
      {
        var squared := imaginary[j] * imaginary[j] + realPart[j] * realPart[j];
        if squared >= FloatOverflowBound {
          assert Magnitudes(csi)[j] == squared;
          return OverflowError;
        }
        amplitudes := amplitudes + [squared];
        j := j + 1;
      }
    }
    return Frame(amplitudes);
  }

  /** The `enumerate` loop: even positions go to `imaginary`, odd ones to
      `real`, each in order. */
  method SplitByParity(csi: seq<int>) returns (imaginary: seq<int>, realPart: seq<int>)
    ensures |imaginary| == (|csi| + 1) / 2 && |realPart| == |csi| / 2
    ensures forall k :: 0 <= k < |imaginary| ==> imaginary[k] == csi[2 * k]
    ensures forall k :: 0 <= k < |realPart| ==> realPart[k] == csi[2 * k + 1]
  {
    imaginary, realPart := [], [];
    var i := 0;
    while i < |csi|
      invariant 0 <= i <= |csi|
      invariant |imaginary| == (i + 1) / 2 && |realPart| == i / 2
      invariant forall k :: 0 <= k < |imaginary| ==> imaginary[k] == csi[2 * k]
      invariant forall k :: 0 <= k < |realPart| ==> realPart[k] == csi[2 * k + 1]
    {
      if i % 2 == 0 {
        imaginary := imaginary + [csi[i]];
      } else {
        realPart := realPart + [csi[i]];
      }
      i := i + 1;
    }
  }

  // ---------------------------------------------------------------------
  // Properties of the parser

  /** The payload is exactly the text strictly between the first `[` and
      the last `]` when the last `]` comes after the first `[`. */
  lemma PayloadBetweenBrackets(raw: string, i: nat, k: nat)
    requires i < k < |raw|
    requires raw[i] == '[' && '[' !in raw[..i]
    requires raw[k] == ']' && ']' !in raw[k + 1..]
    ensures Payload(raw) == raw[i + 1..k]
  {
    FindFirst(raw, '[', i);
    RFindLast(raw, ']', k);
  }

  /** Otherwise, the field is used verbatim. */
  lemma PayloadVerbatim(raw: string)
    requires '[' !in raw || ']' !in raw || RFind(raw, ']') <= Find(raw, '[')
    ensures Payload(raw) == raw
  {
  }

  /** A line fails to be a frame (`None`) exactly when it lacks the marker,
      has at most 25 commas (so no field 25), or its payload has no tokens.
      Every other line yields a frame or raises. */
  lemma NoFrameIff(line: string)
    ensures ParseLine(line) == NoFrame <==>
      || !(exists i :: OccursAt(line, Marker, i))
      || Count(line, ',') < PayloadField
      || AllSpace(Payload(Split(line, ',')[PayloadField]))
  {
    ContainsIff(line, Marker);
    if Contains(line, Marker) && Count(line, ',') >= PayloadField {
      var payload := Payload(Split(line, ',')[PayloadField]);
      WordsEmptyIff(payload);
    }
  }

  /** A frame has one amplitude per complete (imaginary, real) pair of the
      payload's integers, in order; a single integer gives the empty frame. */
  lemma FrameShape(field: string)
    requires ParseInts(Words(Payload(field))).Ok?
    requires Words(Payload(field)) != []
    requires Convertible(Magnitudes(ParseInts(Words(Payload(field))).value))
    ensures var csi := ParseInts(Words(Payload(field))).value;
      && ParseField(field).Frame?
      && |ParseField(field).amplitudes| == |csi| / 2
      && (|csi| == 1 ==> ParseField(field).amplitudes == [])
      && forall j :: 0 <= j < |csi| / 2 ==>
           ParseField(field).amplitudes[j] == csi[2 * j] * csi[2 * j] + csi[2 * j + 1] * csi[2 * j + 1]
  {
  }

  /** The amplitude loop raises exactly when some pair's squared sum is at
      least `FloatOverflowBound`. */
  lemma AmplitudesOverflowIff(csi: seq<int>)
    ensures Amplitudes(csi) == OverflowError <==>
      exists j :: 0 <= j < |csi| / 2 && csi[2 * j] * csi[2 * j] + csi[2 * j + 1] * csi[2 * j + 1] >= FloatOverflowBound
  {
    var m := Magnitudes(csi);
    if !Convertible(m) {
      var j :| 0 <= j < |m| && m[j] >= FloatOverflowBound;
      assert m[j] == csi[2 * j] * csi[2 * j] + csi[2 * j + 1] * csi[2 * j + 1];
    }
    forall j | 0 <= j < |csi| / 2 && csi[2 * j] * csi[2 * j] + csi[2 * j + 1] * csi[2 * j + 1] >= FloatOverflowBound
      ensures !Convertible(m)
    {
      assert m[j] == csi[2 * j] * csi[2 * j] + csi[2 * j + 1] * csi[2 * j + 1];
    }
  }

  /** A field raises `OverflowError` exactly when its integers all convert
      and some pair's squared sum does not. */
  lemma OverflowIff(field: string)
    ensures ParseField(field) == OverflowError <==>
      && ParseInts(Words(Payload(field))).Ok?
      && Amplitudes(ParseInts(Words(Payload(field))).value) == OverflowError
  {
    var ints := ParseInts(Words(Payload(field)));
    if ints.Ok? && ints.value == [] {
      assert Convertible(Magnitudes(ints.value));
    }
  }

  /** Any non-number among the payload's tokens makes the line raise. */
  lemma BadTokenRaises(field: string, k: nat)
    requires k < |Words(Payload(field))|
    requires ParseInt(Words(Payload(field))[k]).None?
    ensures ParseField(field).ValueError?
  {
  }

  lemma ExampleBracketStrip()
    ensures Payload("[1 2 3 4 5 6]") == "1 2 3 4 5 6"
  {
    var raw := "[1 2 3 4 5 6]";
    assert raw[..0] == [] && raw[13..] == [];
    PayloadBetweenBrackets(raw, 0, 12);
    assert raw[1..12] == "1 2 3 4 5 6";
  }

  lemma ExampleJoinTail()
    ensures Unwords(["4", "5", "6"]) == "4 5 6"
  {
    assert Unwords(["6"]) == "6";
    assert Unwords(["5", "6"]) == "5 6";
  }

  lemma ExampleJoin()
    ensures Unwords(["1", "2", "3", "4", "5", "6"]) == "1 2 3 4 5 6"
  {
    ExampleJoinTail();
    assert Unwords(["3", "4", "5", "6"]) == "3 4 5 6";
    assert Unwords(["2", "3", "4", "5", "6"]) == "2 3 4 5 6";
  }

  lemma ExampleTokens()
    ensures Words("1 2 3 4 5 6") == ["1", "2", "3", "4", "5", "6"]
  {
    var ws := ["1", "2", "3", "4", "5", "6"];
    assert forall k :: 0 <= k < |ws| ==> IsWord(ws[k]);
    ExampleJoin();
    WordsUnwords(ws);
  }

  lemma ExampleIntegers()
    ensures ParseInts(["1", "2", "3", "4", "5", "6"]) == Ok([1, 2, 3, 4, 5, 6])
  {
    ParseDigit('1');
    ParseDigit('2');
    ParseDigit('3');
    ParseDigit('4');
    ParseDigit('5');
    ParseDigit('6');
    var toks := ["1", "2", "3", "4", "5", "6"];
    var expected := [1, 2, 3, 4, 5, 6];
    assert forall k :: 0 <= k < 6 ==> ParseInt(toks[k]) == Some(expected[k]);
    var r := ParseInts(toks);
    assert r.value == expected;
  }

  lemma ExampleMagnitudes()
    ensures Magnitudes([1, 2, 3, 4, 5, 6]) == [5, 25, 61]
  {
    var m := Magnitudes([1, 2, 3, 4, 5, 6]);
    assert |m| == 3;
    assert m[0] == 5 && m[1] == 25 && m[2] == 61;
  }

  /** Squares this small convert to doubles. */
  lemma ExampleAmplitudes()
    ensures Amplitudes([1, 2, 3, 4, 5, 6]) == Frame([5, 25, 61])
  {
    ExampleMagnitudes();
    assert Convertible([5, 25, 61]);
  }

  /** The payload `[1 2 3 4 5 6]` pairs as (1, 2), (3, 4), (5, 6) and gives
      the squared amplitudes 1+4, 9+16, 25+36. */
  lemma ExamplePayload()
    ensures ParseField("[1 2 3 4 5 6]") == Frame([5, 25, 61])
  {
    ExampleBracketStrip();
    ExampleTokens();
    ExampleIntegers();
    ExampleAmplitudes();
  }

  /** The whole line path: marker, 25 commas, the payload in field 25. */
  lemma ParseLineUsesField(line: string)
    requires exists i :: OccursAt(line, Marker, i)
    requires Count(line, ',') >= PayloadField
    ensures ParseLine(line) == ParseField(Split(line, ',')[PayloadField])
  {
    ContainsIff(line, Marker);
  }
}
