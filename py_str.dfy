/** The pieces of Python's `str` behaviour that the CSI line parser relies on:
    substring membership (`in`), `split(sep)`, `find`, `rfind`, the
    argument-less `split()` and `int()` on a decimal token. */
module PyStr {

  datatype Option<+T> = None | Some(value: T)

  datatype Result<+T, +E> = Ok(value: T) | Err(error: E)

  // ---------------------------------------------------------------------
  // Substring membership: `pat in s`

  predicate OccursAt(s: string, pat: string, i: int) {
    0 <= i && i + |pat| <= |s| && s[i..i + |pat|] == pat
  }

  function Contains(s: string, pat: string): (b: bool)
    ensures b ==> |pat| <= |s|
    decreases |s|
  {
    if |pat| > |s| then false
    else if s[..|pat|] == pat then true
    else Contains(s[1..], pat)
  }

  /** `Contains` holds exactly when `pat` occurs somewhere in `s`. */
  lemma {:induction false} ContainsIff(s: string, pat: string)
    ensures Contains(s, pat) <==> exists i :: OccursAt(s, pat, i)
    decreases |s|
  {
    if |pat| <= |s| {
      assert OccursAt(s, pat, 0) <==> s[..|pat|] == pat;
      if s[..|pat|] != pat {
        forall i | OccursAt(s, pat, i) && i > 0 ensures OccursAt(s[1..], pat, i - 1) {
          assert s[1..][i - 1..i - 1 + |pat|] == s[i..i + |pat|];
        }
        forall i | OccursAt(s[1..], pat, i) ensures OccursAt(s, pat, i + 1) {
          assert s[1..][i..i + |pat|] == s[i + 1..i + 1 + |pat|];
        }
        ContainsIff(s[1..], pat);
      }
    }
  }

  // ---------------------------------------------------------------------
  // `s.split(sep)` with a one-character separator

  function Count(s: string, c: char): nat {
    if s == [] then 0 else (if s[0] == c then 1 else 0) + Count(s[1..], c)
  }

  /** Every occurrence of `sep` ends a part; there is always at least one part
      (the empty string splits into `['']`). */
  function Split(s: string, sep: char): (parts: seq<string>)
    ensures |parts| == Count(s, sep) + 1
    decreases |s|
  {
    if s == [] then [[]]
    else
      var rest := Split(s[1..], sep);
      if s[0] == sep then [[]] + rest
      else [[s[0]] + rest[0]] + rest[1..]
  }

  /** `sep.join(parts)` */
  function Join(parts: seq<string>, sep: char): string
    requires |parts| >= 1
    decreases |parts|
  {
    if |parts| == 1 then parts[0] else parts[0] + [sep] + Join(parts[1..], sep)
  }

  /** No part contains the separator. */
  lemma {:induction false} SplitPartsFree(s: string, sep: char)
    ensures forall k :: 0 <= k < |Split(s, sep)| ==> sep !in Split(s, sep)[k]
    decreases |s|
  {
    if s != [] {
      SplitPartsFree(s[1..], sep);
      var rest := Split(s[1..], sep);
      if s[0] != sep {
        assert sep !in rest[0];
      }
    }
  }

  /** Joining the parts back with the separator gives the original string. */
  lemma {:induction false} SplitJoin(s: string, sep: char)
    ensures Join(Split(s, sep), sep) == s
    decreases |s|
  {
    if s != [] {
      SplitJoin(s[1..], sep);
      var rest := Split(s[1..], sep);
      if s[0] == sep {
        assert Split(s, sep)[1..] == rest;
      } else {
        var parts := Split(s, sep);
        if |rest| == 1 {
          assert parts == [[s[0]] + rest[0]];
        } else {
          assert parts[1..] == rest[1..];
          assert Join(rest, sep) == rest[0] + [sep] + Join(rest[1..], sep);
        }
      }
    }
  }

  // ---------------------------------------------------------------------
  // `s.find(c)` and `s.rfind(c)`: the first and the last index of `c`, or -1

  function Find(s: string, c: char): (i: int)
    ensures -1 <= i < |s|
    ensures i == -1 <==> c !in s
    ensures i >= 0 ==> s[i] == c && c !in s[..i]
    decreases |s|
  {
    if s == [] then -1
    else if s[0] == c then 0
    else
      var k := Find(s[1..], c);
      assert s[1..][..if k < 0 then 0 else k] == s[1..if k < 0 then 1 else k + 1];
      assert s == [s[0]] + s[1..];
      if k == -1 then -1 else k + 1
  }

  function RFind(s: string, c: char): (i: int)
    ensures -1 <= i < |s|
    ensures i == -1 <==> c !in s
    ensures i >= 0 ==> s[i] == c && c !in s[i + 1..]
    decreases |s|
  {
    if s == [] then -1
    else if s[|s| - 1] == c then |s| - 1
    else
      assert s == s[..|s| - 1] + [s[|s| - 1]];
      RFind(s[..|s| - 1], c)
  }

  /** `find` lands on the first occurrence, wherever that is. */
  lemma {:induction false} FindFirst(s: string, c: char, i: nat)
    requires i < |s| && s[i] == c && c !in s[..i]
    ensures Find(s, c) == i
    decreases |s|
  {
    if i > 0 {
      assert s[0] == s[..i][0];
      assert s[1..][i - 1] == c;
      assert s[1..][..i - 1] == s[1..i];
      assert forall x :: x in s[1..i] ==> x in s[..i];
      FindFirst(s[1..], c, i - 1);
    }
  }

  /** `rfind` lands on the last occurrence, wherever that is. */
  lemma {:induction false} RFindLast(s: string, c: char, k: nat)
    requires k < |s| && s[k] == c && c !in s[k + 1..]
    ensures RFind(s, c) == k
    decreases |s|
  {
    if k < |s| - 1 {
      assert s[|s| - 1] == s[k + 1..][|s| - k - 2];
      var t := s[..|s| - 1];
      assert s[k + 1..] == t[k + 1..] + [s[|s| - 1]];
      RFindLast(t, c, k);
    }
  }

  // ---------------------------------------------------------------------
  // `s.split()` with no argument: the maximal runs of non-whitespace

  /** Python's `str.isspace` for one character.  No whitespace character can
      be part of an integer token: none is a digit, a sign or an underscore. */
  function IsSpace(c: char): (b: bool)
    ensures b ==> !IsDigit(c) && c != '+' && c != '-' && c != '_'
  {
    c == ' ' || c == '\t' || c == '\n' || c == '\r' || c == '\U{0B}' || c == '\U{0C}'
    || ('\U{1C}' <= c <= '\U{1F}') || c == '\U{85}' || c == '\U{A0}' || c == '\U{1680}'
    || ('\U{2000}' <= c <= '\U{200A}') || c == '\U{2028}' || c == '\U{2029}'
    || c == '\U{202F}' || c == '\U{205F}' || c == '\U{3000}'
  }

  predicate IsWord(w: string) {
    w != [] && forall i :: 0 <= i < |w| ==> !IsSpace(w[i])
  }

  predicate AllSpace(s: string) {
    forall i :: 0 <= i < |s| ==> IsSpace(s[i])
  }

  /** Length of the run of non-whitespace that starts `s`. */
  function WordLength(s: string): (k: nat)
    ensures k <= |s|
    ensures forall i :: 0 <= i < k ==> !IsSpace(s[i])
    ensures k == |s| || IsSpace(s[k])
    decreases |s|
  {
    if s == [] || IsSpace(s[0]) then 0 else 1 + WordLength(s[1..])
  }

  function Words(s: string): (ws: seq<string>)
    ensures forall k :: 0 <= k < |ws| ==> IsWord(ws[k])
    decreases |s|
  {
    if s == [] then []
    else if IsSpace(s[0]) then Words(s[1..])
    else
      var k := WordLength(s);
      [s[..k]] + Words(s[k..])
  }

  /** `s.split()` is empty exactly when `s` holds only whitespace. */
  lemma {:induction false} WordsEmptyIff(s: string)
    ensures Words(s) == [] <==> AllSpace(s)
    decreases |s|
  {
    if s != [] {
      if IsSpace(s[0]) {
        WordsEmptyIff(s[1..]);
        assert AllSpace(s) <==> AllSpace(s[1..]) by {
          if AllSpace(s[1..]) {
            forall i | 0 <= i < |s| ensures IsSpace(s[i]) {
              if i > 0 { assert s[i] == s[1..][i - 1]; }
            }
          }
        }
      }
    }
  }

  /** A word followed by a space, or by nothing, is read back as that word. */
  lemma {:induction false} WordLengthOfWord(w: string, rest: string)
    requires forall i :: 0 <= i < |w| ==> !IsSpace(w[i])
    requires rest == [] || IsSpace(rest[0])
    ensures WordLength(w + rest) == |w|
    decreases |w|
  {
    if w == [] {
      assert w + rest == rest;
    } else {
      assert (w + rest)[1..] == w[1..] + rest;
      WordLengthOfWord(w[1..], rest);
    }
  }

  /** `' '.join(ws)` */
  function Unwords(ws: seq<string>): string
    decreases |ws|
  {
    if ws == [] then [] else if |ws| == 1 then ws[0] else ws[0] + [' '] + Unwords(ws[1..])
  }

  /** Joining words with single spaces and splitting again gives the words back. */
  lemma {:induction false} WordsUnwords(ws: seq<string>)
    requires forall k :: 0 <= k < |ws| ==> IsWord(ws[k])
    ensures Words(Unwords(ws)) == ws
    decreases |ws|
  {
    if ws == [] {
    } else if |ws| == 1 {
      var w := ws[0];
      WordLengthOfWord(w, []);
      assert w + [] == w;
      assert w[|w|..] == [];
      assert w[..|w|] == w;
    } else {
      var w := ws[0];
      var rest := Unwords(ws[1..]);
      var s := w + [' '] + rest;
      assert s == w + ([' '] + rest);
      WordLengthOfWord(w, [' '] + rest);
      assert s[..|w|] == w;
      assert s[|w|..] == [' '] + rest;
      assert ([' '] + rest)[1..] == rest;
      WordsUnwords(ws[1..]);
      assert ws == [w] + ws[1..];
    }
  }

  // ---------------------------------------------------------------------
  // `int(token)` for a token with no whitespace

  predicate IsDigit(c: char) {
    '0' <= c <= '9'
  }

  /** Digits, with single underscores allowed between two digits. */
  predicate IsDigitGroup(s: string) {
    && s != []
    && IsDigit(s[0])
    && IsDigit(s[|s| - 1])
    && forall i :: 0 <= i < |s| ==> IsDigit(s[i]) || (s[i] == '_' && i + 1 < |s| && IsDigit(s[i + 1]))
  }

  /** Value of a digit string, reading underscores as nothing. */
  function DigitsValue(s: string): nat
    decreases |s|
  {
    if s == [] then 0
    else if IsDigit(s[|s| - 1]) then DigitsValue(s[..|s| - 1]) * 10 + (s[|s| - 1] as int - '0' as int)
    else DigitsValue(s[..|s| - 1])
  }

  /** Number of decimal digits in `s`; underscores are not counted. */
  function DigitCount(s: string): nat
    decreases |s|
  {
    if s == [] then 0 else DigitCount(s[..|s| - 1]) + (if IsDigit(s[|s| - 1]) then 1 else 0)
  }

  /** The most digits `int()` converts from a string: CPython's default
      `sys.int_info.default_max_str_digits`, in force in 3.11 and later and
      in the security releases 3.10.7, 3.9.14, 3.8.14 and 3.7.14. */
  const MaxStrDigits: nat := 4300

  /** `int(token)`: `None` where Python raises `ValueError`, which includes a
      token of more than `MaxStrDigits` digits.  A token read as a negative
      number starts with `-`. */
  function ParseInt(token: string): (r: Option<int>)
    ensures r.Some? ==> token != []
    ensures r.Some? && token[0] == '-' ==> r.value <= 0
    ensures r.Some? && token[0] != '-' ==> r.value >= 0
  {
    if token != [] && (token[0] == '-' || token[0] == '+') then
      var digits := token[1..];
      if IsDigitGroup(digits) && DigitCount(digits) <= MaxStrDigits then
        var magnitude: int := DigitsValue(digits);
        Some(if token[0] == '-' then -magnitude else magnitude)
      else None
    else if IsDigitGroup(token) && DigitCount(token) <= MaxStrDigits then Some(DigitsValue(token))
    else None
  }

  /** A well-formed unsigned number of more than `MaxStrDigits` digits is
      rejected all the same. */
  lemma TooManyDigitsRaises(token: string)
    requires IsDigitGroup(token) && DigitCount(token) > MaxStrDigits
    ensures ParseInt(token).None?
  {
  }

  /** A string of digits only has as many digits as characters. */
  lemma {:induction false} DigitCountOfDigits(s: string)
    requires forall i :: 0 <= i < |s| ==> IsDigit(s[i])
    ensures DigitCount(s) == |s|
    decreases |s|
  {
    if s != [] {
      DigitCountOfDigits(s[..|s| - 1]);
    }
  }

  /** `[int(x) for x in tokens]`: the error names the first token `int` rejects. */
  function ParseInts(tokens: seq<string>): (r: Result<seq<int>, string>)
    ensures r.Ok? ==> |r.value| == |tokens|
    ensures r.Ok? ==> forall k :: 0 <= k < |tokens| ==> ParseInt(tokens[k]) == Some(r.value[k])
    ensures r.Err? <==> exists k :: 0 <= k < |tokens| && ParseInt(tokens[k]).None?
    ensures r.Err? ==> ParseInt(r.error).None? && r.error in tokens
    decreases |tokens|
  {
    if tokens == [] then Ok([])
    else
      match ParseInt(tokens[0])
      case None => Err(tokens[0])
      case Some(v) =>
        match ParseInts(tokens[1..])
        case Err(t) => Err(t)
        case Ok(vs) => Ok([v] + vs)
  }

  /** A one-digit token is that digit's value. */
  lemma ParseDigit(c: char)
    requires IsDigit(c)
    ensures ParseInt([c]) == Some(c as int - '0' as int)
  {
    assert [c][..0] == [];
    assert DigitsValue([c]) == c as int - '0' as int;
    assert DigitCount([c]) == 1;
    assert IsDigitGroup([c]);
  }

  /** Decimal digits of a natural number, as `str(n)` writes them. */
  function ShowNat(n: nat): (s: string)
    ensures s != [] && forall i :: 0 <= i < |s| ==> IsDigit(s[i])
  {
    if n < 10 then [('0' as int + n) as char]
    else ShowNat(n / 10) + [('0' as int + n % 10) as char]
  }

  /** `str(n)` */
  function Show(n: int): string {
    if n < 0 then ['-'] + ShowNat(-n) else ShowNat(n)
  }

  lemma {:induction false} DigitsValueShowNat(n: nat)
    ensures DigitsValue(ShowNat(n)) == n
  {
    var s := ShowNat(n);
    if n >= 10 {
      DigitsValueShowNat(n / 10);
      assert s[..|s| - 1] == ShowNat(n / 10);
    }
  }

  /** `int(str(n)) == n` whenever `str(n)` has at most `MaxStrDigits`
      digits; a longer one is rejected. */
  lemma ParseIntShow(n: int)
    ensures ParseInt(Show(n)) == if |ShowNat(if n < 0 then -n else n)| <= MaxStrDigits then Some(n) else None
  {
    var m := if n < 0 then -n else n;
    var d := ShowNat(m);
    DigitsValueShowNat(m);
    DigitCountOfDigits(d);
    if n < 0 {
      assert Show(n) == ['-'] + d;
      ParseIntNegated(d);
    } else {
      ParseIntUnsigned(d);
    }
  }

  /** A token of digits alone converts to its value when short enough. */
  lemma ParseIntUnsigned(d: string)
    requires d != [] && forall i :: 0 <= i < |d| ==> IsDigit(d[i])
    ensures ParseInt(d) == if DigitCount(d) <= MaxStrDigits then Some(DigitsValue(d)) else None
  {
    assert IsDigit(d[0]) && IsDigitGroup(d);
  }

  /** `-` and digits converts to the negated value when short enough. */
  lemma ParseIntNegated(d: string)
    requires d != [] && forall i :: 0 <= i < |d| ==> IsDigit(d[i])
    ensures ParseInt(['-'] + d) == if DigitCount(d) <= MaxStrDigits then Some(-(DigitsValue(d) as int)) else None
  {
    var t := ['-'] + d;
    assert t[0] == '-' && t[1..] == d;
    assert IsDigitGroup(d);
  }
}
