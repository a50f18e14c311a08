// String routines of the Go standard library that the launcher relies on:
// strings.Split, strings.Join, strings.TrimSpace, strings.Index, strconv.Atoi and the "%d" verb.
// A string is a sequence of characters.

module Text {

  datatype Option<+T> = None | Some(value: T)

  datatype Result<+T> = Ok(value: T) | Err(error: string)

  // ----- splitting and joining -----

  function Join(parts: seq<string>, sep: string): string {
    if parts == [] then ""
    else if |parts| == 1 then parts[0]
    else parts[0] + sep + Join(parts[1..], sep)
  }

  /** Puts one more character in front of the first piece. */
  function Push(c: char, parts: seq<string>): (r: seq<string>)
    requires |parts| >= 1
    ensures |r| == |parts|
  {
    [[c] + parts[0]] + parts[1..]
  }

  /** The pieces of a text that has one more character in front of these. */
  function Prepend(c: char, parts: seq<string>, sep: char): (r: seq<string>)
    requires |parts| >= 1
    ensures |r| >= 1
  {
    if c == sep then [""] + parts else Push(c, parts)
  }

  function Split(s: string, sep: char): (parts: seq<string>)
    ensures |parts| >= 1
  {
    if s == "" then [""] else Prepend(s[0], Split(s[1..], sep), sep)
  }

  lemma {:induction false} SplitConcat(s: string, t: string, sep: char)
    ensures Split(s + [sep] + t, sep) == Split(s, sep) + Split(t, sep)
  {
    var whole := s + [sep] + t;
    if s == "" {
      assert whole[1..] == t;
    } else {
      SplitConcat(s[1..], t, sep);
      assert whole[0] == s[0] && whole[1..] == s[1..] + [sep] + t;
      PrependConcat(s[0], Split(s[1..], sep), Split(t, sep), sep);
    }
  }

  lemma PrependConcat(c: char, head: seq<string>, rest: seq<string>, sep: char)
    requires head != []
    ensures Prepend(c, head + rest, sep) == Prepend(c, head, sep) + rest
  {
  }

  lemma {:induction false} SplitCount(s: string, sep: char)
    ensures if sep in s then |Split(s, sep)| > 1 else Split(s, sep) == [s]
  {
    if s == "" {
    } else {
      SplitCount(s[1..], sep);
      assert [s[0]] + s[1..] == s;
    }
  }

  /** Split undoes Join on pieces that do not contain the separator. */
  lemma {:induction false} SplitJoin(parts: seq<string>, sep: char)
    requires parts != []
    requires forall i | 0 <= i < |parts| :: sep !in parts[i]
    ensures Split(Join(parts, [sep]), sep) == parts
  {
    if |parts| == 1 {
      SplitCount(parts[0], sep);
    } else {
      SplitJoin(parts[1..], sep);
      SplitCount(parts[0], sep);
      SplitConcat(parts[0], Join(parts[1..], [sep]), sep);
    }
  }

  /** Join undoes Split, and no piece contains the separator. */
  lemma {:induction false} JoinSplit(s: string, sep: char)
    ensures Join(Split(s, sep), [sep]) == s
    ensures forall i | 0 <= i < |Split(s, sep)| :: sep !in Split(s, sep)[i]
  {
    if s == "" {
    } else {
      JoinSplit(s[1..], sep);
      var rest := Split(s[1..], sep);
      if s[0] != sep && |rest| > 1 {
        assert Split(s, sep)[1..] == rest[1..];
      }
    }
  }

  // ----- white space -----

  /** unicode.IsSpace */
  predicate IsSpace(c: char) {
    || '\t' <= c <= '\r' || c == ' ' || c == '\U{0085}' || c == '\U{00A0}' || c == '\U{1680}'
    || '\U{2000}' <= c <= '\U{200A}' || c == '\U{2028}' || c == '\U{2029}' || c == '\U{202F}'
    || c == '\U{205F}' || c == '\U{3000}'
  }

  /** The characters with Unicode's White_Space property. */
  const WHITE_SPACE := "\t\n\U{000B}\U{000C}\r \U{0085}\U{00A0}\U{1680}\U{2000}\U{2001}\U{2002}\U{2003}\U{2004}"
    + "\U{2005}\U{2006}\U{2007}\U{2008}\U{2009}\U{200A}\U{2028}\U{2029}\U{202F}\U{205F}\U{3000}"

  lemma SpacesListed(c: char)
    ensures IsSpace(c) <==> c in WHITE_SPACE
  {
  }

  predicate AllSpace(s: string) {
    forall i | 0 <= i < |s| :: IsSpace(s[i])
  }

  predicate Trimmed(s: string) {
    s == "" || (!IsSpace(s[0]) && !IsSpace(s[|s| - 1]))
  }

  function TrimLeft(s: string): (t: string)
    ensures t == "" || !IsSpace(t[0])
  {
    if s != "" && IsSpace(s[0]) then TrimLeft(s[1..]) else s
  }

  function TrimRight(s: string): (t: string)
    ensures t == "" || !IsSpace(t[|t| - 1])
    ensures t <= s
  {
    if s != "" && IsSpace(s[|s| - 1]) then TrimRight(s[..|s| - 1]) else s
  }

  /** strings.TrimSpace */
  function TrimSpace(s: string): (t: string)
    ensures Trimmed(t)
  {
    TrimRight(TrimLeft(s))
  }

  /** TrimSpace is the only way to cut white space off both ends and leave a trimmed middle. */
  lemma TrimSpaceUnique(left: string, middle: string, right: string)
    requires AllSpace(left) && AllSpace(right) && Trimmed(middle)
    ensures TrimSpace(left + middle + right) == middle
  {
    TrimLeftSkips(left, middle + right);
    assert left + middle + right == left + (middle + right);
    if middle == "" {
      assert middle + right == right;
      TrimLeftSkips(right, "");
      assert right + "" == right;
    } else {
      assert TrimLeft(middle + right) == middle + right;
      TrimRightSkips(middle, right);
      assert TrimRight(middle) == middle;
    }
  }

  lemma {:induction false} TrimLeftSkips(left: string, s: string)
    requires AllSpace(left)
    ensures TrimLeft(left + s) == TrimLeft(s)
  {
    if left == "" {
      assert left + s == s;
    } else {
      TrimLeftSkips(left[1..], s);
      assert (left + s)[1..] == left[1..] + s;
    }
  }

  lemma {:induction false} TrimRightSkips(s: string, right: string)
    requires AllSpace(right)
    ensures TrimRight(s + right) == TrimRight(s)
  {
    if right == "" {
      assert s + right == s;
    } else {
      var front := right[..|right| - 1];
      TrimRightSkips(s, front);
      assert (s + right)[..|s + right| - 1] == s + front;
    }
  }

  // ----- decimal numbers -----

  predicate IsDigit(c: char) { '0' <= c <= '9' }

  predicate AllDigits(s: string) {
    forall i | 0 <= i < |s| :: IsDigit(s[i])
  }

  function DigitChar(d: nat): (c: char)
    requires d < 10
    ensures IsDigit(c)
  {
    ('0' as int + d) as char
  }

  function DigitsOf(n: nat): (s: string)
    ensures s != "" && AllDigits(s)
  {
    if n < 10 then [DigitChar(n)] else DigitsOf(n / 10) + [DigitChar(n % 10)]
  }

  /** The "%d" verb. */
  function FormatInt(n: int): string {
    if n < 0 then "-" + DigitsOf(-n) else DigitsOf(n)
  }

  function NumberOf(s: string): nat
    requires AllDigits(s)
  {
    if s == "" then 0
    else 10 * NumberOf(s[..|s| - 1]) + (s[|s| - 1] as int - '0' as int)
  }

  predicate IsInt64(n: int) { -0x8000_0000_0000_0000 <= n < 0x8000_0000_0000_0000 }

  /** strconv.Atoi on a 64-bit platform: an optional sign, decimal digits, a value that fits. */
  function Atoi(s: string): Option<int> {
    var body := if s != "" && (s[0] == '-' || s[0] == '+') then s[1..] else s;
    if body == "" || !AllDigits(body) then None
    else
      var n: int := if s[0] == '-' then 0 - NumberOf(body) else NumberOf(body);
      if IsInt64(n) then Some(n) else None
  }

  lemma {:induction false} NumberOfDigits(n: nat)
    ensures NumberOf(DigitsOf(n)) == n
  {
    if n < 10 {
    } else {
      NumberOfDigits(n / 10);
      var s := DigitsOf(n);
      assert s[..|s| - 1] == DigitsOf(n / 10);
    }
  }

  /** Atoi reads back every number it can represent and rejects the others. */
  lemma AtoiFormat(n: int)
    ensures Atoi(FormatInt(n)) == if IsInt64(n) then Some(n) else None
  {
    var digits := DigitsOf(if n < 0 then -n else n);
    NumberOfDigits(if n < 0 then -n else n);
    hide NumberOf, DigitsOf;
    if n < 0 {
      var text := FormatInt(n);
      assert text[0] == '-' && text[1..] == digits;
    } else {
      assert IsDigit(digits[0]);
    }
  }

  predicate AllZeros(s: string) {
    forall i | 0 <= i < |s| :: s[i] == '0'
  }

  function Magnitude(n: int): nat { if n < 0 then -n else n }

  /** The text writes the number: an optional sign, any number of zeros, and the digits. */
  ghost predicate Writes(s: string, sign: string, zeros: string, n: int) {
    && (sign == "" || sign == "+" || sign == "-")
    && (n > 0 ==> sign != "-") && (n < 0 ==> sign == "-")
    && AllZeros(zeros) && s == sign + zeros + DigitsOf(Magnitude(n))
  }

  lemma {:induction false} NumberOfZeros(zeros: string, digits: string)
    requires AllZeros(zeros) && AllDigits(zeros + digits) && AllDigits(digits)
    ensures NumberOf(zeros + digits) == NumberOf(digits)
    decreases |zeros| + |digits|
  {
    var s := zeros + digits;
    if s == "" {
    } else if digits == "" {
      assert s[..|s| - 1] == zeros[..|s| - 1] + "";
      NumberOfZeros(zeros[..|s| - 1], "");
    } else {
      assert s[..|s| - 1] == zeros + digits[..|digits| - 1];
      NumberOfZeros(zeros, digits[..|digits| - 1]);
    }
  }

  /** A digit string is its number's digits behind zeros. */
  lemma {:induction false} DigitsBehindZeros(s: string) returns (zeros: string)
    requires s != "" && AllDigits(s)
    ensures AllZeros(zeros) && s == zeros + DigitsOf(NumberOf(s))
  {
    var front, d := s[..|s| - 1], s[|s| - 1] as int - '0' as int;
    assert s == front + [DigitChar(d)];
    if front == "" {
      zeros := "";
    } else {
      zeros := DigitsBehindZeros(front);
      if NumberOf(front) == 0 {
        assert DigitsOf(0) == "0";
        zeros := front;
      }
    }
  }

  lemma AcceptedIsWritten(s: string, n: int) returns (sign: string, zeros: string)
    requires Atoi(s) == Some(n)
    ensures Writes(s, sign, zeros, n)
  {
    hide NumberOf, DigitsOf;
    var signed := s[0] == '-' || s[0] == '+';
    var body := if signed then s[1..] else s;
    zeros := DigitsBehindZeros(body);
    sign := if signed then s[..1] else "";
    assert s == sign + body && Magnitude(n) == NumberOf(body);
    assert s == sign + zeros + DigitsOf(Magnitude(n));
  }

  lemma WrittenIsAccepted(s: string, sign: string, zeros: string, n: int)
    requires Writes(s, sign, zeros, n) && IsInt64(n)
    ensures Atoi(s) == Some(n)
  {
    hide NumberOf, DigitsOf;
    var body := zeros + DigitsOf(Magnitude(n));
    assert AllDigits(body) && IsDigit(body[0]);
    NumberOfZeros(zeros, DigitsOf(Magnitude(n)));
    NumberOfDigits(Magnitude(n));
    if sign == "" {
      assert s == body;
    } else {
      assert s == sign + body && s[1..] == body;
    }
  }

  /** Which texts Atoi accepts, and as which number. */
  lemma AtoiCharacterised(s: string, n: int)
    ensures Atoi(s) == Some(n) <==>
      -9223372036854775808 <= n <= 9223372036854775807 && exists sign, zeros :: Writes(s, sign, zeros, n)
  {
    hide Writes, NumberOf;
    if Atoi(s) == Some(n) {
      var sign, zeros := AcceptedIsWritten(s, n);
    }
    forall sign, zeros | IsInt64(n) && Writes(s, sign, zeros, n) ensures Atoi(s) == Some(n) {
      WrittenIsAccepted(s, sign, zeros, n);
    }
  }

  lemma FormatHasNoSpaceOrSeparator(n: int)
    ensures Trimmed(FormatInt(n)) && ':' !in FormatInt(n) && ',' !in FormatInt(n) && '.' !in FormatInt(n)
  {
    var s := FormatInt(n);
    var digits := DigitsOf(if n < 0 then -n else n);
    assert n < 0 ==> s == ['-'] + digits;
    assert forall i | 0 <= i < |s| :: IsDigit(s[i]) || s[i] == '-';
  }

  // ----- substring search -----

  predicate At(s: string, pattern: string, i: nat) {
    i + |pattern| <= |s| && s[i..i + |pattern|] == pattern
  }

  /** strings.Index started at `from`: the first occurrence, or None. */
  function IndexFrom(s: string, pattern: string, from: nat): (r: Option<nat>)
    requires from <= |s|
    ensures r.Some? ==> from <= r.value <= |s| - |pattern| && At(s, pattern, r.value)
    ensures r.Some? ==> forall i | from <= i < r.value :: !At(s, pattern, i)
    ensures r.None? ==> forall i | from <= i :: !At(s, pattern, i)
    decreases |s| - from
  {
    if At(s, pattern, from) then Some(from)
    else if from == |s| then None
    else IndexFrom(s, pattern, from + 1)
  }
}
