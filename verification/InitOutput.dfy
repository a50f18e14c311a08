// waitForInitOutput (launcher/mac/main.go): the launcher polls the console log, which the guest only
// ever appends to, and cuts the init output out from between two markers.

module InitOutput {
  import opened Text

  const START_MARKER := "=== INIT OUTPUT START ==="
  const END_MARKER := "=== INIT OUTPUT END ==="

  const POLL_INTERVAL := 500

  /** What one look at the log yields. `Crossed`: the slice bounds are the wrong way round, which panics. */
  datatype Extraction = NotYet | Crossed | Extracted(text: string)

  function Extract(content: string): Extraction {
    match IndexFrom(content, START_MARKER, 0)
    case None => NotYet
    case Some(start) =>
      match IndexFrom(content[start..], END_MARKER, 0)
      case None => NotYet
      case Some(end) =>
        var jsonStart, jsonEnd := start + |START_MARKER|, start + end;
        if jsonStart > jsonEnd then Crossed else Extracted(TrimSpace(content[jsonStart..jsonEnd]))
  }

  // ----- when the indices are in range -----

  /** What has to follow the start marker for the end marker to begin in its trailing `===`. */
  predicate OverlapsMarker(rest: string) {
    || END_MARKER[3..] <= rest  // " INIT OUTPUT END ==="
    || END_MARKER[2..] <= rest
    || END_MARKER[1..] <= rest
  }

  lemma EndMarkerCannotStartInside(suffix: string, k: nat)
    requires START_MARKER <= suffix && k < 22
    ensures !At(suffix, END_MARKER, k)
  {
    var differs := if k == 0 then 16 else if k == 1 then 2 else if k == 2 then 1 else 0;
    assert START_MARKER[k + differs] != END_MARKER[differs];
    if k + |END_MARKER| <= |suffix| {
      assert suffix[k..k + |END_MARKER|][differs] == START_MARKER[k + differs];
    }
  }

  /** A pattern that begins inside `head` with a matching piece occurs there iff its remainder follows. */
  lemma OverlapAt(head: string, rest: string, pattern: string, i: nat)
    requires i <= |head| <= i + |pattern| && head[i..] == pattern[..|head| - i]
    ensures At(head + rest, pattern, i) <==> pattern[|head| - i..] <= rest
  {
    var inside := |head| - i;
    if i + |pattern| <= |head + rest| {
      assert (head + rest)[i..i + |pattern|] == pattern[..inside] + rest[..|pattern| - inside];
      assert pattern == pattern[..inside] + pattern[inside..];
    }
  }

  lemma OverlapIsAt(suffix: string)
    requires START_MARKER <= suffix
    ensures OverlapsMarker(suffix[25..]) <==>
            At(suffix, END_MARKER, 22) || At(suffix, END_MARKER, 23) || At(suffix, END_MARKER, 24)
  {
    hide At;
    var rest := suffix[25..];
    assert suffix == START_MARKER + rest;
    assert START_MARKER[22..] == END_MARKER[..3];
    assert START_MARKER[23..] == END_MARKER[..2];
    assert START_MARKER[24..] == END_MARKER[..1];
    OverlapAt(START_MARKER, rest, END_MARKER, 22);
    OverlapAt(START_MARKER, rest, END_MARKER, 23);
    OverlapAt(START_MARKER, rest, END_MARKER, 24);
  }

  /** The first end marker after the beginning of the start marker begins inside it exactly in the overlapping case. */
  lemma EarlyEndIffOverlapping(suffix: string)
    requires START_MARKER <= suffix
    ensures
      var end := IndexFrom(suffix, END_MARKER, 0);
      end.Some? && end.value < 25 <==> OverlapsMarker(suffix[25..])
  {
    hide At, OverlapsMarker;
    OverlapIsAt(suffix);
    var end := IndexFrom(suffix, END_MARKER, 0);
    if end.Some? && end.value < 22 { EndMarkerCannotStartInside(suffix, end.value); }
  }

  /** The bounds cross exactly when the end marker overlaps the trailing `===` of the first start marker. */
  lemma CrossesIffOverlapping(content: string)
    ensures Extract(content).Crossed? <==>
      var start := IndexFrom(content, START_MARKER, 0);
      start.Some? && OverlapsMarker(content[start.value + |START_MARKER|..])
  {
    hide TrimSpace, OverlapsMarker, IndexFrom;
    match IndexFrom(content, START_MARKER, 0)
    case None =>
    case Some(start) =>
      var suffix := content[start..];
      assert START_MARKER <= suffix;
      assert suffix[25..] == content[start + 25..];
      EarlyEndIffOverlapping(suffix);
  }

  /** They cross, for instance, when both markers share their `===`. */
  lemma CrossingExample()
    ensures Extract(START_MARKER + END_MARKER[3..]).Crossed?
  {
    hide Extract, IndexFrom;
    var rest := END_MARKER[3..];
    var content := START_MARKER + rest;
    assert content[0..|START_MARKER|] == START_MARKER;
    assert At(content, START_MARKER, 0);
    assert content[|START_MARKER|..] == rest;
    CrossesIffOverlapping(content);
  }

  // ----- independence of the polling times -----

  lemma AtInLonger(shorter: string, longer: string, pattern: string, i: nat)
    requires shorter <= longer && i + |pattern| <= |shorter|
    ensures At(shorter, pattern, i) <==> At(longer, pattern, i)
  {
    assert shorter[i..i + |pattern|] == longer[i..i + |pattern|];
  }

  /** A first occurrence stays the first occurrence when text is appended. */
  lemma FirstOccurrenceIsStable(shorter: string, longer: string, pattern: string)
    requires shorter <= longer && IndexFrom(shorter, pattern, 0).Some?
    ensures IndexFrom(longer, pattern, 0) == IndexFrom(shorter, pattern, 0)
  {
    var i := IndexFrom(shorter, pattern, 0).value;
    AtInLonger(shorter, longer, pattern, i);
    var j := IndexFrom(longer, pattern, 0).value;
    if j < i { AtInLonger(shorter, longer, pattern, j); }
  }

  /** Looking early yields nothing or what looking later yields. */
  lemma EarlyLookAgrees(shorter: string, longer: string)
    requires shorter <= longer
    ensures Extract(shorter) == NotYet || Extract(shorter) == Extract(longer)
  {
    hide TrimSpace, IndexFrom;
    if Extract(shorter) != NotYet {
      FirstOccurrenceIsStable(shorter, longer, START_MARKER);
      var start := IndexFrom(shorter, START_MARKER, 0).value;
      assert shorter[start..] <= longer[start..];
      FirstOccurrenceIsStable(shorter[start..], longer[start..], END_MARKER);
      var end := IndexFrom(shorter[start..], END_MARKER, 0).value;
      if start + |START_MARKER| <= start + end {
        assert shorter[start + |START_MARKER|..start + end] == longer[start + |START_MARKER|..start + end];
      }
    }
  }

  /** The text strictly between the first start marker and the first end marker after it. */
  ghost predicate Between(content: string, text: string) {
    exists start: nat, end: nat :: FirstBlock(content, start, end) && text == content[start + |START_MARKER|..end]
  }

  ghost predicate FirstBlock(content: string, start: nat, end: nat) {
    && At(content, "=== INIT OUTPUT START ===", start)
    && (forall i | 0 <= i < start :: !At(content, "=== INIT OUTPUT START ===", i))
    && start + 25 <= end <= |content| && At(content, "=== INIT OUTPUT END ===", end)
    && (forall i | start + 25 <= i < end :: !At(content, "=== INIT OUTPUT END ===", i))
  }

  /** The newline that the init script prints after the first start marker. */
  predicate NewlineAfterMarker(content: string) {
    var start := IndexFrom(content, START_MARKER, 0);
    start.Some? && start.value + 25 < |content| ==> content[start.value + 25] == '\n'
  }

  /**
   * The log yields something exactly when it holds a complete block and the bounds do not cross, and
   * then that is the trimmed text of the first block. With the newline they never cross.
   */
  lemma ExtractsTheFirstBlock(content: string)
    ensures NewlineAfterMarker(content) ==> !Extract(content).Crossed?
    ensures Extract(content).Extracted? <==>
      !Extract(content).Crossed? && exists start: nat, end: nat :: FirstBlock(content, start, end)
    ensures Extract(content).Extracted? ==>
      exists text :: Between(content, text) && Extract(content).text == TrimSpace(text)
    ensures !Extract(content).Crossed? ==> forall start: nat, end: nat :: FirstBlock(content, start, end) ==>
      Extract(content) == Extracted(TrimSpace(content[start + |START_MARKER|..end]))
  {
    hide TrimSpace, IndexFrom, At, OverlapsMarker;
    CrossesIffOverlapping(content);
    if IndexFrom(content, START_MARKER, 0).Some? && NewlineAfterMarker(content) {
      NewlineDoesNotOverlap(content[IndexFrom(content, START_MARKER, 0).value + 25..]);
    }
    if Extract(content).Extracted? {
      var start := IndexFrom(content, START_MARKER, 0).value;
      var end := start + IndexFrom(content[start..], END_MARKER, 0).value;
      ExtractedIsFirstBlock(content, start, end);
      assert Between(content, content[start + |START_MARKER|..end]);
    }
    forall start: nat, end: nat | FirstBlock(content, start, end) && !Extract(content).Crossed?
      ensures Extract(content) == Extracted(TrimSpace(content[start + |START_MARKER|..end]))
    {
      FirstBlockIsExtracted(content, start, end);
    }
  }

  lemma ExtractedIsFirstBlock(content: string, start: nat, end: nat)
    requires IndexFrom(content, START_MARKER, 0) == Some(start) && start + |START_MARKER| <= end <= |content|
    requires IndexFrom(content[start..], END_MARKER, 0) == Some(end - start)
    ensures FirstBlock(content, start, end)
  {
    hide IndexFrom, At;
    forall i: nat | start <= i <= end ensures At(content, END_MARKER, i) <==> At(content[start..], END_MARKER, i - start) {
      AtInSuffix(content, END_MARKER, start, i - start);
    }
  }

  lemma FirstBlockIsExtracted(content: string, start: nat, end: nat)
    requires FirstBlock(content, start, end) && !Extract(content).Crossed?
    ensures Extract(content) == Extracted(TrimSpace(content[start + |START_MARKER|..end]))
  {
    hide IndexFrom, At, TrimSpace;
    FirstOccurrence(content, START_MARKER, start);
    AtInSuffix(content, END_MARKER, start, end - start);
    var found := IndexFrom(content[start..], END_MARKER, 0);
    AtInSuffix(content, END_MARKER, start, found.value);
  }

  /** IndexFrom finds an occurrence that has no earlier one. */
  lemma FirstOccurrence(content: string, pattern: string, i: nat)
    requires At(content, pattern, i) && forall j | 0 <= j < i :: !At(content, pattern, j)
    ensures IndexFrom(content, pattern, 0) == Some(i)
  {
    hide IndexFrom, At;
    var found := IndexFrom(content, pattern, 0);
    assert found.Some?;
  }

  lemma AtInSuffix(content: string, pattern: string, from: nat, i: nat)
    requires from <= |content|
    ensures At(content[from..], pattern, i) <==> At(content, pattern, from + i)
  {
    if from + i + |pattern| <= |content| {
      assert content[from..][i..i + |pattern|] == content[from + i..from + i + |pattern|];
    }
  }

  lemma NewlineDoesNotOverlap(rest: string)
    requires rest != "" ==> rest[0] == '\n'
    ensures !OverlapsMarker(rest)
  {
    assert END_MARKER[3..][0] == ' ' && END_MARKER[2..][0] == '=' && END_MARKER[1..][0] == '=';
  }

  /** The log at a given time, None when it cannot be read. */
  type Console = int -> Option<string>

  datatype Outcome = Output(ip: string) | Invalid(error: string) | Panics | TimedOut

  /** What the launcher makes of the extracted text; `decode` stands for json.Unmarshal and the address check. */
  function Verdict(extraction: Extraction, decode: string -> Result<string>): Outcome {
    match extraction
    case NotYet => TimedOut
    case Crossed => Panics
    case Extracted(text) =>
      match decode(text)
      case Ok(ip) => Output(ip)
      case Err(e) => Invalid(e)
  }

  /** An address comes out exactly of text that decodes to it, an error of text that does not, a panic of crossed bounds. */
  lemma VerdictMeans(extraction: Extraction, decode: string -> Result<string>, ip: string, error: string)
    ensures Verdict(extraction, decode) == Output(ip) <==> extraction.Extracted? && decode(extraction.text) == Ok(ip)
    ensures Verdict(extraction, decode) == Invalid(error) <==> extraction.Extracted? && decode(extraction.text) == Err(error)
    ensures Verdict(extraction, decode) == Panics <==> extraction == Crossed
  {
  }

  function Seen(data: Option<string>): Extraction {
    match data
    case None => NotYet
    case Some(content) => Extract(content)
  }

  /** The time in milliseconds of the k-th poll when a poll takes `delay` on top of the half second of sleep. */
  function PollTime(start: int, delay: nat -> nat, k: nat): int {
    if k == 0 then start else PollTime(start, delay, k - 1) + 500 + delay(k)
  }

  /**
   * However the polls fall, the launcher polls until something is there or the time is up, and what it
   * finds is what the complete log dictates; with the newline in place it never panics.
   */
  method WaitForInitOutput(console: Console, start: int, timeout: int, delay: nat -> nat,
                           decode: string -> Result<string>, ghost full: string)
    returns (outcome: Outcome, polls: nat)
    requires forall t :: console(t).Some? ==> console(t).value <= full
    ensures forall k | 0 <= k < polls :: PollTime(start, delay, k) < start + timeout
    ensures forall k | 0 <= k < polls - 1 :: Seen(console(PollTime(start, delay, k))) == NotYet
    ensures
      if polls > 0 && Seen(console(PollTime(start, delay, polls - 1))) != NotYet
      then outcome == Verdict(Extract(full), decode)
      else outcome == TimedOut && PollTime(start, delay, polls) >= start + timeout
    ensures NewlineAfterMarker(full) ==> outcome != Panics
  {
    hide Extract, NewlineAfterMarker, Verdict, TrimSpace, IndexFrom, At;
    var deadline, now := start + timeout, start;
    polls := 0;
    while now < deadline
      invariant now == PollTime(start, delay, polls)
      invariant forall k | 0 <= k < polls :: PollTime(start, delay, k) < deadline
      invariant forall k | 0 <= k < polls :: Seen(console(PollTime(start, delay, k))) == NotYet
      decreases deadline - now
    {
      polls := polls + 1;
      var data := console(now);
      if data.Some? {
        EarlyLookAgrees(data.value, full);
        var extraction := Extract(data.value);
        if extraction != NotYet {
          NeverPanics(full, decode);
          return Verdict(extraction, decode), polls;
        }
      }
      now := now + POLL_INTERVAL + delay(polls);
    }
    return TimedOut, polls;
  }

  lemma NeverPanics(full: string, decode: string -> Result<string>)
    ensures NewlineAfterMarker(full) ==> Verdict(Extract(full), decode) != Panics
  {
    hide Extract;
    if NewlineAfterMarker(full) { ExtractsTheFirstBlock(full); }
  }
}
