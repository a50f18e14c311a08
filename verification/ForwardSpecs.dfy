// The forward-spec text form, "<name>:<guest-port>:<host-port>", and the comma-separated list that
// carries the forwards of `start` to the daemon in one argument (launcher/mac/forwarding.go).

module ForwardSpecs {
  import opened Text

  datatype ForwardSpec = ForwardSpec(name: string, guestPort: int, hostPort: int)

  predicate NameChar(c: char) {
    'a' <= c <= 'z' || 'A' <= c <= 'Z' || '0' <= c <= '9' || c == '-' || c == '_' || c == '.'
  }

  const LOWER := "abcdefghijklmnopqrstuvwxyz"
  const UPPER := "ABCDEFGHIJKLMNOPQRSTUVWXYZ"
  const DIGITS := "0123456789"

  lemma NameCharsListed(c: char)
    ensures NameChar(c) <==> c in LOWER || c in UPPER || c in DIGITS || c in "._-"
  {
    assert forall i | 0 <= i < |LOWER| :: LOWER[i] as int == 'a' as int + i;
    assert forall i | 0 <= i < |UPPER| :: UPPER[i] as int == 'A' as int + i;
    assert forall i | 0 <= i < |DIGITS| :: DIGITS[i] as int == '0' as int + i;
    if 'a' <= c <= 'z' { assert LOWER[c as int - 'a' as int] == c; }
    if 'A' <= c <= 'Z' { assert UPPER[c as int - 'A' as int] == c; }
    if '0' <= c <= '9' { assert DIGITS[c as int - '0' as int] == c; }
  }

  predicate ValidName(name: string) {
    name != "" && forall i | 0 <= i < |name| :: NameChar(name[i])
  }

  /** What a spec that came out of the parser looks like. */
  predicate ValidSpec(spec: ForwardSpec) {
    ValidName(spec.name) && 1 <= spec.guestPort <= 65535 && 0 <= spec.hostPort <= 65535
  }

  function ParsePort(text: string, lowest: int): Option<int> {
    match Atoi(TrimSpace(text))
    case Some(n) => if lowest <= n <= 65535 then Some(n) else None
    case None => None
  }

  function ParseForwardSpec(value: string): Result<ForwardSpec> {
    var parts := Split(value, ':');
    if |parts| != 3 then Err("expected <name>:<guest-port>:<host-port>")
    else
      var name := TrimSpace(parts[0]);
      if name == "" then Err("name must not be empty")
      else if !ValidName(name) then Err("name may contain only letters, digits, '.', '_' and '-'")
      else
        var guestPort := ParsePort(parts[1], 1);
        var hostPort := ParsePort(parts[2], 0);
        if guestPort.None? then Err("guest port must be an integer from 1 to 65535")
        else if hostPort.None? then Err("host port must be an integer from 0 to 65535")
        else Ok(ForwardSpec(name, guestPort.value, hostPort.value))
  }

  /** fmt.Sprintf("%s:%d:%d", ...), used by encodeForwardSpec and by updateForward. */
  function FormatForward(name: string, guestPort: int, hostPort: int): string {
    name + ":" + FormatInt(guestPort) + ":" + FormatInt(hostPort)
  }

  function EncodeForwardSpec(spec: ForwardSpec): string {
    FormatForward(spec.name, spec.guestPort, spec.hostPort)
  }

  // ----- one spec -----

  lemma SplitForward(name: string, guestPort: int, hostPort: int)
    ensures Split(FormatForward(name, guestPort, hostPort), ':')
         == Split(name, ':') + [FormatInt(guestPort), FormatInt(hostPort)]
  {
    var a, b := FormatInt(guestPort), FormatInt(hostPort);
    FormatHasNoSpaceOrSeparator(guestPort);
    FormatHasNoSpaceOrSeparator(hostPort);
    SplitCount(a, ':');
    SplitCount(b, ':');
    SplitConcat(name, a, ':');
    SplitConcat(name + ":" + a, b, ':');
  }

  lemma ParseFormattedPort(n: int, lowest: int)
    ensures ParsePort(FormatInt(n), lowest) == if lowest <= n <= 65535 && IsInt64(n) then Some(n) else None
  {
    FormatHasNoSpaceOrSeparator(n);
    TrimSpaceOfTrimmed(FormatInt(n));
    AtoiFormat(n);
  }

  /**
   * Formatting arbitrary name text and arbitrary integers and parsing the result succeeds exactly
   * when the trimmed name and both ports are admissible, and then yields those three values.
   */
  lemma FormatThenParse(name: string, guestPort: int, hostPort: int)
    ensures
      var spec := ForwardSpec(TrimSpace(name), guestPort, hostPort);
      var parsed := ParseForwardSpec(FormatForward(name, guestPort, hostPort));
      if ValidSpec(spec) then parsed == Ok(spec) else parsed.Err?
  {
    hide TrimSpace, Split, ParsePort, FormatForward, FormatInt;
    SplitForward(name, guestPort, hostPort);
    SplitCount(name, ':');
    ParseFormattedPort(guestPort, 1);
    ParseFormattedPort(hostPort, 0);
    if ':' in name {
      TrimKeepsColon(name);
    }
  }

  lemma TrimSpaceOfTrimmed(s: string)
    requires Trimmed(s)
    ensures TrimSpace(s) == s
  {
    TrimSpaceUnique("", s, "");
    assert "" + s + "" == s;
  }

  lemma TrimKeepsColon(s: string)
    requires ':' in s
    ensures !ValidName(TrimSpace(s))
  {
    TrimLeftKeepsColon(s);
    TrimRightKeepsColon(TrimLeft(s));
    var i :| 0 <= i < |TrimSpace(s)| && TrimSpace(s)[i] == ':';
    assert !NameChar(TrimSpace(s)[i]);
  }

  lemma {:induction false} TrimLeftKeepsColon(s: string)
    requires ':' in s
    ensures ':' in TrimLeft(s)
  {
    if !IsSpace(s[0]) {
    } else {
      TrimLeftKeepsColon(s[1..]);
    }
  }

  lemma {:induction false} TrimRightKeepsColon(s: string)
    requires ':' in s
    ensures ':' in TrimRight(s)
  {
    if !IsSpace(s[|s| - 1]) {
    } else {
      TrimRightKeepsColon(s[..|s| - 1]);
    }
  }

  lemma ValidNameIsTrimmed(name: string)
    requires ValidName(name)
    ensures Trimmed(name) && TrimSpace(name) == name && ':' !in name && ',' !in name
  {
    assert NameChar(name[0]) && NameChar(name[|name| - 1]);
    TrimSpaceOfTrimmed(name);
  }

  ghost predicate ThreeFields(value: string, name: string, a: string, b: string) {
    value == name + ":" + a + ":" + b && ':' !in name && ':' !in a && ':' !in b
  }

  /** Exactly which texts are accepted, and as what: three colon-free fields that trim to a name and two ports. */
  lemma ParseCharacterised(value: string, spec: ForwardSpec)
    ensures ParseForwardSpec(value) == Ok(spec) <==>
      ValidSpec(spec) && exists name, a, b ::
        && ThreeFields(value, name, a, b) && TrimSpace(name) == spec.name
        && Atoi(TrimSpace(a)) == Some(spec.guestPort) && Atoi(TrimSpace(b)) == Some(spec.hostPort)
  {
    hide TrimSpace, Atoi, Split, ValidName;
    JoinSplit(value, ':');
    var parts := Split(value, ':');
    if |parts| == 3 {
      JoinThree(parts);
      assert ThreeFields(value, parts[0], parts[1], parts[2]);
    }
    forall name, a, b | ThreeFields(value, name, a, b) ensures parts == [name, a, b] {
      SplitCount(name, ':');
      SplitCount(a, ':');
      SplitCount(b, ':');
      SplitConcat(name, a, ':');
      SplitConcat(name + ":" + a, b, ':');
    }
    ValidNameIsNotEmpty(spec.name);
  }

  lemma ValidNameIsNotEmpty(name: string)
    ensures ValidName(name) ==> name != ""
  {
  }

  lemma JoinThree(parts: seq<string>)
    requires |parts| == 3
    ensures Join(parts, ":") == parts[0] + ":" + parts[1] + ":" + parts[2]
  {
    assert parts[1..][1..] == [parts[2]];
    assert Join(parts[1..], ":") == parts[1] + ":" + parts[2];
  }

  /** Encoding is a right inverse of parsing on every admissible spec, and only on those. */
  lemma EncodeThenParse(spec: ForwardSpec)
    ensures ParseForwardSpec(EncodeForwardSpec(spec)) == Ok(spec) <==> ValidSpec(spec)
  {
    FormatThenParse(spec.name, spec.guestPort, spec.hostPort);
    if ValidSpec(spec) {
      ValidNameIsTrimmed(spec.name);
    }
  }

  /** Every accepted value has an admissible spec, and its encoding parses to the same spec. */
  lemma ParseIdempotent(value: string)
    requires ParseForwardSpec(value).Ok?
    ensures
      var spec := ParseForwardSpec(value).value;
      ValidSpec(spec) && ParseForwardSpec(EncodeForwardSpec(spec)) == Ok(spec)
  {
    hide TrimSpace, Split, EncodeForwardSpec, Atoi;
    EncodeThenParse(ParseForwardSpec(value).value);
  }

  // ----- the list carried from `start` to the daemon -----

  /** forwardSpecList.Set on the list as a value. */
  function Extended(list: seq<ForwardSpec>, value: string): Result<seq<ForwardSpec>> {
    match ParseForwardSpec(value)
    case Err(e) => Err(e)
    case Ok(spec) =>
      if NameTaken(list, spec.name)
      then Err("forward name is configured more than once")
      else Ok(list + [spec])
  }

  predicate NameTaken(list: seq<ForwardSpec>, name: string) {
    exists i :: 0 <= i < |list| && list[i].name == name
  }

  /** A value is appended exactly when it parses and its name is new; nothing is ever dropped. */
  lemma ExtendedIff(list: seq<ForwardSpec>, value: string, longer: seq<ForwardSpec>)
    ensures Extended(list, value) == Ok(longer) <==>
      && ParseForwardSpec(value).Ok? && !NameTaken(list, ParseForwardSpec(value).value.name)
      && longer == list + [ParseForwardSpec(value).value]
  {
    hide ParseForwardSpec;
  }

  function EncodeAll(list: seq<ForwardSpec>): (parts: seq<string>)
    ensures |parts| == |list|
    ensures forall i | 0 <= i < |list| :: parts[i] == EncodeForwardSpec(list[i])
  {
    seq(|list|, i requires 0 <= i < |list| => EncodeForwardSpec(list[i]))
  }

  function ListText(list: seq<ForwardSpec>): string {
    Join(EncodeAll(list), ",")
  }

  /** Applying Set to each entry in turn, stopping at the first error. */
  function ExtendedByAll(list: seq<ForwardSpec>, entries: seq<string>): Result<seq<ForwardSpec>>
    decreases |entries|
  {
    if entries == [] then Ok(list)
    else match Extended(list, entries[0])
      case Err(e) => Err(e)
      case Ok(longer) => ExtendedByAll(longer, entries[1..])
  }

  function ParsedSpecs(value: string): Result<seq<ForwardSpec>> {
    if TrimSpace(value) == "" then Ok([]) else ExtendedByAll([], Split(value, ','))
  }

  ghost predicate DistinctNames(list: seq<ForwardSpec>) {
    forall i, j | 0 <= i < j < |list| :: list[i].name != list[j].name
  }

  /** The lists that successful calls of Set build: admissible specs with distinct names. */
  ghost predicate WellFormedList(list: seq<ForwardSpec>) {
    (forall i | 0 <= i < |list| :: ValidSpec(list[i])) && DistinctNames(list)
  }

  lemma SetKeepsWellFormed(list: seq<ForwardSpec>, value: string)
    requires WellFormedList(list) && Extended(list, value).Ok?
    ensures WellFormedList(Extended(list, value).value)
  {
    hide ParseForwardSpec, ValidSpec;
    ParseIdempotent(value);
  }

  lemma {:induction false} AllKeepWellFormed(list: seq<ForwardSpec>, entries: seq<string>)
    requires WellFormedList(list) && ExtendedByAll(list, entries).Ok?
    ensures WellFormedList(ExtendedByAll(list, entries).value)
    decreases |entries|
  {
    if entries == [] {
    } else {
      SetKeepsWellFormed(list, entries[0]);
      AllKeepWellFormed(Extended(list, entries[0]).value, entries[1..]);
    }
  }

  /** Every list the daemon accepts has admissible specs under pairwise distinct names. */
  lemma ParsedNamesAreDistinct(value: string)
    requires ParsedSpecs(value).Ok?
    ensures WellFormedList(ParsedSpecs(value).value)
  {
    if TrimSpace(value) != "" {
      AllKeepWellFormed([], Split(value, ','));
    }
  }

  /** Entry by entry, the texts parse to these specs. */
  ghost predicate ParseTo(entries: seq<string>, specs: seq<ForwardSpec>) {
    |specs| == |entries| && forall i | 0 <= i < |entries| :: ParseForwardSpec(entries[i]) == Ok(specs[i])
  }

  lemma {:induction false} ExtendedByAllIff(list: seq<ForwardSpec>, entries: seq<string>, whole: seq<ForwardSpec>)
    requires DistinctNames(list)
    ensures ExtendedByAll(list, entries) == Ok(whole) <==>
      list <= whole && ParseTo(entries, whole[|list|..]) && DistinctNames(whole)
    decreases |entries|
  {
    hide ParseForwardSpec;
    if entries == [] {
      assert list <= whole && whole[|list|..] == [] ==> whole == list;
    } else {
      var parsed := ParseForwardSpec(entries[0]);
      if parsed.Ok? {
        var longer := list + [parsed.value];
        if NameTaken(list, parsed.value.name) {
          TakenMeansRepeated(list, parsed.value, whole);
        } else {
          ExtendedByAllIff(longer, entries[1..], whole);
        }
        OneMoreEntry(list, entries, whole, parsed.value);
      }
    }
  }

  lemma TakenMeansRepeated(list: seq<ForwardSpec>, spec: ForwardSpec, whole: seq<ForwardSpec>)
    requires NameTaken(list, spec.name)
    ensures list + [spec] <= whole ==> !DistinctNames(whole)
  {
    var i :| 0 <= i < |list| && list[i].name == spec.name;
    if list + [spec] <= whole {
      assert whole[i] == (list + [spec])[i] && whole[|list|] == (list + [spec])[|list|];
    }
  }

  lemma OneMoreEntry(list: seq<ForwardSpec>, entries: seq<string>, whole: seq<ForwardSpec>, spec: ForwardSpec)
    requires entries != [] && ParseForwardSpec(entries[0]) == Ok(spec)
    ensures
      (list <= whole && ParseTo(entries, whole[|list|..])) <==>
      (list + [spec] <= whole && ParseTo(entries[1..], whole[|list + [spec]|..]))
  {
    hide ParseForwardSpec;
    if list <= whole && ParseTo(entries, whole[|list|..]) {
      var rest := whole[|list|..];
      assert rest[0] == spec && whole == list + rest && rest == [spec] + rest[1..];
      assert whole[|list + [spec]|..] == rest[1..];
      forall i | 0 <= i < |entries[1..]| ensures ParseForwardSpec(entries[1..][i]) == Ok(rest[1..][i]) {
        assert ParseForwardSpec(entries[i + 1]) == Ok(rest[i + 1]);
      }
    }
    if list + [spec] <= whole && ParseTo(entries[1..], whole[|list + [spec]|..]) {
      var rest := whole[|list|..];
      assert whole[|list|] == (list + [spec])[|list|];
      assert rest[1..] == whole[|list + [spec]|..];
      forall i | 0 <= i < |entries| ensures ParseForwardSpec(entries[i]) == Ok(rest[i]) {
        if i > 0 { assert ParseForwardSpec(entries[1..][i - 1]) == Ok(rest[1..][i - 1]); }
      }
    }
  }

  /**
   * Which list texts the daemon accepts, and as which list: a blank text as the empty list, and any
   * other text exactly when each of its comma-separated entries parses, to specs with distinct names.
   */
  lemma ParsedSpecsCharacterised(value: string, specs: seq<ForwardSpec>)
    ensures ParsedSpecs(value) == Ok(specs) <==>
      if TrimSpace(value) == "" then specs == [] else ParseTo(Split(value, ','), specs) && DistinctNames(specs)
  {
    hide ParseForwardSpec, TrimSpace, Split, ExtendedByAll;
    ExtendedByAllIff([], Split(value, ','), specs);
    assert specs[0..] == specs;
  }

  lemma {:induction false} EncodedEntriesExtend(done: seq<ForwardSpec>, rest: seq<ForwardSpec>)
    requires WellFormedList(done + rest)
    ensures ExtendedByAll(done, EncodeAll(rest)) == Ok(done + rest)
    decreases |rest|
  {
    hide ParseForwardSpec, EncodeForwardSpec, ValidSpec;
    if rest == [] {
      assert done + rest == done;
    } else {
      var spec := rest[0];
      assert (done + rest)[|done|] == spec;
      EncodeThenParse(spec);
      forall i | 0 <= i < |done| ensures done[i].name != spec.name {
        assert (done + rest)[i] == done[i];
      }
      assert done + rest == (done + [spec]) + rest[1..];
      assert EncodeAll(rest)[1..] == EncodeAll(rest[1..]);
      EncodedEntriesExtend(done + [spec], rest[1..]);
    }
  }

  lemma EncodedSpecShape(spec: ForwardSpec)
    requires ValidSpec(spec)
    ensures EncodeForwardSpec(spec) != "" && !IsSpace(EncodeForwardSpec(spec)[0])
    ensures ',' !in EncodeForwardSpec(spec)
  {
    ValidNameIsTrimmed(spec.name);
    FormatHasNoSpaceOrSeparator(spec.guestPort);
    FormatHasNoSpaceOrSeparator(spec.hostPort);
  }

  /**
   * Launcher-to-daemon round trip: the daemon reads back exactly the list that was built by
   * successful calls of Set, in order, and the empty list as the empty list.
   */
  lemma ListRoundTrip(list: seq<ForwardSpec>)
    requires WellFormedList(list)
    ensures ParsedSpecs(ListText(list)) == Ok(list)
  {
    hide TrimSpace, Split, EncodeForwardSpec, ExtendedByAll, ValidSpec, IsSpace;
    if list == [] {
      TrimSpaceOfTrimmed("");
    } else {
      var parts := EncodeAll(list);
      forall i | 0 <= i < |parts| ensures ',' !in parts[i] && parts[i] != "" && !IsSpace(parts[i][0]) {
        EncodedSpecShape(list[i]);
      }
      SplitJoin(parts, ',');
      var text := ListText(list);
      assert parts[0] <= text;
      NonBlankText(text);
      EncodedEntriesExtend([], list);
      assert [] + list == list;
    }
  }

  lemma NonBlankText(text: string)
    requires text != "" && !IsSpace(text[0])
    ensures TrimSpace(text) != ""
  {
    TrimRightKeepsFirst(text);
  }

  lemma {:induction false} TrimRightKeepsFirst(text: string)
    requires text != "" && !IsSpace(text[0])
    ensures TrimRight(text) != ""
  {
    if !IsSpace(text[|text| - 1]) {
    } else {
      TrimRightKeepsFirst(text[..|text| - 1]);
    }
  }

  /** The flag value that `start` accumulates, one Set call per --forward option. */
  class ForwardSpecList {
    var specs: seq<ForwardSpec>

    constructor ()
      ensures specs == [] && WellFormedList(specs)
    {
      specs := [];
    }

    method Set(value: string) returns (err: Option<string>)
      modifies this
      ensures match Extended(old(specs), value)
        case Ok(longer) => err == None && specs == longer
        case Err(e) => err == Some(e) && specs == old(specs)
      ensures err.None? <==>
        && ParseForwardSpec(value).Ok?
        && forall i | 0 <= i < |old(specs)| :: old(specs)[i].name != ParseForwardSpec(value).value.name
      ensures specs == if err.None? then old(specs) + [ParseForwardSpec(value).value] else old(specs)
      ensures old(WellFormedList(specs)) ==> WellFormedList(specs)
    {
      hide ParseForwardSpec, ValidSpec;
      var parsed := ParseForwardSpec(value);
      if parsed.Err? {
        return Some(parsed.error);
      }
      var spec := parsed.value;
      for i := 0 to |specs|
        invariant specs == old(specs)
        invariant forall j | 0 <= j < i :: specs[j].name != spec.name
      {
        if specs[i].name == spec.name {
          assert Extended(specs, value).Err?;
          return Some("forward name is configured more than once");
        }
      }
      assert Extended(specs, value) == Ok(specs + [spec]);
      if WellFormedList(specs) {
        SetKeepsWellFormed(specs, value);
      }
      specs := specs + [spec];
      return None;
    }

    method String() returns (text: string)
      ensures text == ListText(specs)
      ensures WellFormedList(specs) ==> ParsedSpecs(text) == Ok(specs)
    {
      hide EncodeForwardSpec, ParsedSpecs, WellFormedList;
      var parts: seq<string> := [];
      for i := 0 to |specs|
        invariant parts == EncodeAll(specs[..i])
      {
        assert specs[..i + 1][..i] == specs[..i];
        parts := parts + [EncodeForwardSpec(specs[i])];
      }
      assert specs[..|specs|] == specs;
      text := Join(parts, ",");
      if WellFormedList(specs) {
        ListRoundTrip(specs);
      }
    }
  }

  method ParseForwardSpecs(value: string) returns (r: Result<seq<ForwardSpec>>)
    ensures r == ParsedSpecs(value)
    ensures r.Ok? ==>
      if TrimSpace(value) == "" then r.value == [] else ParseTo(Split(value, ','), r.value) && DistinctNames(r.value)
    ensures r.Err? ==>
      TrimSpace(value) != "" && forall specs | DistinctNames(specs) :: !ParseTo(Split(value, ','), specs)
    ensures r.Ok? ==> WellFormedList(r.value)
  {
    forall specs ensures ParsedSpecs(value) == Ok(specs) <==>
      if TrimSpace(value) == "" then specs == [] else ParseTo(Split(value, ','), specs) && DistinctNames(specs)
    {
      ParsedSpecsCharacterised(value, specs);
    }
    hide ParseForwardSpec, TrimSpace, ParseTo, DistinctNames;
    if TrimSpace(value) == "" {
      return Ok([]);
    }
    var entries := Split(value, ',');
    var list := new ForwardSpecList();
    for i := 0 to |entries|
      invariant ExtendedByAll(list.specs, entries[i..]) == ParsedSpecs(value)
      invariant fresh(list) && WellFormedList(list.specs)
    {
      assert entries[i..][1..] == entries[i + 1..];
      var err := list.Set(entries[i]);
      if err.Some? {
        return Err(err.value);
      }
    }
    return Ok(list.specs);
  }
}
