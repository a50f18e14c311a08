// quoteShellArgument and remoteCommand (launcher/mac/main.go) against the shell that reads their
// output. The reader is a transcription of POSIX.1-2017, XCU sections 2.2 (quoting), 2.3 (token
// recognition) and 2.6.7 (quote removal); it knows nothing about the printer.

module ShellQuoting {
  import opened Text

  // ----- the shell -----

  /** A character of a word: protected by quoting, unprotected, or starting an expansion. */
  datatype WordChar = Quoted(c: char) | Bare(c: char) | Expansion(c: char)

  datatype Token = Word(chars: seq<WordChar>) | Operator(c: char)

  datatype Mode = Plain | Single | Double | Comment

  function Finished(word: Option<seq<WordChar>>): seq<Token> {
    match word
    case None => []
    case Some(chars) => [Word(chars)]
  }

  /** The word being read, started if necessary, with more characters at its end. */
  function Grown(word: Option<seq<WordChar>>, more: seq<WordChar>): Option<seq<WordChar>> {
    match word
    case None => Some(more)
    case Some(chars) => Some(chars + more)
  }

  predicate IsOperatorChar(c: char) {
    c == '\n' || c == '|' || c == '&' || c == ';' || c == '<' || c == '>' || c == '(' || c == ')'
  }

  function PlainChar(c: char): WordChar {
    if c == '$' || c == '`' then Expansion(c) else Bare(c)
  }

  function DoubleQuotedChar(c: char): WordChar {
    if c == '$' || c == '`' then Expansion(c) else Quoted(c)
  }

  /** The tokens of `s`, read from the given quoting mode with a word already begun, or None when a quote stays open. */
  function Tokens(s: string, mode: Mode, word: Option<seq<WordChar>>): Option<seq<Token>>
    decreases |s|
  {
    if s == "" then
      if mode == Single || mode == Double then None else Some(Finished(word))
    else
      var c, rest := s[0], s[1..];
      match mode
      case Plain =>
        if c == '\'' then Tokens(rest, Single, Grown(word, []))
        else if c == '"' then Tokens(rest, Double, Grown(word, []))
        else if c == '\\' then
          if rest == "" then Tokens(rest, Plain, Grown(word, [Bare(c)]))
          else if rest[0] == '\n' then Tokens(rest[1..], Plain, word)
          else Tokens(rest[1..], Plain, Grown(word, [Quoted(rest[0])]))
        else if c == ' ' || c == '\t' then After(Finished(word), Tokens(rest, Plain, None))
        else if IsOperatorChar(c) then After(Finished(word) + [Operator(c)], Tokens(rest, Plain, None))
        else if c == '#' && word == None then Tokens(rest, Comment, None)
        else Tokens(rest, Plain, Grown(word, [PlainChar(c)]))
      case Single =>
        if c == '\'' then Tokens(rest, Plain, word) else Tokens(rest, Single, Grown(word, [Quoted(c)]))
      case Double =>
        if c == '"' then Tokens(rest, Plain, word)
        else if c == '\\' && rest != "" && rest[0] == '\n' then Tokens(rest[1..], Double, word)
        else if c == '\\' && rest != "" && (rest[0] == '$' || rest[0] == '`' || rest[0] == '"' || rest[0] == '\\') then
          Tokens(rest[1..], Double, Grown(word, [Quoted(rest[0])]))
        else Tokens(rest, Double, Grown(word, [DoubleQuotedChar(c)]))
      case Comment =>
        if c == '\n' then After([Operator(c)], Tokens(rest, Plain, None)) else Tokens(rest, Comment, None)
  }

  function After(first: seq<Token>, rest: Option<seq<Token>>): Option<seq<Token>> {
    match rest
    case None => None
    case Some(tokens) => Some(first + tokens)
  }

  /** A word that the shell passes on as it stands: every character of it is quoted. */
  predicate Inert(token: Token) {
    token.Word? && forall i | 0 <= i < |token.chars| :: token.chars[i].Quoted?
  }

  /** Quote removal. The quoting characters themselves never became part of the word. */
  function QuoteRemoved(token: Token): string
    requires Inert(token)
  {
    seq(|token.chars|, i requires 0 <= i < |token.chars| => token.chars[i].c)
  }

  /**
   * The argument list the shell runs, when the text is one simple command without any operator,
   * comment, expansion or unquoted character; None for every other text.
   */
  function ShellArguments(s: string): Option<seq<string>> {
    match Tokens(s, Plain, None)
    case None => None
    case Some(tokens) =>
      if forall i | 0 <= i < |tokens| :: Inert(tokens[i])
      then Some(seq(|tokens|, i requires 0 <= i < |tokens| => QuoteRemoved(tokens[i])))
      else None
  }

  // ----- the printer -----

  /** strings.ReplaceAll for a one-character pattern. */
  function ReplaceAll(s: string, target: char, replacement: string): string {
    if s == "" then ""
    else (if s[0] == target then replacement else [s[0]]) + ReplaceAll(s[1..], target, replacement)
  }

  const ESCAPED_QUOTE := "'\"'\"'"

  function QuoteShellArgument(value: string): string {
    "'" + ReplaceAll(value, '\'', ESCAPED_QUOTE) + "'"
  }

  function QuoteAll(command: seq<string>): (quoted: seq<string>)
    ensures |quoted| == |command|
    ensures forall i | 0 <= i < |command| :: quoted[i] == QuoteShellArgument(command[i])
  {
    seq(|command|, i requires 0 <= i < |command| => QuoteShellArgument(command[i]))
  }

  function CommandText(command: seq<string>): string {
    Join(QuoteAll(command), " ")
  }

  // ----- the round trip -----

  function AllQuoted(s: string): seq<WordChar> {
    seq(|s|, i requires 0 <= i < |s| => Quoted(s[i]))
  }

  lemma EscapedQuoteReads(rest: string, word: seq<WordChar>)
    ensures Tokens(ESCAPED_QUOTE + rest, Single, Some(word)) == Tokens(rest, Single, Some(word + [Quoted('\'')]))
  {
    var s := ESCAPED_QUOTE + rest;
    var quoted := word + [Quoted('\'')];
    assert word + [] == word && quoted + [] == quoted;
    calc {
      Tokens(s, Single, Some(word));
      { assert s[1..] == "\"'\"'" + rest; }
      Tokens("\"'\"'" + rest, Plain, Some(word));
      { assert ("\"'\"'" + rest)[1..] == "'\"'" + rest; }
      Tokens("'\"'" + rest, Double, Some(word));
      { assert ("'\"'" + rest)[1..] == "\"'" + rest; }
      Tokens("\"'" + rest, Double, Some(quoted));
      { assert ("\"'" + rest)[1..] == "'" + rest; }
      Tokens("'" + rest, Plain, Some(quoted));
      { assert ("'" + rest)[1..] == rest; }
      Tokens(rest, Single, Some(quoted));
    }
  }

  lemma {:induction false} QuotedBodyReads(value: string, rest: string, word: seq<WordChar>)
    ensures Tokens(ReplaceAll(value, '\'', ESCAPED_QUOTE) + "'" + rest, Single, Some(word))
         == Tokens(rest, Plain, Some(word + AllQuoted(value)))
    decreases |value|
  {
    if value == "" {
      assert "" + "'" + rest == "'" + rest && ("'" + rest)[1..] == rest;
      assert word + AllQuoted("") == word;
    } else {
      var tail := ReplaceAll(value[1..], '\'', ESCAPED_QUOTE) + "'" + rest;
      var longer := word + [Quoted(value[0])];
      QuotedBodyReads(value[1..], rest, longer);
      assert longer + AllQuoted(value[1..]) == word + AllQuoted(value);
      var body := ReplaceAll(value, '\'', ESCAPED_QUOTE) + "'" + rest;
      if value[0] == '\'' {
        assert body == ESCAPED_QUOTE + tail;
        EscapedQuoteReads(tail, word);
      } else {
        assert body == [value[0]] + tail && body[1..] == tail;
      }
    }
  }

  lemma QuotedArgumentReads(value: string, rest: string)
    ensures Tokens(QuoteShellArgument(value) + rest, Plain, None) == Tokens(rest, Plain, Some(AllQuoted(value)))
  {
    var s := QuoteShellArgument(value) + rest;
    var body := ReplaceAll(value, '\'', ESCAPED_QUOTE) + "'" + rest;
    assert s[0] == '\'' && s[1..] == body;
    QuotedBodyReads(value, rest, []);
    assert [] + AllQuoted(value) == AllQuoted(value);
  }

  function InertWords(command: seq<string>): seq<Token> {
    seq(|command|, i requires 0 <= i < |command| => Word(AllQuoted(command[i])))
  }

  lemma {:induction false} CommandReads(command: seq<string>)
    ensures Tokens(CommandText(command), Plain, None) == Some(InertWords(command))
    decreases |command|
  {
    if command == [] {
      assert CommandText(command) == "" && InertWords(command) == [];
    } else {
      var first, others := command[0], command[1..];
      if others == [] {
        QuotedArgumentReads(first, "");
        assert CommandText(command) == QuoteShellArgument(first) + "";
        assert InertWords(command) == [Word(AllQuoted(first))];
      } else {
        var tail := " " + CommandText(others);
        assert QuoteAll(command)[1..] == QuoteAll(others);
        assert CommandText(command) == QuoteShellArgument(first) + tail;
        QuotedArgumentReads(first, tail);
        assert tail[1..] == CommandText(others);
        CommandReads(others);
        assert InertWords(command) == [Word(AllQuoted(first))] + InertWords(others);
      }
    }
  }

  /**
   * For every argument list, the shell splits the printed command into exactly those arguments,
   * and no character of it is left open to expansion, splitting or interpretation.
   */
  lemma RemoteCommandRoundTrip(command: seq<string>)
    ensures ShellArguments(CommandText(command)) == Some(command)
  {
    hide CommandText, Tokens;
    CommandReads(command);
    var words := InertWords(command);
    forall i | 0 <= i < |command| ensures Inert(words[i]) && QuoteRemoved(words[i]) == command[i] {
    }
    assert seq(|words|, i requires 0 <= i < |words| => QuoteRemoved(words[i])) == command;
  }

  /** Different argument lists never print the same command. */
  lemma RemoteCommandInjective(a: seq<string>, b: seq<string>)
    requires CommandText(a) == CommandText(b)
    ensures a == b
  {
    RemoteCommandRoundTrip(a);
    RemoteCommandRoundTrip(b);
  }

  method RemoteCommand(command: seq<string>) returns (text: string)
    ensures text == CommandText(command)
    ensures ShellArguments(text) == Some(command)
  {
    hide QuoteShellArgument, ShellArguments;
    var quoted: seq<string> := [];
    for i := 0 to |command|
      invariant quoted == QuoteAll(command[..i])
    {
      quoted := quoted + [QuoteShellArgument(command[i])];
    }
    assert command[..|command|] == command;
    RemoteCommandRoundTrip(command);
    text := Join(quoted, " ");
  }
}
