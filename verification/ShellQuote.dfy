/**
  Quoting for generated shell scripts, against the quoting rules of section
  2.2.1 (escape character) and section 2.2.2 (single-quotes) of the
  POSIX.1-2017 Shell Command Language.
 */
module ShellQuote {
  import opened GoText

  // ------------------------------------------------------------------ shell words

  predicate IsBlank(c: Byte) {
    c == ' ' || c == '\t'
  }

  /** The end of a line and a semicolon end a command. */
  predicate EndsCommand(c: Byte) {
    c == '\n' || c == ';'
  }

  /** Unquoted, a blank, the end of a command or another operator ends a word. */
  predicate EndsWord(c: Byte) {
    IsBlank(c) || EndsCommand(c) || c in "|&<>()"
  }

  /** What may follow a word. */
  predicate IsAfterWord(t: Text) {
    t == [] || EndsWord(t[0])
  }

  /** Unquoted, these stand for something else. */
  predicate IsSpecial(c: Byte) {
    c in "$`\"*?[#~=%"
  }

  /** A word that has been read, and what follows it. */
  datatype Word = Word(value: Text, rest: Text)

  function Prefixed(c: Byte, word: Option<Word>): Option<Word> {
    match word
    case None => None
    case Some(w) => Some(w.(value := [c] + w.value))
  }

  /**
    Reads on inside a word, within single quotes or not. None: the word is
    unfinished, or has a part that is more than quoting.
   */
  function Read(s: Text, quoted: bool): (word: Option<Word>)
    ensures word.Some? ==> |word.value.rest| <= |s|
    decreases |s|
  {
    if quoted then
      if s == [] then None
      else if s[0] == '\'' then Read(s[1..], false)
      else Prefixed(s[0], Read(s[1..], true))
    else if IsAfterWord(s) then Some(Word([], s))
    else if s[0] == '\'' then Read(s[1..], true)
    else if s[0] == '\\' then
      if |s| == 1 then None
      else if s[1] == '\n' then Read(s[2..], false)
      else Prefixed(s[1], Read(s[2..], false))
    else if IsSpecial(s[0]) then None
    else Prefixed(s[0], Read(s[1..], false))
  }

  /** The words up to the end of the command. None: it has an operator, or a word that cannot be read. */
  function Words(line: Text): Option<seq<Text>>
    decreases |line|
  {
    if line == [] || EndsCommand(line[0]) then Some([])
    else if IsBlank(line[0]) then Words(line[1..])
    else
      match Read(line, false)
      case None => None
      case Some(word) =>
        if |word.rest| == |line| then None
        else
          match Words(word.rest)
          case None => None
          case Some(words) => Some([word.value] + words)
  }

  // --------------------------------------------------------------------- quoting

  /** strings.ReplaceAll(s, "'", `'\''`). */
  function Escaped(s: Text): Text {
    if s == [] then [] else (if s[0] == '\'' then "'\\''" else [s[0]]) + Escaped(s[1..])
  }

  /** shellQuote. */
  function Quote(s: Text): Text {
    if s == "" then "''" else "'" + Escaped(s) + "'"
  }

  /** Reading an escaped text inside quotes gives the text back, and then reading goes on. */
  lemma {:induction false} EscapedReads(s: Text, t: Text)
    requires Read(t, true).Some?
    ensures
      var after := Read(t, true).value;
      Read(Escaped(s) + t, true) == Some(Word(s + after.value, after.rest))
  {
    var after := Read(t, true).value;
    if s == [] {
      assert Escaped(s) + t == t && s + after.value == after.value;
    } else {
      EscapedReads(s[1..], t);
      var rest := Escaped(s[1..]) + t;
      assert [s[0]] + (s[1..] + after.value) == s + after.value;
      if s[0] == '\'' {
        assert Escaped(s) + t == "'\\''" + rest;
        EscapedQuoteReads(rest);
      } else {
        assert Escaped(s) + t == [s[0]] + rest;
        assert ([s[0]] + rest)[1..] == rest;
      }
    }
  }

  /** The quotes are left, one quote is read, and the quotes are entered again. */
  lemma EscapedQuoteReads(rest: Text)
    ensures Read("'\\''" + rest, true) == Prefixed('\'', Read(rest, true))
  {
    var s, escaped, reopened := "'\\''" + rest, "\\''" + rest, "'" + rest;
    assert s[1..] == escaped && escaped[2..] == reopened && reopened[1..] == rest;
    assert Read(s, true) == Read(escaped, false);
    assert escaped[0] == '\\' && escaped[1] == '\'';
    assert Read(escaped, false) == Prefixed('\'', Read(reopened, false));
  }

  lemma QuoteEncloses(s: Text)
    ensures Quote(s) == "'" + Escaped(s) + "'"
  {
  }

  lemma Regroup(open: Text, inner: Text, close: Text, t: Text)
    ensures open + inner + close + t == open + (inner + (close + t))
  {
  }

  lemma QuoteShape(s: Text, t: Text)
    ensures |Quote(s) + t| > 0 && (Quote(s) + t)[0] == '\''
    ensures (Quote(s) + t)[1..] == Escaped(s) + ("'" + t)
  {
    QuoteEncloses(s);
    Regroup("'", Escaped(s), "'", t);
  }

  lemma QuoteOpens(s: Text, t: Text)
    ensures Read(Quote(s) + t, false) == Read(Escaped(s) + ("'" + t), true)
  {
    QuoteShape(s, t);
  }

  lemma ClosingQuoteReads(t: Text)
    requires IsAfterWord(t)
    ensures Read("'" + t, true) == Some(Word([], t))
  {
    assert ("'" + t)[1..] == t;
  }

  /** A quoted text is one word, whose value is the text, whatever ends it. */
  lemma QuotedIsOneWord(s: Text, t: Text)
    requires IsAfterWord(t)
    ensures Read(Quote(s) + t, false) == Some(Word(s, t))
  {
    QuoteOpens(s, t);
    ClosingQuoteReads(t);
    EscapedReads(s, "'" + t);
    var after := Read("'" + t, true).value;
    assert s + after.value == s;
  }

  lemma QuoteStartsWithQuote(s: Text)
    ensures |Quote(s)| >= 2 && Quote(s)[0] == '\''
  {
  }

  /** A line that starts with a quoted text starts with that word. */
  lemma LineStartsWithWord(s: Text, t: Text)
    requires IsAfterWord(t) && Words(t).Some?
    ensures Words(Quote(s) + t) == Some([s] + Words(t).value)
  {
    QuoteStartsWithQuote(s);
    QuotedIsOneWord(s, t);
    assert (Quote(s) + t)[0] == '\'';
  }

  function QuotedLine(arguments: seq<Text>): Text {
    if arguments == [] then []
    else Quote(arguments[0]) + (if |arguments| == 1 then [] else " " + QuotedLine(arguments[1..]))
  }

  /** A line of quoted arguments is read as exactly those arguments. */
  lemma {:induction false} QuotedLineIsReadBack(arguments: seq<Text>)
    ensures Words(QuotedLine(arguments)) == Some(arguments)
  {
    if arguments != [] {
      QuotedLineIsReadBack(arguments[1..]);
      var rest := QuotedLine(arguments[1..]);
      var t := if |arguments| == 1 then [] else " " + rest;
      assert |arguments| > 1 ==> t[1..] == rest;
      LineStartsWithWord(arguments[0], t);
      assert [arguments[0]] + arguments[1..] == arguments;
    }
  }

  // ------------------------------------------------------------ the generated script

  predicate IsPlain(c: Byte) {
    !EndsWord(c) && !IsSpecial(c) && c != '\'' && c != '\\'
  }

  predicate IsPlainWord(word: Text) {
    word != [] && forall i :: 0 <= i < |word| ==> IsPlain(word[i])
  }

  lemma {:induction false} PlainWordReads(word: Text, t: Text)
    requires IsAfterWord(t) && (word == [] || IsPlainWord(word))
    ensures Read(word + t, false) == Some(Word(word, t))
  {
    if word == [] {
      assert word + t == t;
    } else {
      PlainWordReads(word[1..], t);
      TailOfConcat(word, t);
      assert [word[0]] + word[1..] == word;
    }
  }

  /** Words of the script's own, each followed by a blank. */
  function Command(words: seq<Text>): Text {
    if words == [] then [] else words[0] + " " + Command(words[1..])
  }

  lemma CommandWord(word: Text, rest: Text)
    requires IsPlainWord(word) && Words(rest).Some?
    ensures Words(word + " " + rest) == Some([word] + Words(rest).value)
  {
    var t := " " + rest;
    assert word + " " + rest == word + t && t[1..] == rest;
    PlainWordReads(word, t);
    assert (word + t)[0] == word[0];
  }

  lemma CommandShape(command: seq<Text>, line: Text)
    requires command != []
    ensures Command(command) + line == command[0] + " " + (Command(command[1..]) + line)
  {
  }

  lemma FirstWordMoves(command: seq<Text>, rest: seq<Text>)
    requires command != []
    ensures [command[0]] + (command[1..] + rest) == command + rest
  {
  }

  /** Behind words of the script's own, a line is read as those words and what it is read as by itself. */
  lemma {:induction false} CommandIsRead(command: seq<Text>, line: Text)
    requires (forall w :: w in command ==> IsPlainWord(w)) && Words(line).Some?
    ensures Words(Command(command) + line) == Some(command + Words(line).value)
  {
    if command == [] {
      assert Command(command) + line == line && command + Words(line).value == Words(line).value;
    } else {
      assert command[0] in command && forall w :: w in command[1..] ==> w in command;
      CommandIsRead(command[1..], line);
      CommandShape(command, line);
      CommandWord(command[0], Command(command[1..]) + line);
      FirstWordMoves(command, Words(line).value);
    }
  }

  /** Wherever the script has a quoted text behind words of its own, the line is read as those words and the text. */
  lemma ScriptLineIsReadBack(command: seq<Text>, s: Text, t: Text)
    requires (forall w :: w in command ==> IsPlainWord(w)) && IsAfterWord(t) && Words(t).Some?
    ensures Words(Command(command) + (Quote(s) + t)) == Some(command + ([s] + Words(t).value))
  {
    LineStartsWithWord(s, t);
    CommandIsRead(command, Quote(s) + t);
  }

  lemma ToolsCommandIsPlain()
    ensures IsPlainWord("mcpshim") && IsPlainWord("tools") && IsPlainWord("--server")
  {
    assert forall c: Byte | c == '-' || 'a' <= c <= 'z' :: IsPlain(c);
  }

  /** The command that lists a server's tools, up to the newline or semicolon behind it. */
  lemma ToolsLineIsReadBack(server: Text, t: Text)
    requires t != [] && EndsCommand(t[0])
    ensures Words(Command(["mcpshim", "tools", "--server"]) + (Quote(server) + t)) ==
            Some(["mcpshim", "tools", "--server", server])
  {
    var command: seq<Text> := ["mcpshim", "tools", "--server"];
    ToolsCommandIsPlain();
    ScriptLineIsReadBack(command, server, t);
    assert command + ([server] + []) == ["mcpshim", "tools", "--server", server];
  }
}
