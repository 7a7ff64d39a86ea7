/** shell_quote against the quoting rules of the POSIX Shell Command Language, section 2.2. */
module Shell {
  import opened Wrappers

  // ---- Quoting ---------------------------------------------------------------------------

  /** A single quote leaves the quotes, comes back between double quotes, and opens them again. */
  const QUOTED_QUOTE := "'\"'\"'"

  function Escape(v: string): string {
    if v == [] then []
    else (if v[0] == '\'' then QUOTED_QUOTE else [v[0]]) + Escape(v[1..])
  }

  function ShellQuote(v: string): string {
    "'" + Escape(v) + "'"
  }

  // ---- Reading words ---------------------------------------------------------------------

  /** How the next character is quoted: not at all, by single quotes, or by double quotes. */
  datatype Quoting = Bare | Single | Double

  /** Blanks, newline and the characters of operators end an unquoted word. */
  predicate EndsWord(c: char) {
    c in {' ', '\t', '\n', ';', '&', '|', '<', '>', '(', ')'}
  }

  /** Unquoted characters with a meaning of their own besides ending a word or quoting. */
  predicate Special(c: char) {
    c in {'$', '`', '*', '?', '[', '#', '~', '=', '%'}
  }

  predicate EscapableInDouble(c: char) {
    c in {'$', '`', '"', '\\'}
  }

  datatype Word = Word(text: string, rest: string)

  /** The literal word at the front of input; started says that some of it has been read. None for no
      word, an unclosed quote, a NUL, or anything that the shell would expand. */
  function ReadWord(input: string, quoting: Quoting, started: bool, text: string): (r: Option<Word>)
    ensures r.Some? ==> |r.value.rest| <= |input|
    decreases |input|
  {
    if input == [] then if quoting.Bare? && started then Some(Word(text, [])) else None
    else
      var c, rest := input[0], input[1..];
      if c == '\0' then None
      else
        match quoting
        case Single =>
          if c == '\'' then ReadWord(rest, Bare, true, text) else ReadWord(rest, Single, true, text + [c])
        case Double =>
          if c == '"' then ReadWord(rest, Bare, true, text)
          else if c == '$' || c == '`' then None
          else if c == '\\' && rest != [] && EscapableInDouble(rest[0]) then ReadWord(rest[1..], Double, true, text + [rest[0]])
          else if c == '\\' && rest != [] && rest[0] == '\n' then ReadWord(rest[1..], Double, true, text)
          else ReadWord(rest, Double, true, text + [c])
        case Bare =>
          if EndsWord(c) then if started then Some(Word(text, input)) else None
          else if c == '\'' then ReadWord(rest, Single, true, text)
          else if c == '"' then ReadWord(rest, Double, true, text)
          else if c == '\\' then
            if rest == [] || rest[0] == '\0' then None
            else if rest[0] == '\n' then ReadWord(rest[1..], Bare, started, text)
            else ReadWord(rest[1..], Bare, true, text + [rest[0]])
          else if Special(c) then None
          else ReadWord(rest, Bare, true, text + [c])
  }

  /** What may follow a word: nothing, or something that ends it. */
  predicate EndsHere(tail: string) {
    tail == [] || EndsWord(tail[0])
  }

  lemma QuoteInside(rest: string, text: string)
    ensures ReadWord(QUOTED_QUOTE + rest, Single, true, text) == ReadWord(rest, Single, true, text + ['\''])
  {
    var r4 := "'" + rest;
    var r3, r2, r1 := "\"" + r4, "'\"" + r4, "\"'\"" + r4;
    assert QUOTED_QUOTE + rest == "'" + r1 && ("'" + r1)[1..] == r1;
    assert r1[1..] == r2 && r2[1..] == r3 && r3[1..] == r4 && r4[1..] == rest;
    assert ReadWord("'" + r1, Single, true, text) == ReadWord(r1, Bare, true, text);
    assert ReadWord(r1, Bare, true, text) == ReadWord(r2, Double, true, text);
    assert ReadWord(r2, Double, true, text) == ReadWord(r3, Double, true, text + ['\'']);
    assert ReadWord(r3, Double, true, text + ['\'']) == ReadWord(r4, Bare, true, text + ['\'']);
  }

  lemma PlainInside(c: char, rest: string, text: string)
    requires c != '\'' && c != '\0'
    ensures ReadWord([c] + rest, Single, true, text) == ReadWord(rest, Single, true, text + [c])
  {
    assert ([c] + rest)[1..] == rest;
  }

  lemma NulInside(rest: string, text: string)
    ensures ReadWord(['\0'] + rest, Single, true, text) == None
  {
  }

  lemma ClosingQuote(tail: string, text: string)
    requires EndsHere(tail)
    ensures ReadWord("'" + tail, Single, true, text) == Some(Word(text, tail))
  {
    assert ("'" + tail)[1..] == tail;
  }

  lemma {:induction false} EscapedReadsBack(v: string, tail: string, text: string)
    requires EndsHere(tail)
    ensures ReadWord(Escape(v) + "'" + tail, Single, true, text)
            == if '\0' in v then None else Some(Word(text + v, tail))
  {
    hide ReadWord;
    if v == [] {
      ClosingQuote(tail, text);
      assert Escape(v) + "'" + tail == "'" + tail;
      assert text + v == text;
    } else {
      var rest := Escape(v[1..]) + "'" + tail;
      EscapedReadsBack(v[1..], tail, text + [v[0]]);
      assert text + [v[0]] + v[1..] == text + v;
      assert '\0' in v <==> v[0] == '\0' || '\0' in v[1..];
      if v[0] == '\'' {
        assert Escape(v) + "'" + tail == QUOTED_QUOTE + rest;
        QuoteInside(rest, text);
      } else {
        assert Escape(v) + "'" + tail == [v[0]] + rest;
        if v[0] == '\0' {
          NulInside(rest, text);
        } else {
          PlainInside(v[0], rest, text);
        }
      }
    }
  }

  lemma QuotedReads(v: string, tail: string)
    requires EndsHere(tail)
    ensures ReadWord(ShellQuote(v) + tail, Bare, false, []) == if '\0' in v then None else Some(Word(v, tail))
  {
    assert ShellQuote(v) + tail == ['\''] + (Escape(v) + "'" + tail);
    assert (ShellQuote(v) + tail)[1..] == Escape(v) + "'" + tail;
    EscapedReadsBack(v, tail, []);
    assert [] + v == v;
  }

  /** The shell reads shell_quote(v) as the one word v, at the end of a command or before anything that
      ends a word, exactly when v holds no NUL. */
  lemma QuotedReadsBack(v: string, tail: string)
    requires EndsHere(tail)
    ensures ReadWord(ShellQuote(v) + tail, Bare, false, []) == Some(Word(v, tail)) <==> '\0' !in v
  {
    hide ReadWord, ShellQuote;
    QuotedReads(v, tail);
  }

  // ---- Cleaning up remote files ------------------------------------------------------------

  const PROLOGUE := "set -eu;"
  const UNLINK := " unlink "
  const SILENTLY := " 2>/dev/null || true;"

  predicate StartsWith(s: string, prefix: string) {
    |prefix| <= |s| && s[..|prefix|] == prefix
  }

  /** unlink would take this word for an option; a lone hyphen is an operand. */
  predicate IsOption(word: string) {
    |word| > 1 && word[0] == '-'
  }

  /** The operands of a list of silent unlink commands, as the shell and unlink read them; None when something else
      stands there. */
  function UnlinkOperands(commands: string): Option<seq<string>>
    decreases |commands|
  {
    if commands == [] then Some([])
    else if !StartsWith(commands, " unlink ") then None
    else
      var word := ReadWord(commands[|" unlink "|..], Bare, false, []);
      if word.None? || IsOption(word.value.text) || !StartsWith(word.value.rest, " 2>/dev/null || true;") then None
      else
        var others := UnlinkOperands(word.value.rest[|" 2>/dev/null || true;"|..]);
        if others.None? then None else Some([word.value.text] + others.value)
  }

  /** The files that a cleanup script unlinks. */
  function Unlinked(script: string): Option<seq<string>> {
    if StartsWith(script, "set -eu;") then UnlinkOperands(script[|"set -eu;"|..]) else None
  }

  /** What cleanup_remote_temp appends for one path. */
  function UnlinkCommand(path: string): string {
    UNLINK + (ShellQuote(path) + SILENTLY)
  }

  function UnlinkCommands(paths: seq<string>): string {
    if paths == [] then [] else UnlinkCommand(paths[0]) + UnlinkCommands(paths[1..])
  }

  lemma SplitPrefix(prefix: string, rest: string)
    ensures StartsWith(prefix + rest, prefix) && (prefix + rest)[|prefix|..] == rest
  {
  }

  lemma SilentlyEndsWord(more: string)
    ensures EndsHere(SILENTLY + more) && SILENTLY + more != []
  {
    assert (SILENTLY + more)[0] == ' ';
  }

  /** The path can be given to unlink as it is. */
  predicate Plain(path: string) {
    '\0' !in path && !IsOption(path)
  }

  lemma FirstOperand(path: string, more: string)
    ensures UnlinkOperands(UnlinkCommand(path) + more)
            == if !Plain(path) || UnlinkOperands(more).None? then None else Some([path] + UnlinkOperands(more).value)
  {
    hide ReadWord, ShellQuote, StartsWith, Escape;
    var tail := SILENTLY + more;
    var word := ShellQuote(path) + tail;
    assert UnlinkCommand(path) + more == UNLINK + word;
    SplitPrefix(UNLINK, word);
    SilentlyEndsWord(more);
    QuotedReads(path, tail);
    SplitPrefix(SILENTLY, more);
  }

  lemma {:induction false} OperandsReadBack(paths: seq<string>)
    ensures UnlinkOperands(UnlinkCommands(paths)) == if forall path :: path in paths ==> Plain(path) then Some(paths) else None
  {
    hide UnlinkOperands, UnlinkCommand, Plain;
    if paths == [] {
      NoOperands();
    } else {
      OperandsReadBack(paths[1..]);
      FirstOperand(paths[0], UnlinkCommands(paths[1..]));
      assert [paths[0]] + paths[1..] == paths;
      assert forall path :: path in paths <==> path == paths[0] || path in paths[1..];
    }
  }

  lemma NoOperands()
    ensures UnlinkOperands([]) == Some([])
  {
  }

  lemma {:induction false} CommandsAppend(paths: seq<string>, path: string)
    ensures UnlinkCommands(paths + [path]) == UnlinkCommands(paths) + UnlinkCommand(path)
  {
    hide UnlinkCommand;
    if paths == [] {
      assert (paths + [path])[1..] == [];
      assert UnlinkCommands([]) == [];
    } else {
      assert (paths + [path])[1..] == paths[1..] + [path];
      CommandsAppend(paths[1..], path);
    }
  }

  lemma AppendedCommand(script: string, path: string)
    ensures script + UNLINK + ShellQuote(path) + SILENTLY == script + UnlinkCommand(path)
  {
    hide ShellQuote;
  }

  /** cleanup_remote_temp: the script it sends unlinks exactly the given paths, in order, exactly when none of them
      holds a NUL or looks like an option. */
  method CleanupRemoteTemp(paths: seq<string>) returns (script: string)
    ensures Unlinked(script) == Some(paths) <==> forall path :: path in paths ==> Plain(path)
  {
    hide UnlinkOperands, ShellQuote, StartsWith, UnlinkCommand, Plain;
    script := PROLOGUE;
    var i := 0;
    while i < |paths|
      invariant 0 <= i <= |paths|
      invariant script == PROLOGUE + UnlinkCommands(paths[..i])
    {
      CommandsAppend(paths[..i], paths[i]);
      AppendedCommand(script, paths[i]);
      assert paths[..i] + [paths[i]] == paths[..i + 1];
      script := script + UNLINK;
      script := script + ShellQuote(paths[i]);
      script := script + SILENTLY;
      i := i + 1;
    }
    assert paths[..i] == paths;
    OperandsReadBack(paths);
    SplitPrefix(PROLOGUE, UnlinkCommands(paths));
  }
}
