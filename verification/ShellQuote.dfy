/** `blue exec` builds one shell command line from positional arguments; the shell must split it
    back into exactly those arguments (server/cmd/blue/exec.go, non-Windows branches). */
module ShellQuote {

  // ---------------------------------------------------------------------------------------
  // The shell's side: tokens and quote removal
  // ---------------------------------------------------------------------------------------

  datatype Reason =
    | Unterminated       // a quote or a backslash that is never completed
    | CommandEnd         // an unquoted newline
    | Operator           // a control or redirection operator
    | Expansion          // a parameter, command, arithmetic or tilde expansion, or a pattern

  datatype Words = Split(words: seq<string>) | Refused(reason: Reason) {
    function Before(word: string): Words {
      if Split? then Split([word] + words) else this
    }
  }

  predicate IsBlank(c: char) {
    c == ' ' || c == '\t'
  }

  predicate IsOperator(c: char) {
    c in {'|', '&', ';', '<', '>', '(', ')'}
  }

  predicate StartsExpansion(c: char) {
    c in {'$', '`', '~', '*', '?', '[', ']', '{', '}', '!'}
  }

  /** The words of one simple command after quote removal: IEEE Std 1003.1-2017, XCU 2.2.1 to 2.2.3
      and 2.3. `word` is the word being read, if one has begun. Everything that would make the shell
      do more than split and unquote is refused rather than interpreted. */
  function Unquoted(s: string, word: seq<string>): Words
    requires |word| <= 1
    decreases |s|
  {
    if s == "" then Split(word)
    else
      var c, rest, text := s[0], s[1..], if word == [] then "" else word[0];
      if IsBlank(c) then (if word == [] then Unquoted(rest, []) else Unquoted(rest, []).Before(text))
      else if c == '\'' then SingleQuoted(rest, text)
      else if c == '"' then DoubleQuoted(rest, text)
      else if c == '\\' then
        if rest == "" then Refused(Unterminated)
        else if rest[0] == '\n' then Unquoted(rest[1..], word)
        else Unquoted(rest[1..], [text + [rest[0]]])
      else if c == '\n' then Refused(CommandEnd)
      else if IsOperator(c) then Refused(Operator)
      else if StartsExpansion(c) then Refused(Expansion)
      else if c == '#' && word == [] then Comment(rest)
      else Unquoted(rest, [text + [c]])
  }

  /** Inside single quotes every character stands for itself. */
  function SingleQuoted(s: string, text: string): Words
    decreases |s|
  {
    if s == "" then Refused(Unterminated)
    else if s[0] == '\'' then Unquoted(s[1..], [text])
    else SingleQuoted(s[1..], text + [s[0]])
  }

  /** Inside double quotes `$` and backquote expand and a backslash escapes only five characters. */
  function DoubleQuoted(s: string, text: string): Words
    decreases |s|
  {
    if s == "" then Refused(Unterminated)
    else if s[0] == '"' then Unquoted(s[1..], [text])
    else if s[0] == '$' || s[0] == '`' then Refused(Expansion)
    else if s[0] == '\\' && |s| > 1 && s[1] in {'$', '`', '"', '\\'} then DoubleQuoted(s[2..], text + [s[1]])
    else if s[0] == '\\' && |s| > 1 && s[1] == '\n' then DoubleQuoted(s[2..], text)
    else DoubleQuoted(s[1..], text + [s[0]])
  }

  /** A comment runs to the end of the line. */
  function Comment(s: string): Words
    decreases |s|
  {
    if s == "" then Split([])
    else if s[0] == '\n' then Refused(CommandEnd)
    else Comment(s[1..])
  }

  function ShellWords(command: string): Words {
    Unquoted(command, [])
  }

  /** Outside quotes these characters never stand for themselves: operators and a line break end the
      command, the others expand, and a number sign at the beginning of a word hides the rest. */
  lemma SpecialsOutside(c: char, rest: string, word: seq<string>)
    requires |word| <= 1
    ensures c in {'|', '&', ';', '<', '>', '(', ')'} ==> Unquoted([c] + rest, word) == Refused(Operator)
    ensures c in {'$', '`', '~', '*', '?', '[', ']', '{', '}', '!'} ==> Unquoted([c] + rest, word) == Refused(Expansion)
    ensures c == '\n' ==> Unquoted([c] + rest, word) == Refused(CommandEnd)
    ensures c == '#' && word == [] ==> Unquoted([c] + rest, word) == Comment(rest)
    ensures c in {' ', '\t'} ==>
              Unquoted([c] + rest, word) == if word == [] then Unquoted(rest, [])
                                            else Unquoted(rest, []).Before(word[0])
  {
    hide SingleQuoted, DoubleQuoted, Comment;
    assert ([c] + rest)[0] == c && ([c] + rest)[1..] == rest;
  }

  /** Inside quotes a character stands for itself up to the closing quote, except for the two that
      expand and the backslash inside double quotes. */
  lemma CharacterInside(c: char, rest: string, text: string)
    ensures c != '\'' ==> SingleQuoted([c] + rest, text) == SingleQuoted(rest, text + [c])
    ensures SingleQuoted("'" + rest, text) == Unquoted(rest, [text])
    ensures c !in {'"', '$', '`', '\\'} ==> DoubleQuoted([c] + rest, text) == DoubleQuoted(rest, text + [c])
    ensures DoubleQuoted("\"" + rest, text) == Unquoted(rest, [text])
    ensures c in {'$', '`'} ==> DoubleQuoted([c] + rest, text) == Refused(Expansion)
    ensures SingleQuoted("", text) == Refused(Unterminated) && DoubleQuoted("", text) == Refused(Unterminated)
  {
    hide Unquoted;
    assert ([c] + rest)[0] == c && ([c] + rest)[1..] == rest;
    assert ("'" + rest)[1..] == rest && ("\"" + rest)[1..] == rest;
  }

  // ---------------------------------------------------------------------------------------
  // The program's side: quoting
  // ---------------------------------------------------------------------------------------

  predicate IsSimpleChar(c: char) {
    'a' <= c <= 'z' || 'A' <= c <= 'Z' || '0' <= c <= '9' || c in "._/:=-+"
  }

  lemma SimpleChars(c: char)
    ensures IsSimpleChar(c) <==>
            'a' <= c <= 'z' || 'A' <= c <= 'Z' || '0' <= c <= '9' || c in {'.', '_', '/', ':', '=', '-', '+'}
  {
    var others := "._/:=-+";
    assert others[0] == '.' && others[1] == '_' && others[2] == '/' && others[3] == ':' && others[4] == '='
        && others[5] == '-' && others[6] == '+' && |others| == 7;
  }

  method IsSimpleToken(arg: string) returns (simple: bool)
    ensures simple <==> forall i | 0 <= i < |arg| :: IsSimpleChar(arg[i])
    ensures simple <==> forall c | c in arg ::
              'a' <= c <= 'z' || 'A' <= c <= 'Z' || '0' <= c <= '9' || c in {'.', '_', '/', ':', '=', '-', '+'}
  {
    forall c ensures IsSimpleChar(c) <==>
      'a' <= c <= 'z' || 'A' <= c <= 'Z' || '0' <= c <= '9' || c in {'.', '_', '/', ':', '=', '-', '+'}
    {
      SimpleChars(c);
    }
    hide IsSimpleChar;
    for i := 0 to |arg|
      invariant forall j | 0 <= j < i :: IsSimpleChar(arg[j])
    {
      if !IsSimpleChar(arg[i]) {
        assert arg[i] in arg;
        return false;
      }
    }
    return true;
  }

  /** `strings.ReplaceAll(s, "'", r)` for the replacement used here. */
  function EscapeQuotes(s: string): string {
    if s == "" then ""
    else (if s[0] == '\'' then "'\"'\"'" else [s[0]]) + EscapeQuotes(s[1..])
  }

  function Quoted(arg: string): string {
    if arg == "" then "''"
    else if forall i | 0 <= i < |arg| :: IsSimpleChar(arg[i]) then arg
    else "'" + EscapeQuotes(arg) + "'"
  }

  method QuotePositionalArg(arg: string) returns (text: string)
    ensures text == Quoted(arg)
  {
    if arg == "" {
      return "''";
    }
    var simple := IsSimpleToken(arg);
    if simple {
      return arg;
    }
    return "'" + EscapeQuotes(arg) + "'";
  }

  function CommandLine(args: seq<string>): string {
    if args == [] then ""
    else if |args| == 1 then Quoted(args[0])
    else Quoted(args[0]) + " " + CommandLine(args[1..])
  }

  /** The command line a list of arguments is sent as. */
  method BuildCommand(args: seq<string>) returns (command: string)
    ensures command == CommandLine(args)
    ensures ShellWords(command) == Split(args)
  {
    hide Unquoted, Quoted;
    SplitsBack(args);
    if |args| == 0 {
      return "";
    }
    var quoted: seq<string> := [];
    for i := 0 to |args|
      invariant |quoted| == i && forall j | 0 <= j < i :: quoted[j] == Quoted(args[j])
    {
      var q := QuotePositionalArg(args[i]);
      quoted := quoted + [q];
    }
    command := JoinSpaces(quoted);
    JoinIsCommandLine(quoted, args);
  }

  /** `strings.Join(parts, " ")`. */
  function JoinSpaces(parts: seq<string>): string
    requires parts != []
  {
    if |parts| == 1 then parts[0] else parts[0] + " " + JoinSpaces(parts[1..])
  }

  lemma {:induction false} JoinIsCommandLine(quoted: seq<string>, args: seq<string>)
    requires |quoted| == |args| > 0 && forall j | 0 <= j < |args| :: quoted[j] == Quoted(args[j])
    ensures JoinSpaces(quoted) == CommandLine(args)
  {
    if |args| > 1 {
      JoinIsCommandLine(quoted[1..], args[1..]);
    }
  }

  // ---------------------------------------------------------------------------------------
  // Round trip
  // ---------------------------------------------------------------------------------------

  lemma {:induction false} ReadSimple(arg: string, rest: string, text: string)
    requires forall i | 0 <= i < |arg| :: IsSimpleChar(arg[i])
    ensures Unquoted(arg + rest, [text]) == Unquoted(rest, [text + arg])
    decreases |arg|
  {
    if arg == "" {
      assert arg + rest == rest && text + arg == text;
    } else {
      assert (arg + rest)[1..] == arg[1..] + rest;
      ReadSimple(arg[1..], rest, text + [arg[0]]);
      assert text + [arg[0]] + arg[1..] == text + arg;
    }
  }

  /** A quote inside a quoted argument leaves the quotes, reads `"'"` and enters them again. */
  lemma ReadEscapedQuote(rest: string, text: string)
    ensures SingleQuoted("'\"'\"'" + rest, text) == SingleQuoted(rest, text + "'")
  {
    var s := "'\"'\"'" + rest;
    assert s[1..] == "\"'\"'" + rest;
    assert s[1..][1..] == "'\"'" + rest;
    assert s[1..][1..][1..] == "\"'" + rest;
    assert s[1..][1..][1..][1..] == "'" + rest;
    assert s[1..][1..][1..][1..][1..] == rest;
    calc {
      SingleQuoted(s, text);
      Unquoted("\"'\"'" + rest, [text]);
      DoubleQuoted("'\"'" + rest, text);
      DoubleQuoted("\"'" + rest, text + "'");
      Unquoted("'" + rest, [text + "'"]);
      SingleQuoted(rest, text + "'");
    }
  }

  lemma {:induction false} ReadQuoted(arg: string, rest: string, text: string)
    ensures SingleQuoted(EscapeQuotes(arg) + "'" + rest, text) == Unquoted(rest, [text + arg])
    decreases |arg|
  {
    if arg == "" {
      assert EscapeQuotes(arg) + "'" + rest == "'" + rest && ("'" + rest)[1..] == rest && text + arg == text;
    } else {
      var tail := EscapeQuotes(arg[1..]) + "'" + rest;
      ReadQuoted(arg[1..], rest, text + [arg[0]]);
      assert text + [arg[0]] + arg[1..] == text + arg;
      if arg[0] == '\'' {
        assert EscapeQuotes(arg) + "'" + rest == "'\"'\"'" + tail;
        ReadEscapedQuote(tail, text);
        assert text + "'" == text + [arg[0]];
      } else {
        assert EscapeQuotes(arg) + "'" + rest == [arg[0]] + tail;
        assert ([arg[0]] + tail)[1..] == tail;
      }
    }
  }

  lemma ReadFirst(c: char, rest: string)
    requires IsSimpleChar(c)
    ensures Unquoted([c] + rest, []) == Unquoted(rest, [[c]])
  {
    assert ([c] + rest)[1..] == rest;
    assert "" + [c] == [c];
  }

  lemma ReadBare(arg: string, rest: string)
    requires arg != "" && forall i | 0 <= i < |arg| :: IsSimpleChar(arg[i])
    ensures Unquoted(arg + rest, []) == Unquoted(rest, [arg])
  {
    hide Unquoted, IsSimpleChar;
    assert arg + rest == [arg[0]] + (arg[1..] + rest);
    ReadFirst(arg[0], arg[1..] + rest);
    ReadSimple(arg[1..], rest, [arg[0]]);
    assert [arg[0]] + arg[1..] == arg;
  }

  lemma OpenQuote(s: string)
    ensures Unquoted("'" + s, []) == SingleQuoted(s, "")
  {
    assert ("'" + s)[1..] == s;
  }

  lemma ReadBetweenQuotes(arg: string, rest: string)
    ensures Unquoted("'" + EscapeQuotes(arg) + "'" + rest, []) == Unquoted(rest, [arg])
  {
    hide Unquoted, SingleQuoted, EscapeQuotes;
    var inner := EscapeQuotes(arg) + "'" + rest;
    assert "'" + EscapeQuotes(arg) + "'" + rest == "'" + inner;
    OpenQuote(inner);
    ReadQuoted(arg, rest, "");
    assert "" + arg == arg;
  }

  /** One quoted argument is read as one word, whatever follows it. */
  lemma ReadArgument(arg: string, rest: string)
    ensures Unquoted(Quoted(arg) + rest, []) == Unquoted(rest, [arg])
  {
    hide Unquoted, SingleQuoted, IsSimpleChar;
    ReadBetweenQuotes(arg, rest);
    if arg == "" {
      assert Quoted(arg) == "'" + EscapeQuotes(arg) + "'";
    } else if forall i | 0 <= i < |arg| :: IsSimpleChar(arg[i]) {
      ReadBare(arg, rest);
    }
  }

  /** The shell sees exactly the arguments: none lost, merged, split, expanded or taken for an
      operator, for every list of arguments. */
  lemma {:induction false} SplitsBack(args: seq<string>)
    ensures ShellWords(CommandLine(args)) == Split(args)
  {
    if |args| == 1 {
      ReadArgument(args[0], "");
      assert Quoted(args[0]) + "" == Quoted(args[0]);
    } else if |args| > 1 {
      var rest := " " + CommandLine(args[1..]);
      ReadArgument(args[0], rest);
      assert rest[1..] == CommandLine(args[1..]);
      SplitsBack(args[1..]);
      assert CommandLine(args) == Quoted(args[0]) + rest;
      assert args == [args[0]] + args[1..];
    }
  }

  /** Different argument lists are never sent as the same command line. */
  lemma CommandLineInjective(args: seq<string>, others: seq<string>)
    requires CommandLine(args) == CommandLine(others)
    ensures args == others
  {
    SplitsBack(args);
    SplitsBack(others);
  }

  // ---------------------------------------------------------------------------------------
  // What the shell does with the first word
  // ---------------------------------------------------------------------------------------

  /** XCU 2.4. */
  predicate IsReserved(token: string) {
    token in {"!", "{", "}", "case", "do", "done", "elif", "else", "esac", "fi", "for", "if", "in", "then",
              "until", "while"}
  }

  predicate IsName(s: string) {
    && s != "" && !('0' <= s[0] <= '9')
    && forall i | 0 <= i < |s| :: 'a' <= s[i] <= 'z' || 'A' <= s[i] <= 'Z' || '0' <= s[i] <= '9' || s[i] == '_'
  }

  /** XCU 2.10.2, rule 7: a name and an equals sign, all unquoted, begin the token. */
  predicate IsAssignment(token: string) {
    exists i :: 0 < i < |token| && token[i] == '=' && IsName(token[..i])
  }

  /** The token, still quoted, of the first word is the command's name and not syntax. */
  predicate NamesCommand(token: string) {
    !IsReserved(token) && !IsAssignment(token)
  }

  /** Quoting protects the first argument from being read as a reserved word or an assignment exactly
      unless it consists of plain characters, which are printed bare, and is one. */
  lemma FirstWordNamesCommand(arg: string)
    ensures NamesCommand(Quoted(arg)) <==>
            arg == "" || (exists i :: 0 <= i < |arg| && !IsSimpleChar(arg[i])) || NamesCommand(arg)
  {
    if arg == "" || exists i :: 0 <= i < |arg| && !IsSimpleChar(arg[i]) {
      var token := Quoted(arg);
      assert token[0] == '\'';
      forall i | 0 < i < |token| ensures !IsName(token[..i]) {
        assert token[..i][0] == '\'';
      }
    }
  }

  /** The exception exists: the argument sets a variable instead of naming a command. */
  lemma BareAssignment()
    ensures Quoted("FOO=bar") == "FOO=bar" && !NamesCommand("FOO=bar")
  {
    var token := "FOO=bar";
    assert token[..3] == "FOO" && token[3] == '=';
  }
}
