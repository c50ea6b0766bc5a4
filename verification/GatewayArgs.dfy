/** The words a gateway supervisor prints for its worker (server/cmd/blue/gateway_daemon_unix.go) and
    how the worker's command line dispatch reads them (server/cmd/blue/cli_dispatch.go). */
module GatewayArgs {
  import opened Text

  datatype Globals = Globals(cfgFile: string, profile: string, devMode: bool, verbose: bool, noColor: bool,
                             disableIntercepts: bool, jsonOutput: bool)

  /** The overrides as given; both texts are used trimmed, and a port of 0 or less is none. */
  datatype Overrides = Overrides(port: int, bind: string, auditDb: string)

  const UNSET: Globals := Globals("", "", false, false, false, false, false)

  // ---------------------------------------------------------------------------------------
  // Printing
  // ---------------------------------------------------------------------------------------

  function Valued(name: string, value: string): seq<string> {
    if value != "" then [name, value] else []
  }

  function Switch(name: string, on: bool): seq<string> {
    if on then [name] else []
  }

  function Flags(g: Globals): seq<string> {
    Valued("--config", g.cfgFile) + Switch("--dev", g.devMode) + Valued("--profile", g.profile)
    + Switch("--verbose", g.verbose) + Switch("--no-color", g.noColor)
  }

  /** The printed overrides. */
  function OverrideWords(o: Overrides): seq<string> {
    (if o.port > 0 then ["--port", IntText(o.port)] else [])
    + Valued("--bind", Trim(o.bind)) + Valued("--session-audit-db", Trim(o.auditDb))
  }

  /** Neither the bind address nor the audit path is itself a global flag. */
  predicate PlainOverrides(o: Overrides) {
    !IsGlobalFlag(Trim(o.bind)) && !IsGlobalFlag(Trim(o.auditDb))
  }

  /** Whatever words are put behind the printed ones, reading starts with the settings restored and the
      overrides as positionals, exactly if the overrides are plain. */
  method GlobalArgs(g: Globals, o: Overrides) returns (args: seq<string>)
    ensures args == Flags(g) + OverrideWords(o)
    ensures PlainOverrides(o) ==>
              forall rest :: Parse(args + rest, UNSET, []) == Parse(rest, Carried(g), OverrideWords(o))
    ensures Parse(args, UNSET, []) == Parsed(Carried(g), OverrideWords(o)) <==> PlainOverrides(o)
  {
    args := FlagArgs(g);
    hide Flags, Trim, Parse, IsGlobalFlag;
    var words := [];
    if o.port > 0 {
      words := words + ["--port", IntText(o.port)];
    }
    if Trim(o.bind) != "" {
      words := words + ["--bind", Trim(o.bind)];
    }
    if Trim(o.auditDb) != "" {
      words := words + ["--session-audit-db", Trim(o.auditDb)];
    }
    args := args + words;
    assert words == OverrideWords(o);
    hide OverrideWords;
    PrintedReadsBack(g, o, []);
    assert OverrideWords(o) + [] == OverrideWords(o);
    if PlainOverrides(o) {
      forall rest ensures Parse(args + rest, UNSET, []) == Parse(rest, Carried(g), OverrideWords(o)) {
        assert args == Flags(g) + OverrideWords(o);
        PrintedThenRest(g, o, rest);
      }
    }
  }

  method FlagArgs(g: Globals) returns (args: seq<string>)
    ensures args == Flags(g)
  {
    args := [];
    if g.cfgFile != "" {
      args := args + ["--config", g.cfgFile];
    }
    if g.devMode {
      args := args + ["--dev"];
    }
    assert args == Valued("--config", g.cfgFile) + Switch("--dev", g.devMode);
    if g.profile != "" {
      args := args + ["--profile", g.profile];
    }
    assert args == Valued("--config", g.cfgFile) + Switch("--dev", g.devMode) + Valued("--profile", g.profile);
    if g.verbose {
      args := args + ["--verbose"];
    }
    if g.noColor {
      args := args + ["--no-color"];
    }
  }

  /** The worker reads back the supervisor's settings exactly if the overrides are plain. */
  method WorkerArgs(g: Globals, o: Overrides) returns (args: seq<string>)
    ensures Parse(args, UNSET, []) == Parsed(Carried(g), OverrideWords(o) + ["gateway", "run"]) <==> PlainOverrides(o)
    ensures args == Flags(g) + (OverrideWords(o) + ["gateway", "run"])
  {
    hide Flags, OverrideWords, Trim, Parse, IsGlobalFlag;
    args := GlobalArgs(g, o);
    args := args + ["gateway", "run"];
    WorkerReadsBack(g, o, "run");
    assert args == Flags(g) + (OverrideWords(o) + ["gateway", "run"]);
  }

  /** So does the supervisor that is started in the background. */
  method SupervisorArgs(g: Globals, o: Overrides) returns (args: seq<string>)
    ensures Parse(args, UNSET, []) == Parsed(Carried(g), OverrideWords(o) + ["gateway", "supervise"])
            <==> PlainOverrides(o)
    ensures args == Flags(g) + (OverrideWords(o) + ["gateway", "supervise"])
  {
    hide Flags, OverrideWords, Trim, Parse, IsGlobalFlag;
    args := GlobalArgs(g, o);
    args := args + ["gateway", "supervise"];
    WorkerReadsBack(g, o, "supervise");
    assert args == Flags(g) + (OverrideWords(o) + ["gateway", "supervise"]);
  }

  // ---------------------------------------------------------------------------------------
  // Reading
  // ---------------------------------------------------------------------------------------

  datatype Parsed = Help | Parsed(globals: Globals, positional: seq<string>)

  predicate IsGlobalFlag(w: string) {
    w in ["-h", "--help", "--dev", "--no-color", "--no-intercept", "--json", "-v", "--verbose",
          "--config", "--profile", "--"]
  }

  function Parse(args: seq<string>, g: Globals, pos: seq<string>): Parsed
    decreases |args|
  {
    if args == [] then Parsed(g, pos)
    else
      var w, rest := args[0], args[1..];
      if w == "-h" || w == "--help" then Help
      else if w == "--dev" then Parse(rest, g.(devMode := true), pos)
      else if w == "--no-color" then Parse(rest, g.(noColor := true), pos)
      else if w == "--no-intercept" then Parse(rest, g.(disableIntercepts := true), pos)
      else if w == "--json" then Parse(rest, g.(jsonOutput := true), pos)
      else if w == "-v" || w == "--verbose" then Parse(rest, g.(verbose := true), pos)
      else if w == "--config" then
        if rest == [] then Parse(rest, g, pos) else Parse(rest[1..], g.(cfgFile := rest[0]), pos)
      else if w == "--profile" then
        if rest == [] then Parse(rest, g, pos) else Parse(rest[1..], g.(profile := rest[0]), pos)
      else if w == "--" then Parsed(g, pos + rest)
      else Parse(rest, g, pos + [w])
  }

  /** The index loop of `cliDispatch` over the global variables. */
  method ParseGlobals(args: seq<string>, start: Globals) returns (r: Parsed)
    ensures r == Parse(args, start, [])
  {
    var g, positional := start, [];
    var i := 0;
    while i < |args|
      invariant 0 <= i <= |args|
      invariant Parse(args, start, []) == Parse(args[i..], g, positional)
    {
      var w := args[i];
      assert args[i..][0] == w && args[i..][1..] == args[i + 1..];
      assert i + 1 < |args| ==> args[i + 1..][0] == args[i + 1] && args[i + 1..][1..] == args[i + 2..];
      if w == "-h" || w == "--help" {
        return Help;
      } else if w == "--dev" {
        g := g.(devMode := true);
      } else if w == "--no-color" {
        g := g.(noColor := true);
      } else if w == "--no-intercept" {
        g := g.(disableIntercepts := true);
      } else if w == "--json" {
        g := g.(jsonOutput := true);
      } else if w == "-v" || w == "--verbose" {
        g := g.(verbose := true);
      } else if w == "--config" {
        if i + 1 < |args| {
          i := i + 1;
          g := g.(cfgFile := args[i]);
        }
      } else if w == "--profile" {
        if i + 1 < |args| {
          i := i + 1;
          g := g.(profile := args[i]);
        }
      } else if w == "--" {
        return Parsed(g, positional + args[i + 1..]);
      } else {
        positional := positional + [w];
      }
      i := i + 1;
    }
    return Parsed(g, positional);
  }

  // ---------------------------------------------------------------------------------------
  // Round trip
  // ---------------------------------------------------------------------------------------

  lemma {:induction false} PositionalBound(args: seq<string>, g: Globals, pos: seq<string>)
    ensures var r := Parse(args, g, pos); r.Parsed? ==> |r.positional| <= |pos| + |args|
    decreases |args|
  {
    if args != [] {
      var w, rest := args[0], args[1..];
      PositionalBound(rest, g.(devMode := true), pos);
      PositionalBound(rest, g.(noColor := true), pos);
      PositionalBound(rest, g.(disableIntercepts := true), pos);
      PositionalBound(rest, g.(jsonOutput := true), pos);
      PositionalBound(rest, g.(verbose := true), pos);
      PositionalBound(rest, g, pos);
      PositionalBound(rest, g, pos + [w]);
      if rest != [] {
        PositionalBound(rest[1..], g.(cfgFile := rest[0]), pos);
        PositionalBound(rest[1..], g.(profile := rest[0]), pos);
      }
    }
  }

  /** Words come through as positionals, all of them and nothing else, exactly when none of them is
      a global flag. */
  lemma {:induction false} WordsPassThrough(words: seq<string>, g: Globals, pos: seq<string>)
    ensures Parse(words, g, pos) == Parsed(g, pos + words) <==> forall w | w in words :: !IsGlobalFlag(w)
    decreases |words|
  {
    if words == [] {
      assert pos + words == pos;
    } else {
      var w, rest := words[0], words[1..];
      assert words == [w] + rest;
      if IsGlobalFlag(w) {
        FlagShortens(w, rest, g, pos);
      } else {
        WordsPassThrough(rest, g, pos + [w]);
        assert pos + [w] + rest == pos + words;
      }
    }
  }

  lemma FlagShortens(w: string, rest: seq<string>, g: Globals, pos: seq<string>)
    requires IsGlobalFlag(w)
    ensures var r := Parse([w] + rest, g, pos); r.Parsed? ==> |r.positional| <= |pos| + |rest|
  {
    assert ([w] + rest)[1..] == rest;
    PositionalBound(rest, g.(devMode := true), pos);
    PositionalBound(rest, g.(noColor := true), pos);
    PositionalBound(rest, g.(disableIntercepts := true), pos);
    PositionalBound(rest, g.(jsonOutput := true), pos);
    PositionalBound(rest, g.(verbose := true), pos);
    PositionalBound(rest, g, pos);
    if rest != [] {
      PositionalBound(rest[1..], g.(cfgFile := rest[0]), pos);
      PositionalBound(rest[1..], g.(profile := rest[0]), pos);
    }
  }

  /** The settings that are printed at all. */
  function Carried(g: Globals): Globals {
    g.(disableIntercepts := false, jsonOutput := false)
  }

  lemma ReadValued(name: string, value: string, rest: seq<string>, g: Globals, pos: seq<string>)
    requires (name == "--config" && g.cfgFile == "") || (name == "--profile" && g.profile == "")
    ensures Parse(Valued(name, value) + rest, g, pos)
         == Parse(rest, if name == "--config" then g.(cfgFile := value) else g.(profile := value), pos)
  {
    if value == "" {
      assert Valued(name, value) + rest == rest;
    } else {
      assert ([name, value] + rest)[1..] == [value] + rest;
      assert ([value] + rest)[1..] == rest;
    }
  }

  lemma ReadSwitch(name: string, on: bool, rest: seq<string>, g: Globals, pos: seq<string>)
    requires (name == "--dev" && !g.devMode) || (name == "--verbose" && !g.verbose)
             || (name == "--no-color" && !g.noColor)
    ensures Parse(Switch(name, on) + rest, g, pos)
         == Parse(rest,
                  if name == "--dev" then g.(devMode := on)
                  else if name == "--verbose" then g.(verbose := on)
                  else g.(noColor := on),
                  pos)
  {
    if on {
      assert ([name] + rest)[1..] == rest;
    } else {
      assert Switch(name, on) + rest == rest;
    }
  }

  lemma FlagsRead(g: Globals, rest: seq<string>)
    ensures Parse(Flags(g) + rest, UNSET, []) == Parse(rest, Carried(g), [])
  {
    hide Parse, Valued, Switch;
    var a, b, c := Valued("--config", g.cfgFile), Switch("--dev", g.devMode), Valued("--profile", g.profile);
    var d, e := Switch("--verbose", g.verbose), Switch("--no-color", g.noColor);
    var ga := UNSET.(cfgFile := g.cfgFile);
    var gb := ga.(devMode := g.devMode);
    var gc := gb.(profile := g.profile);
    var gd := gc.(verbose := g.verbose);
    ReadValued("--config", g.cfgFile, b + (c + (d + (e + rest))), UNSET, []);
    ReadSwitch("--dev", g.devMode, c + (d + (e + rest)), ga, []);
    ReadValued("--profile", g.profile, d + (e + rest), gb, []);
    ReadSwitch("--verbose", g.verbose, e + rest, gc, []);
    ReadSwitch("--no-color", g.noColor, rest, gd, []);
    assert Flags(g) + rest == a + (b + (c + (d + (e + rest))));
  }

  lemma OverrideFlags(o: Overrides)
    ensures (forall w | w in OverrideWords(o) :: !IsGlobalFlag(w)) <==> PlainOverrides(o)
  {
    hide Trim;
    var words := OverrideWords(o);
    assert o.port > 0 ==> !IsGlobalFlag(IntText(o.port)) by {
      if o.port > 0 { assert '0' <= NatText(o.port)[0] <= '9'; }
    }
    assert !IsGlobalFlag("");
    assert Trim(o.bind) != "" ==> Trim(o.bind) in words;
    assert Trim(o.auditDb) != "" ==> Trim(o.auditDb) in words;
    forall w | w in words && w != Trim(o.bind) && w != Trim(o.auditDb) ensures !IsGlobalFlag(w) {
      assert w in ["--port", "--bind", "--session-audit-db"] || (o.port > 0 && w == IntText(o.port));
    }
  }

  /** Plain words become positionals, and reading goes on behind them. */
  lemma {:induction false} WordsThenRest(words: seq<string>, rest: seq<string>, g: Globals, pos: seq<string>)
    requires forall w | w in words :: !IsGlobalFlag(w)
    ensures Parse(words + rest, g, pos) == Parse(rest, g, pos + words)
    decreases |words|
  {
    if words == [] {
      assert words + rest == rest && pos + words == pos;
    } else {
      assert words[0] in words && (words + rest)[0] == words[0];
      assert (words + rest)[1..] == words[1..] + rest;
      WordsThenRest(words[1..], rest, g, pos + [words[0]]);
      assert pos + [words[0]] + words[1..] == pos + words;
    }
  }

  lemma PrintedThenRest(g: Globals, o: Overrides, rest: seq<string>)
    requires PlainOverrides(o)
    ensures Parse(Flags(g) + OverrideWords(o) + rest, UNSET, []) == Parse(rest, Carried(g), OverrideWords(o))
  {
    hide Parse, Flags, OverrideWords, Trim, IsGlobalFlag;
    assert Flags(g) + OverrideWords(o) + rest == Flags(g) + (OverrideWords(o) + rest);
    FlagsRead(g, OverrideWords(o) + rest);
    OverrideFlags(o);
    WordsThenRest(OverrideWords(o), rest, Carried(g), []);
    assert [] + OverrideWords(o) == OverrideWords(o);
  }

  lemma PrintedReadsBack(g: Globals, o: Overrides, command: seq<string>)
    requires forall w | w in command :: !IsGlobalFlag(w)
    ensures Parse(Flags(g) + (OverrideWords(o) + command), UNSET, []) == Parsed(Carried(g), OverrideWords(o) + command)
       <==> PlainOverrides(o)
  {
    hide Parse, Flags, OverrideWords, Trim, IsGlobalFlag;
    var words := OverrideWords(o) + command;
    FlagsRead(g, words);
    WordsPassThrough(words, Carried(g), []);
    OverrideFlags(o);
    assert forall w :: w in words <==> w in OverrideWords(o) || w in command;
    assert [] + words == words;
  }

  /** What is printed for a command reads back as the settings, and every other word in order as a
      positional, exactly when neither the bind address nor the audit path is a global flag. */
  lemma WorkerReadsBack(g: Globals, o: Overrides, command: string)
    requires command in {"run", "supervise"}
    ensures Parse(Flags(g) + (OverrideWords(o) + ["gateway", command]), UNSET, [])
            == Parsed(Carried(g), OverrideWords(o) + ["gateway", command])
       <==> PlainOverrides(o)
  {
    hide Parse, Flags, OverrideWords, Trim, PlainOverrides;
    PrintedReadsBack(g, o, ["gateway", command]);
  }

  /** Which word sets what: each switch, wherever it stands. */
  lemma SwitchesMean(g: Globals, pos: seq<string>, rest: seq<string>)
    ensures Parse(["--dev"] + rest, g, pos) == Parse(rest, g.(devMode := true), pos)
    ensures Parse(["--no-color"] + rest, g, pos) == Parse(rest, g.(noColor := true), pos)
    ensures Parse(["--no-intercept"] + rest, g, pos) == Parse(rest, g.(disableIntercepts := true), pos)
    ensures Parse(["--json"] + rest, g, pos) == Parse(rest, g.(jsonOutput := true), pos)
    ensures Parse(["-v"] + rest, g, pos) == Parse(rest, g.(verbose := true), pos)
    ensures Parse(["--verbose"] + rest, g, pos) == Parse(rest, g.(verbose := true), pos)
    ensures Parse(["-h"] + rest, g, pos) == Help && Parse(["--help"] + rest, g, pos) == Help
  {
    forall w: string ensures ([w] + rest)[0] == w && ([w] + rest)[1..] == rest && [w] + rest != [] {
    }
  }

  /** The two flags that take the word behind them, and do nothing without one. */
  lemma ValuesMean(g: Globals, value: string, pos: seq<string>, rest: seq<string>)
    ensures Parse(["--config", value] + rest, g, pos) == Parse(rest, g.(cfgFile := value), pos)
    ensures Parse(["--profile", value] + rest, g, pos) == Parse(rest, g.(profile := value), pos)
    ensures Parse(["--config"], g, pos) == Parsed(g, pos) && Parse(["--profile"], g, pos) == Parsed(g, pos)
  {
    assert (["--config", value] + rest)[1..] == [value] + rest && ([value] + rest)[1..] == rest;
    assert (["--profile", value] + rest)[1..] == [value] + rest;
    assert ["--config"][1..] == [] && ["--profile"][1..] == [];
  }

  /** Behind `--` everything is a positional, flags too. */
  lemma DashesEndFlags(rest: seq<string>, g: Globals, pos: seq<string>)
    ensures Parse(["--"] + rest, g, pos) == Parsed(g, pos + rest)
  {
    assert (["--"] + rest)[1..] == rest;
  }

  /** What the worker has afterwards, field by field: the supervisor's five settings, and as
      positionals the port, bind address and audit path, each behind its own flag and left out if not
      given, and the command. */
  lemma WorkerHas(g: Globals, o: Overrides, command: string)
    requires command in {"run", "supervise"} && PlainOverrides(o)
    ensures Parse(Flags(g) + (OverrideWords(o) + ["gateway", command]), UNSET, []) ==
            Parsed(Globals(g.cfgFile, g.profile, g.devMode, g.verbose, g.noColor, false, false),
                   (if o.port > 0 then ["--port", IntText(o.port)] else [])
                   + (if Trim(o.bind) != "" then ["--bind", Trim(o.bind)] else [])
                   + (if Trim(o.auditDb) != "" then ["--session-audit-db", Trim(o.auditDb)] else [])
                   + ["gateway", command])
  {
    hide Parse, Flags, Trim, PlainOverrides, IntText;
    WorkerReadsBack(g, o, command);
  }

  lemma {:induction false} PositionalsStay(args: seq<string>, g: Globals, pos: seq<string>)
    ensures var r := Parse(args, g, pos); r.Parsed? ==> pos <= r.positional
    decreases |args|
  {
    if args != [] {
      var w, rest := args[0], args[1..];
      PositionalsStay(rest, g.(devMode := true), pos);
      PositionalsStay(rest, g.(noColor := true), pos);
      PositionalsStay(rest, g.(disableIntercepts := true), pos);
      PositionalsStay(rest, g.(jsonOutput := true), pos);
      PositionalsStay(rest, g.(verbose := true), pos);
      PositionalsStay(rest, g, pos);
      PositionalsStay(rest, g, pos + [w]);
      if rest != [] {
        PositionalsStay(rest[1..], g.(cfgFile := rest[0]), pos);
        PositionalsStay(rest[1..], g.(profile := rest[0]), pos);
      }
    }
  }

  /** The first positional decides the command. It is `gateway` exactly when no override is printed:
      the dispatch does not know that `--port`, `--bind` and `--session-audit-db` are flags. */
  lemma CommandWord(g: Globals, o: Overrides, command: string)
    requires command in {"run", "supervise"}
    ensures StartsWith(Parse(Flags(g) + (OverrideWords(o) + ["gateway", command]), UNSET, []), "gateway")
            <==> OverrideWords(o) == []
    ensures OverrideWords(o) == [] <==> o.port <= 0 && Trim(o.bind) == "" && Trim(o.auditDb) == ""
  {
    hide Trim, Parse, Flags, IntText;
    var words := OverrideWords(o) + ["gateway", command];
    FlagsRead(g, words);
    FirstWord(words, Carried(g));
    if OverrideWords(o) == [] {
      PrintedReadsBack(g, o, ["gateway", command]);
    }
  }

  predicate StartsWith(r: Parsed, word: string) {
    r.Parsed? && r.positional != [] && r.positional[0] == word
  }

  /** A first word that is no flag is the first positional. */
  lemma FirstWord(words: seq<string>, g: Globals)
    requires words != [] && !IsGlobalFlag(words[0])
    ensures var r := Parse(words, g, []); r.Parsed? ==> r.positional != [] && r.positional[0] == words[0]
  {
    PositionalsStay(words[1..], g, [words[0]]);
    assert [] + [words[0]] == [words[0]];
  }
}
