/**
 * What the parser of src/args.rs guarantees, stated about the
 * specification functions of module ArgParse (and therefore, through the
 * contract of `Args.Parse`, about the imperative parser).
 */
module ArgParseProperties {
  import opened ArgParse

  // ---------------------------------------------------------------------
  // Defaults

  /** `Args::default` and the parse of an empty token list. */
  lemma DefaultsOfEmptyParse()
    ensures var d := DefaultConfig();
      d.file == ArgState("main.shd", false) && d.output == ArgState("main.asm", false) &&
      d.debug == ArgState(false, false) && d.codeContext == ArgState(true, false) &&
      d.level == ArgState(Warn, false) && d.verbs == []
    ensures Unset(DefaultConfig())
    ensures ParseTokens([]) == Parsed(DefaultConfig())
  {
  }

  // ---------------------------------------------------------------------
  // try_mut never marks an argument as set

  /** No argument of the record has been marked as set. */
  predicate Unset(c: Config) {
    !c.file.isSet && !c.output.isSet && !c.debug.isSet && !c.codeContext.isSet && !c.level.isSet
  }

  predicate IsUsedTwice(o: Outcome) {
    o.Failed? && o.error.UsedTwice?
  }

  /** `try_mut` fails exactly on an argument already set, and on success stores the value without setting the flag. */
  lemma TrySetBehaviour<T>(a: ArgState<T>, name: string, v: T)
    ensures TrySet(a, name, v).Err? <==> a.isSet
    ensures TrySet(a, name, v).Err? ==> TrySet(a, name, v).error == UsedTwice(name)
    ensures TrySet(a, name, v).Ok? ==> TrySet(a, name, v).value == ArgState(v, false)
  {
  }

  lemma DispatchKeepsUnset(c: Config, flag: string, isEnd: bool, rest: seq<string>)
    requires Unset(c)
    ensures Dispatch(c, flag, isEnd, rest).Continue? ==> Unset(Dispatch(c, flag, isEnd, rest).config)
    ensures Dispatch(c, flag, isEnd, rest).Stop? ==> !IsUsedTwice(Dispatch(c, flag, isEnd, rest).outcome)
  {
  }

  lemma {:induction false} RunGroupKeepsUnset(c: Config, flags: seq<string>, rest: seq<string>)
    requires Unset(c)
    ensures RunGroup(c, flags, rest).Continue? ==> Unset(RunGroup(c, flags, rest).config)
    ensures RunGroup(c, flags, rest).Stop? ==> !IsUsedTwice(RunGroup(c, flags, rest).outcome)
    decreases |flags|
  {
    if flags != [] {
      DispatchKeepsUnset(c, flags[0], |flags| == 1, rest);
      match Dispatch(c, flags[0], |flags| == 1, rest)
      case Stop(_) =>
      case Continue(c', rest') => RunGroupKeepsUnset(c', flags[1..], rest');
    }
  }

  lemma {:induction false} ParseFromKeepsUnset(c: Config, rest: seq<string>)
    requires Unset(c)
    ensures !IsUsedTwice(ParseFrom(c, rest))
    ensures ParseFrom(c, rest).Parsed? ==> Unset(ParseFrom(c, rest).config)
    decreases |rest|
  {
    if rest != [] {
      var arg := rest[0];
      if StartsWithDash(arg) {
        RunGroupKeepsUnset(c, Expand(arg), rest[1..]);
        match HandleGroup(c, arg, rest[1..])
        case Stop(_) =>
        case Continue(c', rest') => ParseFromKeepsUnset(c', rest');
      } else if arg != "shark" {
        ParseFromKeepsUnset(c.(verbs := c.verbs + [arg]), rest[1..]);
      }
    }
  }

  /**
   * Because `try_mut` never turns `set` on, the "may only be used once"
   * error cannot arise from any token list, and every parsed record still
   * has all its arguments unset.
   */
  lemma NeverUsedTwice(tokens: seq<string>)
    ensures !IsUsedTwice(ParseTokens(tokens))
    ensures ParseTokens(tokens).Parsed? ==> Unset(ParseTokens(tokens).config)
  {
    ParseFromKeepsUnset(DefaultConfig(), tokens);
  }

  // ---------------------------------------------------------------------
  // Group expansion

  /** A one-letter short flag expands to itself. */
  lemma ExpandUnit(ch: char)
    ensures StartsWithDash(['-', ch])
    ensures Expand(['-', ch]) == [['-', ch]]
  {
    if ch != '-' {
      assert Expand(['-', ch])[0] == ['-', ch];
    }
  }

  /** A flag token that expands to itself is dispatched as the end of a one-flag group. */
  lemma ParseFlagToken(c: Config, flag: string, rest: seq<string>)
    requires StartsWithDash(flag) && Expand(flag) == [flag]
    ensures ParseFrom(c, [flag] + rest) == AfterGroup(Dispatch(c, flag, true, rest))
  {
    assert ([flag] + rest)[0] == flag && ([flag] + rest)[1..] == rest;
    assert [flag][1..] == [];
    match Dispatch(c, flag, true, rest)
    case Stop(_) =>
    case Continue(c', r') =>
      assert RunGroup(c', [], r') == Continue(c', r');
  }

  /**
   * Every flag of an expanded single-dash group is `-c` for the matching
   * character of the token, in left-to-right order, and each of them
   * expands to itself.
   */
  lemma {:induction false} ExpandShort(t: string)
    requires StartsWithDash(t) && !StartsWithDoubleDash(t)
    ensures |Expand(t)| == |t| - 1
    ensures forall j :: 0 <= j < |Expand(t)| ==> Expand(t)[j] == ['-', t[j + 1]]
    ensures forall j :: 0 <= j < |Expand(t)| ==> Expand(Expand(t)[j]) == [Expand(t)[j]]
  {
    forall j | 0 <= j < |Expand(t)|
      ensures Expand(Expand(t)[j]) == [Expand(t)[j]]
    {
      ExpandUnit(t[j + 1]);
    }
  }

  /** A lone `-` expands to nothing and leaves the parse unchanged. */
  lemma LoneDashHasNoEffect(c: Config, rest: seq<string>)
    ensures Expand("-") == []
    ensures ParseFrom(c, ["-"] + rest) == ParseFrom(c, rest)
  {
    assert (["-"] + rest)[1..] == rest;
  }

  /** A flag that takes no value behaves alike wherever it stands in a group and whatever follows it. */
  lemma DispatchIgnoresRest(c: Config, flag: string, e1: bool, e2: bool, r1: seq<string>, r2: seq<string>)
    requires !IsValueFlag(flag)
    ensures Dispatch(c, flag, e1, r1).Stop? ==> Dispatch(c, flag, e2, r2) == Dispatch(c, flag, e1, r1)
    ensures Dispatch(c, flag, e1, r1).Continue? ==>
      Dispatch(c, flag, e2, r2) == Continue(Dispatch(c, flag, e1, r1).config, r2)
  {
  }

  /** Flags each of which expands to itself and starts with a dash. */
  predicate AreUnits(flags: seq<string>) {
    forall j :: 0 <= j < |flags| ==> StartsWithDash(flags[j]) && Expand(flags[j]) == [flags[j]]
  }

  /** Only the last of `flags` may be a value flag. */
  predicate ValueFlagOnlyLast(flags: seq<string>) {
    forall j :: 0 <= j < |flags| - 1 ==> !IsValueFlag(flags[j])
  }

  /** The outcome of running a group and then the rest of the parse. */
  function AfterGroup(s: Step): Outcome {
    match s
    case Stop(o) => o
    case Continue(c, rest) => ParseFrom(c, rest)
  }

  lemma {:induction false} RunGroupAsTokens(c: Config, flags: seq<string>, rest: seq<string>)
    requires AreUnits(flags) && ValueFlagOnlyLast(flags)
    ensures AfterGroup(RunGroup(c, flags, rest)) == ParseFrom(c, flags + rest)
    decreases |flags|
  {
    if flags != [] {
      var f := flags[0];
      var tail := flags[1..] + rest;
      assert flags + rest == [f] + tail;
      ParseFlagToken(c, f, tail);
      if |flags| == 1 {
        assert flags[1..] == [] && tail == rest;
        match Dispatch(c, f, true, rest)
        case Stop(_) =>
        case Continue(c', rest') =>
          assert RunGroup(c', flags[1..], rest') == Continue(c', rest');
      } else {
        assert !IsValueFlag(f);
        DispatchIgnoresRest(c, f, false, true, rest, tail);
        match Dispatch(c, f, false, rest)
        case Stop(_) =>
        case Continue(c', rest') =>
          assert AreUnits(flags[1..]) && ValueFlagOnlyLast(flags[1..]) by {
            forall j | 0 <= j < |flags[1..]|
              ensures StartsWithDash(flags[1..][j]) && Expand(flags[1..][j]) == [flags[1..][j]]
            {
              assert flags[1..][j] == flags[j + 1];
            }
            forall j | 0 <= j < |flags[1..]| - 1
              ensures !IsValueFlag(flags[1..][j])
            {
              assert flags[1..][j] == flags[j + 1];
            }
          }
          RunGroupAsTokens(c', flags[1..], rest);
      }
    } else {
      assert flags + rest == rest;
    }
  }

  /**
   * `-dh` acts as `-d` then `-h`: a single-dash group whose value flag, if
   * any, comes last parses exactly as its expanded flags given as
   * separate tokens.
   */
  lemma GroupAsSeparateFlags(c: Config, t: string, rest: seq<string>)
    requires StartsWithDash(t) && !StartsWithDoubleDash(t)
    requires ValueFlagOnlyLast(Expand(t))
    ensures ParseFrom(c, [t] + rest) == ParseFrom(c, Expand(t) + rest)
  {
    ExpandShort(t);
    assert ([t] + rest)[0] == t && ([t] + rest)[1..] == rest;
    RunGroupAsTokens(c, Expand(t), rest);
  }

  /**
   * A value flag that is not last in its group stops the parse with the
   * end-of-group error, unless an earlier flag stops it first; in both
   * cases no raw token is consumed, so what follows the group is irrelevant.
   */
  lemma {:induction false} ValueFlagInsideGroup(c: Config, flags: seq<string>, j: nat, r1: seq<string>, r2: seq<string>)
    requires j < |flags| - 1 && IsValueFlag(flags[j])
    requires forall i :: 0 <= i < j ==> !IsValueFlag(flags[i])
    ensures RunGroup(c, flags, r1).Stop?
    ensures RunGroup(c, flags, r2) == RunGroup(c, flags, r1)
    ensures RunGroup(c, flags[..j], r1).Continue? ==>
      RunGroup(c, flags, r1) == Stop(Failed(NotAtEndOfGroup(flags[j])))
    decreases j
  {
    var f := flags[0];
    if j == 0 {
      assert flags[..0] == [];
    } else {
      DispatchIgnoresRest(c, f, false, false, r1, r2);
      DispatchIgnoresRest(c, f, false, true, r1, r1);
      match Dispatch(c, f, false, r1)
      case Stop(_) =>
        assert RunGroup(c, flags[..j], r1) == Stop(Dispatch(c, f, false, r1).outcome);
      case Continue(c', _) =>
        var tl := flags[1..];
        assert forall i :: 0 <= i < j - 1 ==> tl[i] == flags[i + 1];
        ValueFlagInsideGroup(c', tl, j - 1, r1, r2);
        assert flags[..j][1..] == tl[..j - 1];
        if j == 1 {
          assert RunGroup(c, flags[..j], r1) == Dispatch(c, f, true, r1);
        } else {
          assert RunGroup(c, flags[..j], r1) == RunGroup(c', tl[..j - 1], r1);
        }
    }
  }

  // ---------------------------------------------------------------------
  // Value flags

  /**
   * `-f`/`--file` takes the next raw token verbatim, whatever it looks
   * like (a dash, `shark`), or fails with the duplicate-use error when the
   * argument is already set.
   */
  lemma FileTakesNextToken(c: Config, flag: string, v: string, rest: seq<string>)
    requires flag == "-f" || flag == "--file"
    ensures ParseFrom(c, [flag, v] + rest) ==
      if c.file.isSet then Failed(UsedTwice(flag))
      else ParseFrom(c.(file := ArgState(v, false)), rest)
  {
    if flag == "-f" { ExpandUnit('f'); }
    assert [flag, v] + rest == [flag] + ([v] + rest);
    ParseFlagToken(c, flag, [v] + rest);
    assert ([v] + rest)[0] == v && ([v] + rest)[1..] == rest;
  }

  /** `-o`/`--output` takes the next raw token verbatim. */
  lemma OutputTakesNextToken(c: Config, flag: string, v: string, rest: seq<string>)
    requires flag == "-o" || flag == "--output"
    ensures ParseFrom(c, [flag, v] + rest) ==
      if c.output.isSet then Failed(UsedTwice(flag))
      else ParseFrom(c.(output := ArgState(v, false)), rest)
  {
    if flag == "-o" { ExpandUnit('o'); }
    assert [flag, v] + rest == [flag] + ([v] + rest);
    ParseFlagToken(c, flag, [v] + rest);
    assert ([v] + rest)[0] == v && ([v] + rest)[1..] == rest;
  }

  /** `-l`/`--error-level` takes the next raw token and checks its spelling before the set flag. */
  lemma LevelTakesNextToken(c: Config, flag: string, v: string, rest: seq<string>)
    requires flag == "-l" || flag == "--error-level"
    ensures ParseFrom(c, [flag, v] + rest) ==
      match ParseLevel(v)
      case None => Failed(InvalidLevel(v))
      case Some(l) =>
        if c.level.isSet then Failed(UsedTwice(flag))
        else ParseFrom(c.(level := ArgState(l, false)), rest)
  {
    if flag == "-l" { ExpandUnit('l'); }
    assert [flag, v] + rest == [flag] + ([v] + rest);
    ParseFlagToken(c, flag, [v] + rest);
    assert ([v] + rest)[0] == v && ([v] + rest)[1..] == rest;
  }

  /** A value flag with no token after it is the missing-value error. */
  lemma MissingValueAtEnd(c: Config, flag: string)
    requires IsValueFlag(flag)
    ensures ParseFrom(c, [flag]) == Failed(MissingValue(flag))
  {
    if flag == "-f" { ExpandUnit('f'); }
    if flag == "-o" { ExpandUnit('o'); }
    if flag == "-l" { ExpandUnit('l'); }
    assert [flag] == [flag] + [];
    ParseFlagToken(c, flag, []);
  }

  /** The toggle `-d`/`--debug` sets debug to true. */
  lemma DebugFlag(c: Config, flag: string, rest: seq<string>)
    requires flag == "-d" || flag == "--debug"
    ensures ParseFrom(c, [flag] + rest) ==
      if c.debug.isSet then Failed(UsedTwice(flag))
      else ParseFrom(c.(debug := ArgState(true, false)), rest)
  {
    if flag == "-d" { ExpandUnit('d'); }
    ParseFlagToken(c, flag, rest);
  }

  /** The toggle `--no-context` sets the code context to false. */
  lemma NoContextFlag(c: Config, rest: seq<string>)
    ensures ParseFrom(c, ["--no-context"] + rest) ==
      if c.codeContext.isSet then Failed(UsedTwice("--no-context"))
      else ParseFrom(c.(codeContext := ArgState(false, false)), rest)
  {
    ParseFlagToken(c, "--no-context", rest);
  }

  /**
   * A repeated option is not rejected: the last value wins, here with the
   * short and the long spelling mixed.
   */
  lemma RepeatedFileLastWins(c: Config, a: string, b: string)
    requires Unset(c)
    ensures ParseFrom(c, ["-f", a, "--file", b]) == Parsed(c.(file := ArgState(b, false)))
  {
    assert ["-f", a, "--file", b] == ["-f", a] + ["--file", b];
    assert ["--file", b] == ["--file", b] + [];
    FileTakesNextToken(c, "-f", a, ["--file", b]);
    FileTakesNextToken(c.(file := ArgState(a, false)), "--file", b, []);
  }

  /** A repeated level: both values are checked, and the last one wins. */
  lemma RepeatedLevelLastWins(c: Config, a: string, b: string)
    requires Unset(c)
    ensures ParseFrom(c, ["-l", a, "-l", b]) ==
      match ParseLevel(a)
      case None => Failed(InvalidLevel(a))
      case Some(_) =>
        match ParseLevel(b)
        case None => Failed(InvalidLevel(b))
        case Some(l) => Parsed(c.(level := ArgState(l, false)))
  {
    assert ["-l", a, "-l", b] == ["-l", a] + ["-l", b];
    assert ["-l", b] == ["-l", b] + [];
    LevelTakesNextToken(c, "-l", a, ["-l", b]);
    if ParseLevel(a).Some? {
      LevelTakesNextToken(c.(level := ArgState(ParseLevel(a).value, false)), "-l", b, []);
    }
  }

  /** A repeated toggle is accepted too. */
  lemma RepeatedToggleAccepted(c: Config)
    requires Unset(c)
    ensures ParseFrom(c, ["-d", "--debug"]) == Parsed(c.(debug := ArgState(true, false)))
  {
    assert ["-d", "--debug"] == ["-d"] + ["--debug"];
    assert ["--debug"] == ["--debug"] + [];
    DebugFlag(c, "-d", ["--debug"]);
    DebugFlag(c.(debug := ArgState(true, false)), "--debug", []);
  }

  /** A two-letter group expands to its two flags. */
  lemma ExpandPair(p: char, q: char)
    requires p != '-'
    ensures Expand(['-', p, q]) == [['-', p], ['-', q]]
  {
    ExpandShort(['-', p, q]);
  }

  /** `-d -f x` sets debug and takes `x` as the file. */
  lemma ToggleThenFile(c: Config, x: string)
    requires Unset(c)
    ensures ParseFrom(c, ["-d", "-f", x]) == Parsed(c.(debug := ArgState(true, false), file := ArgState(x, false)))
  {
    assert ["-d", "-f", x] == ["-d"] + (["-f", x] + []);
    DebugFlag(c, "-d", ["-f", x] + []);
    FileTakesNextToken(c.(debug := ArgState(true, false)), "-f", x, []);
  }

  /** `-df x` sets debug and takes `x` as the file. */
  lemma ValueFlagLastInGroup(c: Config, x: string)
    requires Unset(c)
    ensures ParseFrom(c, ["-df", x]) == Parsed(c.(debug := ArgState(true, false), file := ArgState(x, false)))
  {
    ExpandPair('d', 'f');
    assert ["-df", x] == ["-df"] + [x];
    GroupAsSeparateFlags(c, "-df", [x]);
    assert Expand("-df") + [x] == ["-d", "-f", x];
    ToggleThenFile(c, x);
  }

  /** `-fo x` fails on `-f` before `x` is consumed. */
  lemma ValueFlagNotLastInGroup(c: Config, x: string)
    ensures ParseFrom(c, ["-fo", x]) == Failed(NotAtEndOfGroup("-f"))
  {
    ExpandPair('f', 'o');
    ValueFlagInsideGroup(c, ["-f", "-o"], 0, [x], [x]);
    assert ["-f", "-o"][..0] == [];
    assert ["-fo", x][0] == "-fo" && ["-fo", x][1..] == [x];
  }

  // ---------------------------------------------------------------------
  // Levels

  /** The long spelling of each level. */
  function LevelName(l: Level): string {
    match l
    case Fatal => "fatal"
    case Error => "error"
    case Warn => "warn"
    case Note => "note"
    case Silent => "silent"
  }

  /** A level is spelled by its long name or by that name's first letter, and by nothing else. */
  lemma LevelSpellings(s: string, l: Level)
    ensures ParseLevel(s) == Some(l) <==> (s == LevelName(l) || s == LevelName(l)[..1])
  {
    match l
    case Fatal => assert LevelName(l)[..1] == "f";
    case Error => assert LevelName(l)[..1] == "e";
    case Warn => assert LevelName(l)[..1] == "w";
    case Note => assert LevelName(l)[..1] == "n";
    case Silent => assert LevelName(l)[..1] == "s";
  }

  /** `--error-level bogus` is the invalid-level error. */
  lemma InvalidLevelExample(c: Config)
    ensures ParseFrom(c, ["--error-level", "bogus"]) == Failed(InvalidLevel("bogus"))
  {
    LevelTakesNextToken(c, "--error-level", "bogus", []);
    assert ["--error-level", "bogus"] == ["--error-level", "bogus"] + [];
  }

  /** `--error-level fatal` and `-l f` both select Fatal. */
  lemma FatalBothSpellings(c: Config)
    requires !c.level.isSet
    ensures ParseFrom(c, ["--error-level", "fatal"]) == ParseFrom(c, ["-l", "f"])
    ensures ParseFrom(c, ["-l", "f"]) == Parsed(c.(level := ArgState(Fatal, false)))
  {
    LevelTakesNextToken(c, "--error-level", "fatal", []);
    LevelTakesNextToken(c, "-l", "f", []);
    assert ["--error-level", "fatal"] == ["--error-level", "fatal"] + [];
    assert ["-l", "f"] == ["-l", "f"] + [];
  }

  // ---------------------------------------------------------------------
  // The driver

  /** Plain tokens go, in order, to the verbs. */
  lemma {:induction false} PlainTokensBecomeVerbs(c: Config, rest: seq<string>)
    requires forall j :: 0 <= j < |rest| ==> !StartsWithDash(rest[j]) && rest[j] != "shark"
    ensures ParseFrom(c, rest) == Parsed(c.(verbs := c.verbs + rest))
    decreases |rest|
  {
    if rest == [] {
      assert c.verbs + rest == c.verbs;
    } else {
      PlainTokensBecomeVerbs(c.(verbs := c.verbs + [rest[0]]), rest[1..]);
      assert c.verbs + [rest[0]] + rest[1..] == c.verbs + rest;
    }
  }

  /** `-f a.shd build run` sets the file and collects the two verbs after it. */
  lemma FileAndVerbsExample(c: Config)
    requires !c.file.isSet
    ensures ParseFrom(c, ["-f", "a.shd", "build", "run"]) ==
      Parsed(c.(file := ArgState("a.shd", false), verbs := c.verbs + ["build", "run"]))
  {
    assert ["-f", "a.shd", "build", "run"] == ["-f", "a.shd"] + ["build", "run"];
    FileTakesNextToken(c, "-f", "a.shd", ["build", "run"]);
    PlainTokensBecomeVerbs(c.(file := ArgState("a.shd", false)), ["build", "run"]);
  }

  /** The same from the default record. */
  lemma FileAndVerbsFromDefault()
    ensures ParseTokens(["-f", "a.shd", "build", "run"]) ==
      Parsed(DefaultConfig().(file := ArgState("a.shd", false), verbs := ["build", "run"]))
  {
    FileAndVerbsExample(DefaultConfig());
  }

  /** A top-level `shark` ends the parse with the banner and exit status 1. */
  lemma SharkBanner(c: Config, rest: seq<string>)
    ensures ParseFrom(c, ["shark"] + rest) == Banner
    ensures ExitCode(Banner) == 1
  {
    assert (["shark"] + rest)[0] == "shark";
    assert !StartsWithDash("shark");
  }

  /** The immediate actions end the parse at once with exit status 0, whatever follows. */
  lemma ImmediateActions(c: Config, rest: seq<string>)
    ensures ParseFrom(c, ["-h"] + rest) == ShortUsage
    ensures ParseFrom(c, ["--help"] + rest) == Help
    ensures ParseFrom(c, ["-V"] + rest) == Version
    ensures ParseFrom(c, ["--version"] + rest) == Version
    ensures ExitCode(ShortUsage) == 0 && ExitCode(Help) == 0 && ExitCode(Version) == 0
  {
    ExpandUnit('h');
    ExpandUnit('V');
    ParseFlagToken(c, "-h", rest);
    ParseFlagToken(c, "--help", rest);
    ParseFlagToken(c, "-V", rest);
    ParseFlagToken(c, "--version", rest);
  }

  /** `-dh` acts as `-d` then `-h`: it stops with the short usage, whatever follows. */
  lemma DebugThenHelpGroup(c: Config, rest: seq<string>)
    requires !c.debug.isSet
    ensures ParseFrom(c, ["-dh"] + rest) == ShortUsage
  {
    ExpandPair('d', 'h');
    GroupAsSeparateFlags(c, "-dh", rest);
    assert Expand("-dh") + rest == ["-d"] + (["-h"] + rest);
    DebugFlag(c, "-d", ["-h"] + rest);
    ImmediateActions(c.(debug := ArgState(true, false)), rest);
  }

  /** The spellings the dispatcher recognizes. */
  predicate IsKnownFlag(flag: string) {
    flag in {"-h", "--help", "-V", "--version", "-d", "--debug", "--no-context"} || IsValueFlag(flag)
  }

  /** Any other spelling, such as `-v` or `--bogus`, is the unrecognized-argument error. */
  lemma UnknownFlag(c: Config, t: string, rest: seq<string>)
    requires StartsWithDash(t) && (StartsWithDoubleDash(t) || |t| == 2) && !IsKnownFlag(t)
    ensures ParseFrom(c, [t] + rest) == Failed(Unrecognized(t))
    ensures ExitCode(Failed(Unrecognized(t))) == 1
  {
    if !StartsWithDoubleDash(t) {
      ExpandUnit(t[1]);
      assert t == ['-', t[1]];
    }
    ParseFlagToken(c, t, rest);
  }

  lemma UnknownFlagExamples()
    ensures ParseTokens(["-v"]) == Failed(Unrecognized("-v"))
    ensures ParseTokens(["--bogus"]) == Failed(Unrecognized("--bogus"))
  {
    UnknownFlag(DefaultConfig(), "-v", []);
    UnknownFlag(DefaultConfig(), "--bogus", []);
    assert ["-v"] == ["-v"] + [];
    assert ["--bogus"] == ["--bogus"] + [];
  }
}
