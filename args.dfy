/**
 * The command-line parser of the sharc compiler (src/args.rs).
 *
 * The parser turns the process' argument tokens into an `Args` record, or
 * stops early because of `-h`, `--help`, `-V`, `--version`, the literal
 * `shark`, or an error.  Every early stop of the original ends the process;
 * here it is an `Outcome` value.
 *
 * The module has two layers:
 *   - pure specification functions over values (`TrySet`, `Expand`,
 *     `ParseLevel`, `Dispatch`, `RunGroup`, `HandleGroup`, `ParseFrom`,
 *     `ParseTokens`), one per step of the original;
 *   - the imperative parser itself: class `Arg<T>`, whose `TryMut` updates
 *     the value in place, and class `Args`, whose `HandleArg` and `Parse`
 *     loop over the tokens with an explicit cursor.  Each method is proved
 *     against the function for its step.
 */
module ArgParse {

  /** Diagnostic threshold (crate::report::Level). */
  datatype Level = Fatal | Error | Warn | Note | Silent

  /** The diagnostics the parser reports before exiting with status 1. */
  datatype ArgError =
    | UsedTwice(name: string)          // "'{name}' may only be used once"
    | NotAtEndOfGroup(flag: string)    // "{flag} may only be used at the end of a group"
    | MissingValue(flag: string)       // "{flag} expected FILE" / "expected file" / "expected level"
    | InvalidLevel(level: string)      // "invalid level `{level}`"
    | Unrecognized(argument: string)   // "unrecognized argument {argument}"

  datatype Option<T> = None | Some(value: T)

  datatype Result<T> = Ok(value: T) | Err(error: ArgError)

  /** The value of an `Arg<T>`: its current value and its `set` flag. */
  datatype ArgState<T> = ArgState(value: T, isSet: bool)

  /** The value of an `Args` record. */
  datatype Config = Config(
    file: ArgState<string>,
    output: ArgState<string>,
    debug: ArgState<bool>,
    codeContext: ArgState<bool>,
    level: ArgState<Level>,
    verbs: seq<string>)

  /**
   * How a parse ends: with a record, or with one of the early exits
   * (short usage for `-h`, full help for `--help`, the version string,
   * the shark banner, or a reported error).
   */
  datatype Outcome =
    | Parsed(config: Config)
    | ShortUsage
    | Help
    | Version
    | Banner
    | Failed(error: ArgError)

  /** The process exit status of an early exit. */
  function ExitCode(o: Outcome): (code: int)
    requires !o.Parsed?
    ensures code == 0 <==> (o.ShortUsage? || o.Help? || o.Version?)
    ensures code == 0 || code == 1
  {
    match o
    case ShortUsage => 0
    case Help => 0
    case Version => 0
    case Banner => 1
    case Failed(_) => 1
  }

  /** `starts_with('-')`. */
  predicate StartsWithDash(s: string) {
    |s| >= 1 && s[0] == '-'
  }

  /** `starts_with("--")`. */
  predicate StartsWithDoubleDash(s: string) {
    |s| >= 2 && s[0] == '-' && s[1] == '-'
  }

  /** `Arg::new`: the default value, not yet set. */
  function NewArg<T>(default: T): ArgState<T> {
    ArgState(default, false)
  }

  /**
   * `Arg::try_mut` as written: it refuses when `set` is already true and
   * otherwise stores the value, but it never turns `set` on.
   */
  function TrySet<T>(a: ArgState<T>, name: string, value: T): Result<ArgState<T>> {
    if a.isSet then Err(UsedTwice(name)) else Ok(a.(value := value))
  }

  /** `Args::default`. */
  function DefaultConfig(): Config {
    Config(
      NewArg("main.shd"),
      NewArg("main.asm"),
      NewArg(false),
      NewArg(true),
      NewArg(Warn),
      [])
  }

  /**
   * Group expansion: a token starting with `--` is one unit; any other
   * token yields `-c` for each character `c` after its first one.
   */
  function Expand(argument: string): seq<string> {
    if StartsWithDoubleDash(argument) then [argument]
    else if argument == [] then []
    else seq(|argument| - 1, i requires 0 <= i < |argument| - 1 => "-" + [argument[i + 1]])
  }

  /** The spellings of the `-l` / `--error-level` value. */
  function ParseLevel(s: string): Option<Level> {
    if s == "f" || s == "fatal" then Some(Fatal)
    else if s == "e" || s == "error" then Some(Error)
    else if s == "w" || s == "warn" then Some(Warn)
    else if s == "n" || s == "note" then Some(Note)
    else if s == "s" || s == "silent" then Some(Silent)
    else None
  }

  /** The flags that take the next raw token as their value. */
  predicate IsValueFlag(flag: string) {
    flag == "-f" || flag == "--file" ||
    flag == "-o" || flag == "--output" ||
    flag == "-l" || flag == "--error-level"
  }

  /**
   * The state between two flags: the record so far and the raw tokens
   * not yet consumed, or an early exit.
   */
  datatype Step = Continue(config: Config, rest: seq<string>) | Stop(outcome: Outcome)

  /**
   * One expanded flag of `handle_arg`.  `isEnd` tells whether it is the
   * last flag of its group; `rest` are the raw tokens not yet consumed.
   * A value flag takes `rest[0]`; no other flag touches `rest`.
   */
  function Dispatch(c: Config, flag: string, isEnd: bool, rest: seq<string>): (r: Step)
    ensures r.Stop? ==> !r.outcome.Parsed?
    ensures r.Continue? ==> r.config.verbs == c.verbs
    ensures r.Continue? && IsValueFlag(flag) ==> |rest| > 0 && r.rest == rest[1..]
    ensures r.Continue? && !IsValueFlag(flag) ==> r.rest == rest
  {
    if flag == "-h" then Stop(ShortUsage)
    else if flag == "--help" then Stop(Help)
    else if flag == "-V" || flag == "--version" then Stop(Version)
    else if flag == "-d" || flag == "--debug" then
      match TrySet(c.debug, flag, true)
      case Err(e) => Stop(Failed(e))
      case Ok(a) => Continue(c.(debug := a), rest)
    else if flag == "-f" || flag == "--file" then
      if !isEnd then Stop(Failed(NotAtEndOfGroup(flag)))
      else if rest == [] then Stop(Failed(MissingValue(flag)))
      else
        match TrySet(c.file, flag, rest[0])
        case Err(e) => Stop(Failed(e))
        case Ok(a) => Continue(c.(file := a), rest[1..])
    else if flag == "-o" || flag == "--output" then
      if !isEnd then Stop(Failed(NotAtEndOfGroup(flag)))
      else if rest == [] then Stop(Failed(MissingValue(flag)))
      else
        match TrySet(c.output, flag, rest[0])
        case Err(e) => Stop(Failed(e))
        case Ok(a) => Continue(c.(output := a), rest[1..])
    else if flag == "-l" || flag == "--error-level" then
      if !isEnd then Stop(Failed(NotAtEndOfGroup(flag)))
      else if rest == [] then Stop(Failed(MissingValue(flag)))
      else
        match ParseLevel(rest[0])
        case None => Stop(Failed(InvalidLevel(rest[0])))
        case Some(l) =>
          match TrySet(c.level, flag, l)
          case Err(e) => Stop(Failed(e))
          case Ok(a) => Continue(c.(level := a), rest[1..])
    else if flag == "--no-context" then
      match TrySet(c.codeContext, flag, false)
      case Err(e) => Stop(Failed(e))
      case Ok(a) => Continue(c.(codeContext := a), rest)
    else Stop(Failed(Unrecognized(flag)))
  }

  /** `s` is a suffix of `t`: what is left of a token stream after consuming some of it. */
  predicate IsSuffix(s: seq<string>, t: seq<string>) {
    |s| <= |t| && s == t[|t| - |s|..]
  }

  /** The loop of `handle_arg` over the flags of one group. */
  function RunGroup(c: Config, flags: seq<string>, rest: seq<string>): (r: Step)
    ensures r.Stop? ==> !r.outcome.Parsed?
    ensures r.Continue? ==> r.config.verbs == c.verbs && IsSuffix(r.rest, rest)
    decreases |flags|
  {
    if flags == [] then Continue(c, rest)
    else
      match Dispatch(c, flags[0], |flags| == 1, rest)
      case Stop(o) => Stop(o)
      case Continue(c', rest') => RunGroup(c', flags[1..], rest')
  }

  /** `handle_arg`: expand the token, then dispatch its flags in order. */
  function HandleGroup(c: Config, argument: string, rest: seq<string>): (r: Step)
    ensures r.Stop? ==> !r.outcome.Parsed?
    ensures r.Continue? ==> r.config.verbs == c.verbs && IsSuffix(r.rest, rest)
  {
    RunGroup(c, Expand(argument), rest)
  }

  /** The loop of `parse` over the raw tokens not yet consumed. */
  function ParseFrom(c: Config, rest: seq<string>): (r: Outcome)
    ensures r.Parsed? ==> |c.verbs| <= |r.config.verbs| && r.config.verbs[..|c.verbs|] == c.verbs
    decreases |rest|
  {
    if rest == [] then Parsed(c)
    else
      var arg := rest[0];
      if StartsWithDash(arg) then
        match HandleGroup(c, arg, rest[1..])
        case Stop(o) => o
        case Continue(c', rest') => ParseFrom(c', rest')
      else if arg == "shark" then Banner
      else ParseFrom(c.(verbs := c.verbs + [arg]), rest[1..])
  }

  /** `Args::parse`: the whole token list from the default record. */
  function ParseTokens(tokens: seq<string>): Outcome {
    ParseFrom(DefaultConfig(), tokens)
  }

  /** What a method step hands back: the new cursor, or an early exit. */
  datatype Control = Proceed(cursor: nat) | Halt(outcome: Outcome)

  /**
   * The specification step a method step stands for, given the record it
   * left and the tokens its cursor indexes.
   */
  function Resume(c: Config, ctl: Control, tokens: seq<string>): Step
    requires ctl.Proceed? ==> ctl.cursor <= |tokens|
  {
    match ctl
    case Proceed(k) => Continue(c, tokens[k..])
    case Halt(o) => Stop(o)
  }

  /** `Arg<T>`: a value that is updated in place. */
  class Arg<T> {
    var value: T
    var isSet: bool

    function State(): ArgState<T>
      reads this
    {
      ArgState(value, isSet)
    }

    /** `Arg::new`. */
    constructor (default: T)
      ensures State() == NewArg(default)
    {
      value := default;
      isSet := false;
    }

    /** `Arg::try_mut`: the error is returned instead of ending the process. */
    method TryMut(name: string, v: T) returns (err: Option<ArgError>)
      modifies this
      ensures match TrySet(old(State()), name, v)
              case Ok(a) => err == None && State() == a
              case Err(e) => err == Some(e) && State() == old(State())
    {
      if isSet {
        return Some(UsedTwice(name));
      }
      value := v;
      err := None;
    }
  }

  /** `Args`: the record the parser fills in. */
  class Args {
    var file: Arg<string>
    var output: Arg<string>
    var debug: Arg<bool>
    var codeContext: Arg<bool>
    var level: Arg<Level>
    var verbs: seq<string>

    /** The fields are five distinct objects (they are inline in the original). */
    ghost predicate Valid()
      reads this
    {
      file != output && debug != codeContext
    }

    function Snapshot(): Config
      reads this, file, output, debug, codeContext, level
    {
      Config(file.State(), output.State(), debug.State(), codeContext.State(), level.State(), verbs)
    }

    /** `Args::default`. */
    constructor Default()
      ensures Valid() && Snapshot() == DefaultConfig()
      ensures fresh(file) && fresh(output) && fresh(debug) && fresh(codeContext) && fresh(level)
    {
      file := new Arg("main.shd");
      output := new Arg("main.asm");
      debug := new Arg(false);
      codeContext := new Arg(true);
      level := new Arg(Warn);
      verbs := [];
    }

    /** The `match` of `handle_arg` for one expanded flag. */
    method DispatchFlag(flag: string, isEnd: bool, tokens: seq<string>, cursor: nat) returns (ctl: Control)
      requires Valid() && cursor <= |tokens|
      modifies file, output, debug, codeContext, level
      ensures ctl.Proceed? ==> ctl.cursor <= |tokens|
      ensures Resume(Snapshot(), ctl, tokens) == Dispatch(old(Snapshot()), flag, isEnd, tokens[cursor..])
    {
      if flag == "-h" {
        return Halt(ShortUsage);
      }
      if flag == "--help" {
        return Halt(Help);
      }
      if flag == "-V" || flag == "--version" {
        return Halt(Version);
      }
      var err: Option<ArgError>;
      var next := cursor;
      if flag == "-d" || flag == "--debug" {
        err := debug.TryMut(flag, true);
      } else if flag == "-f" || flag == "--file" {
        if !isEnd {
          return Halt(Failed(NotAtEndOfGroup(flag)));
        }
        if cursor == |tokens| {
          return Halt(Failed(MissingValue(flag)));
        }
        err := file.TryMut(flag, tokens[cursor]);
        next := cursor + 1;
      } else if flag == "-o" || flag == "--output" {
        if !isEnd {
          return Halt(Failed(NotAtEndOfGroup(flag)));
        }
        if cursor == |tokens| {
          return Halt(Failed(MissingValue(flag)));
        }
        err := output.TryMut(flag, tokens[cursor]);
        next := cursor + 1;
      } else if flag == "-l" || flag == "--error-level" {
        if !isEnd {
          return Halt(Failed(NotAtEndOfGroup(flag)));
        }
        if cursor == |tokens| {
          return Halt(Failed(MissingValue(flag)));
        }
        var l := ParseLevel(tokens[cursor]);
        if l.None? {
          return Halt(Failed(InvalidLevel(tokens[cursor])));
        }
        err := level.TryMut(flag, l.value);
        next := cursor + 1;
      } else if flag == "--no-context" {
        err := codeContext.TryMut(flag, false);
      } else {
        return Halt(Failed(Unrecognized(flag)));
      }
      if err.Some? {
        return Halt(Failed(err.value));
      }
      ctl := Proceed(next);
    }

    /**
     * `handle_arg`: expands `argument` and dispatches its flags in order;
     * value flags consume `tokens[cursor]` and move the cursor on.
     */
    method HandleArg(argument: string, tokens: seq<string>, cursor: nat) returns (ctl: Control)
      requires Valid() && cursor <= |tokens|
      modifies file, output, debug, codeContext, level
      ensures ctl.Proceed? ==> cursor <= ctl.cursor <= |tokens|
      ensures Resume(Snapshot(), ctl, tokens) == HandleGroup(old(Snapshot()), argument, tokens[cursor..])
    {
      var flags := Expand(argument);
      var i := 0;
      var next: nat := cursor;
      while i < |flags|
        invariant i <= |flags| && cursor <= next <= |tokens|
        invariant RunGroup(Snapshot(), flags[i..], tokens[next..]) == HandleGroup(old(Snapshot()), argument, tokens[cursor..])
      {
        ctl := DispatchFlag(flags[i], i == |flags| - 1, tokens, next);
        if ctl.Halt? {
          return;
        }
        next := ctl.cursor;
        i := i + 1;
      }
      ctl := Proceed(next);
    }

    /** `Args::parse`: one pass over the tokens with a shared cursor. */
    static method Parse(tokens: seq<string>) returns (o: Outcome)
      ensures o == ParseTokens(tokens)
    {
      var out := new Args.Default();
      var cursor: nat := 0;
      while cursor < |tokens|
        invariant cursor <= |tokens|
        invariant out.Valid()
        invariant fresh(out.file) && fresh(out.output) && fresh(out.debug)
        invariant fresh(out.codeContext) && fresh(out.level)
        invariant ParseFrom(out.Snapshot(), tokens[cursor..]) == ParseTokens(tokens)
      {
        var arg := tokens[cursor];
        cursor := cursor + 1;
        if StartsWithDash(arg) {
          var ctl := out.HandleArg(arg, tokens, cursor);
          if ctl.Halt? {
            return ctl.outcome;
          }
          cursor := ctl.cursor;
        } else if arg == "shark" {
          return Banner;
        } else {
          out.verbs := out.verbs + [arg];
        }
      }
      // The drain of the remaining tokens, as one append: the main loop only
      // ends once the cursor has reached the end, so nothing is left to add.
      out.verbs := out.verbs + tokens[cursor..];
      o := Parsed(out.Snapshot());
    }
  }
}
