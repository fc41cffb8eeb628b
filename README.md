# sharc command-line parser, modelled in Dafny

This project models `src/args.rs` of the Shard compiler `sharc`: the parser
that turns the process' argument tokens into an `Args` record (source file,
output file, debug flag, code-context flag, diagnostic level and the list of
verbs), or stops early for `-h`, `--help`, `-V`/`--version`, the banner word
`shark`, or an error.

Two files:

- `args.dfy`, module `ArgParse`, holds the model.
  - Value types: `Level`, `ArgError`, `ArgState<T>` (the value of an `Arg<T>`), `Config` (the value of an `Args`) and `Outcome`.
  - Pure specification functions, one per step of the original: `TrySet` (`try_mut`), `Expand` (group expansion), `ParseLevel`, `Dispatch` (one expanded flag), `RunGroup` / `HandleGroup` (`handle_arg`), `ParseFrom` / `ParseTokens` (`parse`).
  - The imperative parser: class `Arg<T>`, whose `TryMut` updates the value in place, and class `Args`, whose five `Arg` objects and `verbs` sequence are filled in by `DispatchFlag`, `HandleArg` and `Parse`. These methods use an explicit index cursor over the token sequence, which stands in for the shared `IntoIter`. Each method's `ensures` ties its result and its new state to the specification function for its step. So `Args.Parse(tokens)` returns exactly `ParseTokens(tokens)`.
- `properties.dfy`, module `ArgParseProperties`, holds the lemmas about the specification functions.

Every `exit` of the original becomes an `Outcome` variant. `Parsed(config)` is the normal return. `ShortUsage`, `Help` and `Version` exit with status 0. `Banner` and `Failed(error)` exit with status 1 (`ExitCode`). Each call to the `error!` macro becomes `Failed` with an `ArgError` that names the offending flag or value:

- `UsedTwice` comes from `try_mut`;
- `NotAtEndOfGroup` is a value flag that is not last in its group;
- `MissingValue` is a value flag with no token after it;
- `InvalidLevel` is a level spelling outside the ten accepted ones;
- `Unrecognized` is any other flag spelling.

## The code as written

The model follows the code, also where its comments, help text or the
intended design say otherwise:

- `try_mut` (src/args.rs:27-32) checks `set` but never assigns it. The rule that each option may be given only once therefore never applies. `-f a -f b` is accepted and the last value wins (`RepeatedFileLastWins`). No token list ever produces the `UsedTwice` error (`NeverUsedTwice`).
- The help text lists `-v, --version` (src/args.rs:180), but the dispatcher matches `-V` (src/args.rs:99). So `-v` is an unrecognized argument (`UnknownFlagExamples`).
- The drain loop after the main loop (src/args.rs:164-167) appends what is left of the token stream. The main loop stops only once the stream is exhausted, so nothing is left. `Args.Parse` models the drain as one append of `tokens[cursor..]`, and its contract shows that this adds nothing.

## Model

| member | source | states |
|---|---|---|
| `ArgParse.ExitCode` | src/args.rs:91-102 | an early exit has status 0 exactly for short usage, help and version, and 1 otherwise |
| `ArgParse.Dispatch` | src/args.rs:90-142 | an expanded flag never touches the verbs; a value flag that continues consumes exactly one raw token, no other flag consumes any; an early exit never carries a record |
| `ArgParse.RunGroup` | src/args.rs:80-143 | running the flags of a group leaves the verbs alone and leaves a suffix of the raw tokens |
| `ArgParse.HandleGroup` | src/args.rs:71-144 | `handle_arg` leaves the verbs alone and only consumes raw tokens from the front |
| `ArgParse.ParseFrom` | src/args.rs:150-162 | the driver only appends to the verbs: the verbs it started with are a prefix of the verbs of the parsed record |
| `ArgParse.Arg.constructor` | src/args.rs:23-25 | a new `Arg` holds the default and is not set |
| `ArgParse.Arg.TryMut` | src/args.rs:27-32 | if the argument is set, it returns the duplicate-use error and changes nothing; otherwise it stores the value and leaves `set` false |
| `ArgParse.Args.Default` | src/args.rs:60-69 | the new record equals `DefaultConfig()`, built from five fresh distinct `Arg` objects |
| `ArgParse.Args.DispatchFlag` | src/args.rs:90-142 | the in-place dispatch of one flag returns the cursor and leaves the record that `Dispatch` specifies, or the same early exit |
| `ArgParse.Args.HandleArg` | src/args.rs:71-144 | the loop over the expanded group yields the record and cursor `HandleGroup` specifies, with the cursor moving only forward |
| `ArgParse.Args.Parse` | src/args.rs:146-170 | the imperative parse, including the drain, returns exactly `ParseTokens(tokens)` |
| `ArgParseProperties.DefaultsOfEmptyParse` | src/args.rs:60-69 | the defaults are `main.shd`, `main.asm`, debug off, context on, level Warn, no verbs, none set; an empty token list parses to exactly that record |
| `ArgParseProperties.TrySetBehaviour` | src/args.rs:27-32 | `try_mut` fails exactly when `set` is true, with the duplicate-use error; on success the value is stored and `set` stays false |
| `ArgParseProperties.DispatchKeepsUnset` | src/args.rs:90-142 | from a record with nothing set, a flag leaves nothing set and never fails with the duplicate-use error |
| `ArgParseProperties.RunGroupKeepsUnset` | src/args.rs:80-143 | the same for a whole group |
| `ArgParseProperties.ParseFromKeepsUnset` | src/args.rs:150-162 | the same for the rest of the parse |
| `ArgParseProperties.NeverUsedTwice` | src/args.rs:27-32 | no token list yields the duplicate-use error, and every parsed record has nothing set |
| `ArgParseProperties.ExpandUnit` | src/args.rs:72-77 | a two-character flag `-c` expands to itself |
| `ArgParseProperties.ExpandShort` | src/args.rs:76 | a single-dash token expands to `-c` for each following character, in order, and each of those expands to itself |
| `ArgParseProperties.ExpandPair` | src/args.rs:76 | `-pq` expands to `-p`, `-q` |
| `ArgParseProperties.LoneDashHasNoEffect` | src/args.rs:76-80 | `-` expands to nothing and leaves the parse unchanged |
| `ArgParseProperties.ParseFlagToken` | src/args.rs:151-153 | a flag token that expands to itself is dispatched as the last flag of a one-flag group |
| `ArgParseProperties.DispatchIgnoresRest` | src/args.rs:90-142 | a flag that takes no value behaves the same whatever its group position and whatever tokens follow |
| `ArgParseProperties.RunGroupAsTokens` | src/args.rs:80-89 | a group whose only value flag, if any, is last runs exactly as its flags given as separate tokens |
| `ArgParseProperties.GroupAsSeparateFlags` | src/args.rs:72-89 | parsing a single-dash group equals parsing its expansion as separate tokens, as long as no value flag stands before its end |
| `ArgParseProperties.ValueFlagInsideGroup` | src/args.rs:81-89 | a value flag before the end of its group stops the group, with the end-of-group error if no earlier flag stopped it, and without consuming any raw token |
| `ArgParseProperties.FileTakesNextToken` | src/args.rs:104-111 | `-f`/`--file` takes the next raw token verbatim as the file, or fails with the duplicate-use error if the file is set |
| `ArgParseProperties.OutputTakesNextToken` | src/args.rs:112-119 | the same for `-o`/`--output` and the output file |
| `ArgParseProperties.LevelTakesNextToken` | src/args.rs:120-136 | `-l`/`--error-level` takes the next raw token, rejects a bad spelling before checking `set`, and stores the level |
| `ArgParseProperties.MissingValueAtEnd` | src/args.rs:104-124 | a value flag with no token after it is the missing-value error |
| `ArgParseProperties.DebugFlag` | src/args.rs:103 | `-d`/`--debug` sets debug to true, or fails with the duplicate-use error if debug is set |
| `ArgParseProperties.NoContextFlag` | src/args.rs:137 | `--no-context` sets the code context to false, or fails with the duplicate-use error if it is set |
| `ArgParseProperties.RepeatedFileLastWins` | src/args.rs:104-111 | `-f a --file b` succeeds with file `b` |
| `ArgParseProperties.RepeatedLevelLastWins` | src/args.rs:120-136 | `-l a -l b` checks both spellings and keeps the level of `b` |
| `ArgParseProperties.RepeatedToggleAccepted` | src/args.rs:103 | `-d --debug` succeeds |
| `ArgParseProperties.ToggleThenFile` | src/args.rs:150-153 | `-d -f x` sets debug and file `x` |
| `ArgParseProperties.ValueFlagLastInGroup` | src/args.rs:78-111 | `-df x` sets debug and file `x` |
| `ArgParseProperties.ValueFlagNotLastInGroup` | src/args.rs:83-89 | `-fo x` is the end-of-group error for `-f` |
| `ArgParseProperties.LevelSpellings` | src/args.rs:126-135 | a token parses to a level exactly when it is that level's long name or its first letter |
| `ArgParseProperties.InvalidLevelExample` | src/args.rs:132-134 | `--error-level bogus` is the invalid-level error |
| `ArgParseProperties.FatalBothSpellings` | src/args.rs:126-127 | `--error-level fatal` and `-l f` both set the level to Fatal |
| `ArgParseProperties.PlainTokensBecomeVerbs` | src/args.rs:150-162 | tokens that neither start with a dash nor are `shark` are appended to the verbs in order |
| `ArgParseProperties.FileAndVerbsExample` | src/args.rs:150-162 | `-f a.shd build run` sets the file and appends the verbs `build`, `run` |
| `ArgParseProperties.FileAndVerbsFromDefault` | src/args.rs:146-169 | from the defaults, `-f a.shd build run` gives file `a.shd`, verbs `build`, `run` and every other field at its default |
| `ArgParseProperties.SharkBanner` | src/args.rs:156-159 | a top-level `shark` ends the parse with the banner and exit status 1 |
| `ArgParseProperties.ImmediateActions` | src/args.rs:91-102 | `-h`, `--help`, `-V` and `--version` end the parse at once with exit status 0, whatever follows |
| `ArgParseProperties.DebugThenHelpGroup` | src/args.rs:72-93 | `-dh` acts as `-d` then `-h` and ends with the short usage |
| `ArgParseProperties.UnknownFlag` | src/args.rs:139-141 | any other long spelling or two-character short flag is the unrecognized-argument error, exit status 1 |
| `ArgParseProperties.UnknownFlagExamples` | src/args.rs:139-141 | `-v` and `--bogus` are unrecognized arguments |

## Left out

- The text printed for `-h`, `--help`, the version and the banner (src/args.rs:92, 96, 100, 157, 173-204) is not modelled. Only the outcome is. The version string is a build-time value.
- `std::process::exit` and the diagnostic rendering of `error!` (src/args.rs:7-14) are not modelled. The outcome carries the error kind and the flag or value it names, not the formatted title, the note or its ANSI escapes. `crate::report` is not part of this model; its `Level` is modelled as a five-value enumeration.
- `Box::leak` and the `'static` lifetimes (src/args.rs:110, 118, 161, 166) are left out. Strings are plain values.
- The `Deref` and `Debug` implementations of `Arg` (src/args.rs:35-47) are left out. The model reads `value` directly.
- The drain loop (src/args.rs:164-167) is modelled as a single append of the remaining tokens, not as a loop.
- ArgParse.Args.DispatchFlag, ArgParse.Args.HandleArg: after an early exit, their contracts say nothing about the record, which may hold the updates of earlier flags of the group. The original process has ended at that point.
- Concrete examples such as `-df x` are proved from any record with nothing set (`Unset`). Every record the parser reaches has nothing set (`NeverUsedTwice`), and the default record is one of them (`DefaultsOfEmptyParse`). Only `FileAndVerbsFromDefault` is also stated from the default record.
- Rust `char`s are Unicode scalar values. Dafny `char` is used as is, with no further encoding.
