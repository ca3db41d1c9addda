# tpl-gen: argument scanning and context assembly

tpl-gen renders a template file against a context built from an optional
TOML data file and `-v:NAME VALUE` overrides given on the command line:

    tpl-gen [-d DATA_FILE] [-o OUT_FILE] [-v:VAR_NAME VAR_VALUE]... TEMPLATE_FILE

This project models the two pieces of pure logic in `src/main.rs` and proves
what they compute:

- **the argument scanner** (`load_args`): one left-to-right pass in which
  `-o` and `-d` take the next token as the output / data path, `-v:NAME`
  takes the next token as the value of `NAME`, and the first other token is
  the template path and ends the scan. An empty template path is a usage
  failure.
- **context assembly** (inside `execute`): the top-level entries of the data
  table are inserted first, then every override as a string, so overrides win.

Modules:

- `Base` (`base.dfy`): `Option`, the error type `AppError`, and `Result`.
- `Args` (`args.dfy`): `CmdOption`, the scanner as a recursive state machine
  (`Scan`, `LoadArgs`), and `ScanArgv`, the source's cursor loop, proved equal to it.
- `ArgGrammar` (`arg_grammar.dfy`): a declarative reading of the argument
  vector, independent of the scanner. The arguments are a run of flag/value pairs
  (`LeadingPairs`), then the template token, then ignored trailing tokens.
  Each path is the value of the last pair with its flag (`LastValueOf`), and each
  variable is the value of the last `-v:NAME` pair (`VarsOf`). The lemmas
  prove that the scanner computes exactly this.
- `Context` (`context.dfy`): the data tree `Value` (string, integer, boolean,
  array, table), the merge as a specification (`MergeContext`), and the merge
  as the source performs it, one insertion at a time (`AssembleContext`).
- `Execute` (`execute.dfy`): the invocation up to the hand-off to the
  renderer (`Prepare`). Template compilation and data loading are parameters.
  Also three example invocations.

Where the program crashes, the model returns an error instead:

- A flag given as the last token makes the program read past the end of the
  argument vector and panic (`src/main.rs:71`, `74`, `77`). The model returns
  `MissingValue(flag)`.
- A data document whose root is not a table makes `as_table().unwrap()`
  panic (`src/main.rs:39`). The model returns `DataNotTable`.

`Usage` stands for printing the usage line and `exit(-1)` (`src/main.rs:84-87`).
Errors from the collaborators are carried as `Failed(message)`. The template
diagnostic is prefixed with the program's own text
`failed to parse template file:`. The code compiles the template (line 34)
before it loads the data file (line 38), so a bad template is reported even
when the data file is also bad. `Prepare` keeps that order.

## Model

| member | source | states |
|---|---|---|
| Args.Scan | src/main.rs:67-87 | On success the template path is non-empty, is not a flag, and is one of the scanned tokens; variable names already set stay defined. Every failure is either the usage failure or a missing value for a flag that is the last token. |
| Args.LoadArgs | src/main.rs:60-94 | A successful parse has a non-empty template path taken from the arguments after the program name. With no arguments after the program name the result is the usage failure. |
| Args.ScanArgv | src/main.rs:60-94 | A cursor loop shaped like the source's (it starts at 1 and uses `break` at the first positional token), with a bounds check on a flag's value that the source lacks, computes exactly `LoadArgs` on every argument vector. |
| Args.ProgramNameIgnored | src/main.rs:62 | Index 0 is never interpreted: replacing the program name does not change the result. |
| ArgGrammar.LastValueOf | src/main.rs:70-75 | Reference for `-o`/`-d`: there is no value exactly when no pair carries the flag. Otherwise the value belongs to a pair with that flag and no later pair carries it (last write wins). |
| ArgGrammar.VarsOf | src/main.rs:76-78 | Reference for `-v:`: a name is defined exactly when some pair's flag is `-v:` followed by that name. Its value is that of the last such pair. |
| ArgGrammar.VarFlagRoundTrip | src/main.rs:76-77 | The variable name is the token without its first three characters, so the empty name is allowed. `-v:` plus the name rebuilds the token. |
| ArgGrammar.LastValueOfCons | src/main.rs:70-75 | Putting a pair in front of a run changes the last value only when the run never sets that flag. |
| ArgGrammar.VarsOfCons | src/main.rs:76-78 | Putting a `-v:` pair in front of a run adds its binding, and every later pair overrides it. |
| ArgGrammar.ScanOverPairs | src/main.rs:67-78 | Scanning a run of flag/value pairs leads to the state whose paths are the last values given and whose variables are the earlier ones overridden by the run's `VarsOf`. |
| ArgGrammar.LeadingPairs | src/main.rs:67-83 | The arguments start with a run of flag/value pairs. After it comes nothing, a non-flag token, or a flag that is the last token. |
| ArgGrammar.LoadArgsCharacterised | src/main.rs:60-94 | After the leading pairs, nothing means usage failure and a flag means a missing value. An empty token means usage failure. Any other token is the template, with the reference paths and variables. |
| ArgGrammar.FirstPositionalStops | src/main.rs:79-82 | The first non-flag token after flag/value pairs is the template. The result does not depend on any token after it. |
| ArgGrammar.AllFlagsIsUsage | src/main.rs:84-87 | Arguments that are only complete flag/value pairs give the usage failure. |
| ArgGrammar.DanglingFlagIsMissingValue | src/main.rs:70-78 | A flag that is the last token gives `MissingValue` for that flag. |
| ArgGrammar.SuccessShape | src/main.rs:67-93 | Every successful parse splits the arguments into flag/value pairs, the template token, and trailing tokens. Every flag had its value token, and the fields are the reference values. |
| ArgGrammar.LaterFlagWins | src/main.rs:70-78 | A flag repeated at the end of the pairs overrides every earlier occurrence: `-o`/`-d` set their path, and `-v:NAME` sets `NAME`. |
| Context.MergeContext | src/main.rs:36-46 | It fails exactly when a data root is present and is not a table. The context keys are the data keys plus the variable keys. Each variable maps to its string, and each data key without a variable keeps its value. |
| Context.NoDataIsVarsOnly | src/main.rs:44-46 | Without a data file the context is exactly the variables, as strings. |
| Context.DisjointMergeKeepsEverything | src/main.rs:37-46 | When the keys are disjoint, every data entry survives unchanged and the context's size is the sum of both sizes. |
| Context.InsertEntries | src/main.rs:40-42 | Inserting the table's entries one by one, in any order, yields the table. |
| Context.InsertVars | src/main.rs:44-46 | Inserting the variables one by one, in any order, overwrites exactly their keys with their strings. |
| Context.AssembleContext | src/main.rs:36-46 | The insertion sequence of the source, under any iteration order, equals `MergeContext`. |
| Execute.Prepare | src/main.rs:29-46 | A scan failure is returned before any collaborator is used. A template diagnostic becomes `failed to parse template file:` followed by the diagnostic. Without `-d`, a valid invocation whose template compiles succeeds with exactly the variables, as strings. With `-d`, a load failure is returned as is, and a non-table root gives `DataNotTable`. Otherwise the context keys are the table keys plus the variable keys, and table entries without a variable keep their values. Every variable is a string in the context. |
| Execute.NoArgumentsIsUsage | src/main.rs:60-87 | With no arguments, the result is the usage failure whatever the collaborators do. |
| Execute.InlineVariableScenario | src/main.rs:29-46 | `-v:name World template.txt` gives a context of only `name` bound to the string `World`. |
| Execute.OverrideBeatsDataScenario | src/main.rs:36-46 | Data `title = "Report"` and `-v:title Override` give `title` bound to `Override`. |
| Execute.NonTableRootScenario | src/main.rs:37-39 | A data document whose root is not a table gives `DataNotTable`. |

## Left out

- Reading and parsing the data file (`load_config`, `src/main.rs:100-109`): this is file I/O plus the `toml` crate. The model takes the loader as a parameter returning a parsed `Value` or a message error (`Failed`).
- TOML floats and datetimes are not variants of `Value`. The merge never looks inside values, so they behave like any other entry.
- Template compilation and rendering with `tera` (`src/main.rs:33-35`, `47-48`): this is an external engine. Compilation is a parameter returning a diagnostic. Rendering and its `failed to render template file:` error are not modelled.
- How `tera::Context::insert` serialises values: the model stores data values unchanged and overrides as `Str`.
- Writing the output file or standard output (`src/main.rs:49-56`), `print_usage`, `exit(-1)`, and `main` printing the error and exiting with status 0 (`src/main.rs:23-27`): this is process I/O and exit status.
- The `AppError` message texts of the collaborators: they are carried opaquely in `Failed(message)`.
- Hash-map iteration order: `InsertEntries` and `InsertVars` pick keys in an arbitrary order and are proved correct for every order.
