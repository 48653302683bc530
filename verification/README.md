# tagsinate driver core, in Dafny

tagsinate runs Universal Ctags once for each job of a resolved configuration.
All runs write into one temporary tags file. This project models three pieces
of the driver in `src/main.rs`:

- **The ctags argument vector** (`run_ctags`).
  - It starts with `-o <output file>` and ends with the job's path.
  - In between come the options that the job's fields switch on, in a fixed order:
    - `--languages=`, `--langmap=` and `--extras=`;
    - `--append` and `--recurse`;
    - one `-D` per define;
    - `--exclude=` and `--exclude_exception=`.
- **The job loop.**
  - Jobs are run in list order, once each.
  - The first job runs without `--append`. Every later job runs with it.
- **The "Parsing ..." label.**
  - A relative config name found `n` directories up is shown behind `n` copies of `..`.
  - An absolute name is shown as the located file.

Modules:

| file | module | contents |
|---|---|---|
| `options.dfy` | `Options` | the `Option` type |
| `strings.dfy` | `Strings` | prefix and index helpers on strings |
| `jobs.dfy` | `Jobs` | the resolved `Job` record that `run_ctags` reads |
| `ctags_args.dfy` | `CtagsArgs` | `BuildArgs` (the vector `run_ctags` pushes), a classifier of arguments by option kind, and the occurrence, order and length properties |
| `args_parse.dfy` | `CtagsArgsParse` | a reference reader `ParseArgs` that recovers the output file, the append flag and the job from a vector; it is proved inverse to `BuildArgs` |
| `job_loop.dfy` | `JobLoop` | the loop as a method that plans the ctags calls, and an abstract tags-file model that shows what the calls leave behind |
| `display_path.dfy` | `DisplayPath` | the label, with `PathBuf::push` modelled for Unix paths |

## Model

| member | source | states |
|---|---|---|
| CtagsArgs.BuildArgs | src/main.rs:42-76 | The vector's length is 3, plus the number of optional string fields that are set, plus one for append, plus one for recurse, plus the number of defines. It starts with `-o` and the output file, and it ends with the job's path. Everything in between is the option arguments. |
| CtagsArgs.ValuedOptionOccurrence | src/main.rs:45-75 | Between the output file and the path, each valued option occurs exactly once, as marker plus value, when its field is `Some`. It does not occur when the field is `None`. The valued options are `--languages=`, `--langmap=`, `--extras=`, `--exclude=` and `--exclude_exception=`. |
| CtagsArgs.SwitchOccurrences | src/main.rs:54-59 | `--append` occurs once when append is true and never otherwise. `--recurse` occurs once when the job recurses and never otherwise. Both directions of each iff are stated. |
| CtagsArgs.AppendIff | src/main.rs:54-56 | `--append` is among the options exactly when the call is in append mode. |
| CtagsArgs.DefineOccurrences | src/main.rs:60-66 | There is one `-D` argument per define, in the order of the job's list. Define `i` is rendered as `-Dsym='def'` when it has a definition and as `-Dsym` when it has none. No argument between the output file and the path is unrecognised. |
| CtagsArgs.OptionOrder | src/main.rs:45-75 | The options appear group by group, in the order languages, langmap, extras, append, recurse, defines, exclude, exclude-exception. No group ever goes back to an earlier one. |
| CtagsArgs.RegionByKind | src/main.rs:45-75 | For every option kind, the arguments of that kind are exactly the group its field produces. Every other kind contributes nothing. |
| CtagsArgs.SpellingDeterminesKind | src/main.rs:46-74 | The option markers do not overlap: an argument spelled as an option of one kind is classified as that kind. |
| CtagsArgsParse.ParseArgs | src/main.rs:42-76 | When the reader accepts a vector, building from what it read gives back that same vector. No define symbol in the job it returns holds `=` directly followed by `'`. |
| CtagsArgsParse.ParseBuildRoundTrip | src/main.rs:42-76 | Reading the vector built for any job whose define symbols never hold `=` directly followed by `'` gives back the output file, the append flag and the job. |
| CtagsArgsParse.DefineAmbiguity | src/main.rs:60-66 | The define rendering does no escaping. The symbol `A='b'` without a definition and the symbol `A` with definition `b` produce the same vector. So the round trip needs its requirement. |
| CtagsArgsParse.EqualsInSymbolRoundTrip | src/main.rs:60-66 | A symbol may contain `=` when no `'` follows it: the job with the single define `FOO=1` is read back unchanged from its vector. |
| CtagsArgsParse.ParseDefine | src/main.rs:61-65 | A `-D` body the reader accepts renders back to itself. The body is cut at its first `='`, so the symbol holds no `='`. |
| CtagsArgsParse.TakeDefines | src/main.rs:60-66 | A run of `-D` arguments is read as defines that render back to exactly that run. |
| JobLoop.PlanJobs | src/main.rs:173-176 | There is one call per job, in list order, with the same binary and output file. Job `i` gets `--append` if and only if `i > 0`, and each call indexes its job's path. Whatever the tags file held before, it ends up holding the jobs' paths in list order. |
| JobLoop.RunsShape | src/main.rs:173-176 | Any call list shaped like the loop's has those properties: it appends exactly after the first call, and it targets each job's path. |
| JobLoop.TagsHoldAllJobs | src/main.rs:173-176 | Calls in which only the first leaves out `--append` leave exactly their targets, in order, in the tags file. |
| JobLoop.AppendingRuns | src/main.rs:54-56 | Runs that all append add their targets, in order, after the file's previous content. |
| DisplayPath.ParsingLabel | src/main.rs:103-113 | For an absolute config name the label is the located path. Otherwise it is `ancestorCount` copies of `../` followed by the name. |
| DisplayPath.UpChainStep | src/main.rs:108-110 | Pushing `..` onto the chain of `n` parent steps gives the chain of `n + 1`. |
| DisplayPath.UpChainThen | src/main.rs:111 | Pushing a relative name onto the chain of `n` parent steps gives `n` copies of `../` and then the name. |
| DisplayPath.LabelShape | src/main.rs:107-111 | In a relative label, each of the first `ancestorCount` three-character blocks is `../`, and the rest is the config name unchanged. |

## Left out

- `config::parse` and `config::Job` (`src/main.rs:40`, `src/main.rs:116`) are the configuration loader. It is not modelled, and jobs are taken as already resolved.
- `src/args.rs` (`args::parse`, `src/main.rs:91`): a wrapper around the `clap` command-line library.
- `find_config_file` and `find_file_in_ancestors` (`src/main.rs:15-34`): both query the file system.
  - The located path and the ancestor count they return are parameters of `ParsingLabel`.
- File system effects in `main`:
  - changing the working directory;
  - `set_extension("tagsinate")`;
  - removing and renaming the tags files;
  - the `[ok]` / `[fail]` messages.
- Process work in `run_ctags`:
  - spawning ctags and the "failed to start" panic;
  - relaying its output;
  - echoing the command line.
  - `PlanJobs` returns the calls instead of making them.
- `OsString` is modelled as a string of characters. Paths are Unix paths: `Push` follows `PathBuf::push` with `/` as the only separator, and Windows prefixes are not modelled.
- JobLoop.TagsAfter is an abstraction of ctags' behaviour: a run without `--append` rewrites the tags file and a run with it adds to the file. Each run's contribution is represented by its target path. The tag contents are not modelled. The abstraction also assumes two things the driver does not check:
  - every ctags run succeeds and writes its target; `run_ctags` never looks at the exit status (`src/main.rs:79-84`), so a failed run leaves the file short of that job's tags;
  - ctags reads the last argument as the path to index; no `--` precedes it (`src/main.rs:76`), so a path spelled like an option (say `--append`) would be read as that option instead.
- CtagsArgs.ValuedOptionOccurrence, CtagsArgs.SwitchOccurrences and CtagsArgs.DefineOccurrences speak about the options between the output file and the path. The output file and the path are free text, so they may themselves be spelled like an option.
- CtagsArgsParse.ParseBuildRoundTrip requires that no define symbol contains `=` directly followed by `'`. That pair is what makes the rendering ambiguous (`DefineAmbiguity`). A symbol such as `FOO=1` is allowed and round-trips (`EqualsInSymbolRoundTrip`).
- How ctags interprets the literal single quotes in `-Dsym='def'` is not modelled. No shell is involved, so the quotes reach ctags unchanged.
