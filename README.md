# RecSysCarbonFootprint utilities, modelled in Dafny

The experiment harness of RecSysCarbonFootprint hands training, tuning and
energy measurement to external libraries. What it computes itself is a
handful of small sequential helpers, and this project models and proves
them:

- **Folder bootstrapper** (`create_folders`, module `FileSystem`): it makes
  sure that `root/dataset` and `root/dataset/model` exist for every
  combination. The file system is a set of directory paths. `mkdir(parents=True)`
  also adds the missing ancestors. The class `FileSystem.FileSystem` runs the
  three nested loops in place.
- **Result accumulator** (`write_dict_to_csv`, module `FileSystem`): a CSV
  file is an append-only sequence of rows, and the files are a map from path
  to rows. A record is a dict given as its items in insertion order, with
  each value already rendered as a CSV field.
- **Grid-size counter** (`get_total_iterations`, module `GridSearch`): the
  file is given as its lines. Each line is stripped with Python's whitespace
  set and split on single spaces. Lines with fewer than three tokens are
  skipped. The other lines contribute one factor each, and `reduce` multiplies
  the factors. Python's `eval` is a parameter `card`: it gives either the
  length of the evaluated range expression or "raises".
- **Model-type classifier** (`get_model_type`, module `ModelType`): a
  case-sensitive membership test against the ten knowledge-graph models.
- **Cache cleaner** (`src/clear_cache.py`, module `ClearCache`):
  `clear_cache` deletes every entry of a folder except `.gitignore`. Each
  failed deletion produces a warning and the loop goes on. The
  `__main__` dispatch is lifted into `Dispatch`, a function from the argument
  list to `Usage`, `Conflict` or the ordered list of folders to clear.
  The class `ClearCache.CacheArea` holds the folder listings and runs the
  loops in place. Which deletions the operating system refuses is the
  parameter `denied`.
- `PosixPath` holds `os.path.join` and the ancestors that `mkdir(parents=True)`
  creates.

Two behaviours of the code worth stating:

- `get_total_iterations` on a file with no qualifying line does not return 1.
  `reduce` is called without an initial value, so it raises (`EmptyReduce`).
- The cache-clearing script does not always exit with status 0. `os.listdir`
  on a folder that does not exist raises `FileNotFoundError`, nothing catches
  it, and the run stops there (`Exit.Uncaught`). In the model the status is 0
  exactly when every selected folder exists; see "## Left out" for the other
  errors of `os.listdir`.

## Model

| member | source | states |
|---|---|---|
| PosixPath.JoinSpec | src/utils.py:31 | `os.path.join(a, b)` ends with `b`; it starts with `a` unless `b` is absolute, and an absolute `b` is the whole result |
| PosixPath.JoinHasParent | src/utils.py:35-37 | joining a relative name onto a directory inserts one separator and makes that directory an ancestor of the result, so `mkdir(parents=True)` on `f/d/m` also creates `f/d` |
| ModelType.GetModelType | src/utils.py:155-165 | the result is `'knowledge'` or `'general'`, and it is `'knowledge'` iff the name is one of the listed models |
| ModelType.TenKnowledgeModels | src/utils.py:164 | the list holds exactly ten distinct names |
| ModelType.CaseSensitive | src/utils.py:164-165 | matching is exact: `KGAT` and `RippleNet` are knowledge models, `kgat`, `ripplenet` and `BPR` are general ones |
| FileSystem.EnsureAllGrows | src/utils.py:29-37 | ensuring a sequence of directories never removes an existing one |
| FileSystem.EnsureAllContains | src/utils.py:32-33 | after ensuring a sequence of paths, every one of them is a directory |
| FileSystem.EnsureAllNoop | src/utils.py:32 | when every requested path is already a directory, nothing changes |
| FileSystem.EnsureAllIdempotent | src/utils.py:32-37 | ensuring the same paths a second time leaves the directory set unchanged |
| FileSystem.EnsureAllBounded | src/utils.py:33 | only the requested paths and their ancestors are ever added |
| FileSystem.TargetsCover | src/utils.py:29-37 | for every root `f` and dataset `d`, `f/d` is among the paths the loops check, and so is `f/d/m` for every model `m` |
| FileSystem.CreateFoldersLayout | src/utils.py:29-37 | afterwards every old directory still exists, every added one is a target or a target's ancestor, `f/d` exists for every root and dataset even without models, and `f/d/m` exists for every combination |
| FileSystem.FileSystem.CreateFolders | src/utils.py:14-37 | the new directory set is the old one after ensuring the targets in loop order, the CSV files are unchanged, and the layout of `CreateFoldersLayout` holds |
| FileSystem.FileSystem.CreateDatasetFolders | src/utils.py:30-37 | the dataset loop under one root ensures `f/d` and then each `f/d/m`, in order |
| FileSystem.FileSystem.CreateModelFolders | src/utils.py:34-37 | the model loop ensures `base/m` for each model, in order |
| FileSystem.FileSystem.WriteDictToCsv | src/utils.py:57-73 | an absent file becomes exactly two rows, the keys then the values in dict order; an existing file gains one values row; nothing else changes |
| FileSystem.WriteAllOnlyPath | src/utils.py:65-73 | repeated writes to one path leave every other file as it was |
| FileSystem.WriteAllAppends | src/utils.py:65-68 | on an existing file, n writes append n values rows in call order and the earlier rows never change |
| FileSystem.WriteAllFresh | src/utils.py:65-73 | from an absent file, n >= 1 writes give n + 1 rows: the keys of the first record, then the values of each record in call order |
| FileSystem.LaterKeysIgnored | src/utils.py:65-68 | the keys of every record after the one that created the file are never looked at |
| GridSearch.StripSpec | src/utils.py:98 | `strip()` is the infix left after cutting whitespace from both ends, and it neither starts nor ends with whitespace |
| GridSearch.SplitShape | src/utils.py:98 | `split(" ")` yields one token more than there are spaces, and no token holds a space |
| GridSearch.JoinSplit | src/utils.py:98 | joining the tokens with single spaces gives the line back |
| GridSearch.SplitJoin | src/utils.py:98 | splitting space-free tokens joined by single spaces gives them back |
| GridSearch.EvalAllSpec | src/utils.py:97-101 | the lengths are collected iff every range expression evaluates, and then they are its cardinalities in file order; a failure names the first expression that raised |
| GridSearch.ProductZeroIff | src/utils.py:102 | the product of the lengths is 0 iff one of them is 0 |
| GridSearch.SkippedLineIgnored | src/utils.py:99-100 | a line with fewer than three tokens changes nothing, wherever it stands |
| GridSearch.EmptyReduceIff | src/utils.py:102 | the counter raises from `reduce` iff no line qualifies; it never returns 1 for such a file |
| GridSearch.TotalSpec | src/utils.py:101-102 | a total is returned iff some line qualifies and every range evaluates, and it is 0 iff some range is empty |
| GridSearch.EvalErrorSpec | src/utils.py:101 | an evaluation error names a range expression of the file that raised, and every qualifying line before it evaluated |
| GridSearch.ThreeRanges | src/utils.py:101-102 | three declared ranges of sizes a, b and c give a * b * c grid points |
| GridSearch.FailureSticks | src/utils.py:101 | once an expression has raised, later lines are never evaluated |
| GridSearch.GetTotalIterations | src/utils.py:88-102 | the loop's outcome is the specification `TotalIterations` of the file's lines |
| GridSearch.Reduce | src/utils.py:102 | the left fold of `*` from the first element is the product, and it is 0 iff some factor is |
| ClearCache.RemainingSpec | src/clear_cache.py:7-16 | an entry is left iff it is `.gitignore`, is neither file, link nor directory, or its deletion failed |
| ClearCache.GitIgnoreKept | src/clear_cache.py:8 | a `.gitignore` entry is never deleted |
| ClearCache.NoFailuresClears | src/clear_cache.py:9-14 | without failures only `.gitignore` and entries that are neither file, link nor directory are left |
| ClearCache.WarningsSpec | src/clear_cache.py:10-16 | a warning is printed for each failed deletion and only for those, naming the entry's joined path |
| ClearCache.RemainingIdempotent | src/clear_cache.py:6-16 | clearing a folder again with the same failures deletes nothing more |
| ClearCache.CacheArea.ClearCache | src/clear_cache.py:6-17 | the folder's listing becomes `Remaining` of the old one and the warnings are `Warnings`; a missing folder changes nothing and is reported |
| ClearCache.FlagValueSpec | src/clear_cache.py:34 | each flag value is the argument without its first two characters, whatever they are; an argument of at most two characters gives the empty value |
| ClearCache.DispatchKind | src/clear_cache.py:21-37 | no argument gives the usage text; `all` together with any other argument, itself included, is a conflict that carries the values |
| ClearCache.SelectionSpec | src/clear_cache.py:38-53 | outside a conflict the folders are cleared in the fixed order, each at most once, and a folder is cleared iff its own flag or `all` was given |
| ClearCache.DispatchClears | src/clear_cache.py:34-53 | the same property, stated on the command-line arguments |
| ClearCache.AllAloneClearsEverything | src/clear_cache.py:48-53 | `--all` alone clears `log`, `log_tensorboard`, `results`, `results_shared` and `saved`, in that order |
| ClearCache.ResultsClearsShared | src/clear_cache.py:43-45 | `--results` clears `results` and then `results_shared` |
| ClearCache.OrderIrrelevant | src/clear_cache.py:39-53 | when two argument lists both lead to clearing, only which values were given matters, not their order or repetition |
| ClearCache.UnknownIgnored | src/clear_cache.py:39-47 | an unknown flag is ignored when `all` is absent |
| ClearCache.ClearEachExit | src/clear_cache.py:39-54 | the folder set is unchanged in shape; the run ends with status 0 iff every folder it visits exists, and otherwise it stops at the first missing one |
| ClearCache.ClearEachKeepsGitIgnore | src/clear_cache.py:8 | every `.gitignore`, in every folder, survives the whole run |
| ClearCache.Visited | src/clear_cache.py:39-53 | the folders a run reaches are the longest prefix of its list whose folders exist, and the run dies at the next one if there is one |
| ClearCache.ClearEachEffect | src/clear_cache.py:39-53 | after a run, every folder it reached holds what `clear_cache` leaves of its own old listing, and every other folder keeps its listing |
| ClearCache.ClearEachFrame | src/clear_cache.py:39-53 | a folder the run does not name keeps its listing |
| ClearCache.ClearEachClearsAll | src/clear_cache.py:39-53 | when every folder of the run exists, each of them holds what `clear_cache` leaves of its old listing, even if it is named twice |
| ClearCache.RunClearsSelected | src/clear_cache.py:34-53 | when every selected folder exists, each cache folder is cleared iff its own flag or `all` was given, and every folder not selected keeps its listing |
| ClearCache.RunExitStatus | src/clear_cache.py:20-54 | usage and conflict leave the folders untouched and exit 0; a clearing run exits 0 iff every selected folder exists |
| ClearCache.CacheArea.Run | src/clear_cache.py:20-54 | running the script changes the folders, the warnings and the exit as `RunScript` says |
| ClearCache.CacheArea.ClearFolders | src/clear_cache.py:39-53 | the `clear_cache` calls run in order and an uncaught error from a missing folder ends the run |

## Left out

- `get_device`, `get_date_time` and `get_ds_statistics` in `src/utils.py`: they depend on torch backend queries, the wall clock, and pandas CSV reading with a floating-point sparsity.
- `src/tuning_tracker.py`, `src/default_tracker.py` and the two configuration modules are not part of this model. They drive RecBole and codecarbon, or hold static configuration data.
- Python's `eval` in `get_total_iterations` is not interpreted. The cardinality of a range expression, or the error it raises, is the parameter `card`.
- Opening and reading the `.hyper` file is left out. The file is given as its lines, so an unreadable file is not modelled.
- CSV quoting and escaping, file encodings and the rendering of values as text are left out. A row is a sequence of already rendered fields.
- File-system errors in `create_folders` and `write_dict_to_csv` (permissions, a missing parent, a regular file where a directory is wanted) are left out. The file system is a set of directories and a map of CSV files.
- `os.listdir` order is not modelled: a folder's listing is any sequence of entries.
- ClearCache.RunExitStatus, ClearCache.ClearEachExit and ClearCache.CacheArea.ClearCache: the only `os.listdir` error modelled is a missing folder. A folder in the map can always be listed, so a permission error or a path that is not a directory, which also end the run uncaught, are not modelled.
- Paths are compared as spelled, not normalised. `os.path.isdir` and `Path.mkdir` treat `f/d/`, `f//d` and `f/./d` as `f/d`; the model treats them as different directories. So `EnsureAllNoop`, `EnsureAllIdempotent` and the ancestors added by `Ensure` are exact only for names that hold no `/`, are not empty and are not `.` or `..`.
- Why a deletion fails is not modelled. The set `denied` of joined paths whose deletion raises is a parameter, and a directory's deletion either removes the whole entry or fails.
- The console output of `src/clear_cache.py` is left out: the coloured usage table, the conflict message and the "successfully deleted" line. The warnings are kept as the list of paths they name.
