# python-space-builder, modelled in Dafny

python-space-builder is a set of small command-line scripts that scaffold
practice directories under a project root. A practice directory holds an
`__init__.py` and numbered files `<dir>01.py`, `<dir>02.py`, and so on. The
scripts also report which `.py` files a directory holds.

Three code paths come back again and again across the scripts:

- **Parsing the `--dirnames` argument.** The argument is either one of the
  sentinels `none` and `all`, or a comma-separated list of names. There are
  three `convert` variants, and they disagree with each other.
- **Idempotent scaffolding.** Create a directory or file if it is absent, and
  report "exists" or "is created" either way.
- **Read-only reporting.** Count and list a directory's `.py` files.

This project models the following seven parts:

| part | source | module |
|---|---|---|
| `ListParam.convert` | `code/param_of_list.py` | `ParamOfList` |
| `TupleParam`, `FileChecker`, `FileMaker`, `check_files`, `make_files` | `cli/fmake.py` | `Fmake` |
| the older `TupleParam`, `dir_manager` and `echo_files` | `cli/file_maker.py` | `FileMakerCli` |
| `PracBuilder` | `code/practice_buidler.py` | `PracticeBuilder` |
| `PracChecker` | `code/practice_checker.py` | `PracticeChecker` |
| `PathManager` | `code/path_manager.py` | `PathManagement` |
| `count_logfile` and the log-file name | `code/loggers.py` | `Loggers` |

The filesystem is abstract. It is a map from absolute paths (lists of names,
`[]` being `/`) to `Dir` or `File`, in module `Fs`. The other modules are
shared helpers:

- `Fs`: `mkdir`, `touch` and `iterdir`.
- `Text`: Python's `strip`, `lower`, `split` and `join`.
- `Ordering`: `sorted` on strings.
- `Decimal`: the `:02d` and `:03d` formats.
- `Seqs`: comprehensions over sequences.

The modules take two forms:

- **Pure code.** The converters, `get_dirs*` and `PracChecker` are functions,
  with lemmas about them.
- **Code that changes state.** `mkdir`, `touch`, the `FileChecker` field and
  the `PathManager` field are `class` members with `modifies` clauses. Each
  such member is proved equal to a specification function (`MkdirSpec`,
  `SetupDirSpec`, `MakeFilesSpec`, `SetupAll`), and the source's promises are
  proved as lemmas about that function.
- **Loops.** `make_py_files_in_total`, `search_py_files`, `check_files`,
  `echo_files`, `get_dirpath` and `count_logfile` keep their loops, with loop
  invariants.

Python exceptions become values:

- `Err`/`Fail` carry one of `FileExistsError`, `FileNotFoundError`,
  `NotADirectoryError`, `TypeError`, `RuntimeError`, or `BadParameter`
  (raised by `click`'s `self.fail`).
- The order in which `iterdir`/`scandir`/`glob` enumerate a directory is
  unspecified. A pure function takes that listing as a parameter, constrained
  by `Fs.Listing`. A method obtains one from `Fs.IterDir`.

The project root is a parameter everywhere. `code/practice_buidler.py`,
`code/practice_checker.py` and `code/param_of_list.py` call `project_root()`
without importing it.

## Model

| member | source | states |
|---|---|---|
| ParamOfList.DirnamesEndswithPrac | code/param_of_list.py:10-15 | `get_dirnames_endswith_prac`: the names of the root's entries that are directories ending in `_prac`, in listing order; its contract is the lemma below |
| ParamOfList.DirnamesEndswithPracExact | code/param_of_list.py:10-15 | the `_prac` listing succeeds exactly when the root is a directory, and then holds every subdirectory name ending in `_prac` once and nothing else |
| ParamOfList.Convert | code/param_of_list.py:17-30 | `ListParam.convert`: strip, then the `none` and `all` sentinels, then the sorted stripped pieces (no input reaches `self.fail`); its contract is the lemmas ConvertNone, ConvertAll, ConvertSplit, ConvertSplitOrderInsensitive and ConvertKeepsEmptyPieces |
| ParamOfList.ConvertNone | code/param_of_list.py:18-20 | a value that is `none` after trimming, in any case, gives `[]` |
| ParamOfList.ConvertNoneExample | code/param_of_list.py:18-20 | `"  NONE "` gives `[]` |
| ParamOfList.ConvertAll | code/param_of_list.py:21-22 | `all` after trimming, in any case, gives exactly the root's `_prac` subdirectory names, each once; a root that is not a directory raises the `iterdir` error |
| ParamOfList.ConvertSplit | code/param_of_list.py:23-28 | that result is sorted, is a permutation of the stripped pieces, has one element per comma plus one, is never empty, and every element is trimmed |
| ParamOfList.SortedPiecesTrimmed | code/param_of_list.py:25 | every element of the sorted pieces has no leading or trailing whitespace |
| ParamOfList.ConvertSplitOrderInsensitive | code/param_of_list.py:25 | two values whose pieces are permutations of each other convert to the same list |
| ParamOfList.BlankCommaStrips | code/param_of_list.py:18-25 | `" , "` trims to `","`, which is no sentinel, and whose pieces are two empty strings |
| ParamOfList.ConvertKeepsEmptyPieces | code/param_of_list.py:25-27 | as written, `" , "` converts to `["", ""]`: the guard on an empty result never fires |
| ParamOfList.ConvertDroppingEmptySplit | code/param_of_list.py:25-27 | corrected, the result is sorted and is a permutation of the non-empty stripped pieces |
| ParamOfList.ConvertDroppingEmptyNames | code/param_of_list.py:25-27 | corrected, every returned name is non-empty and trimmed |
| ParamOfList.ConvertDroppingEmptyEmpty | code/param_of_list.py:25-27 | corrected, the result is `[]` exactly when every piece is blank |
| ParamOfList.SortedNonEmpty | code/param_of_list.py:25-27 | sorting the non-empty trimmed pieces keeps them non-empty and trimmed, and leaves nothing exactly when every piece is empty |
| ParamOfList.SortedNonEmptyPieces | code/param_of_list.py:25-27 | the same, for the pieces of a value |
| ParamOfList.ConvertDroppingEmptyBlank | code/param_of_list.py:25-27 | corrected, `" , "` gives `[]` |
| Text.Strip | code/param_of_list.py:18 | `strip()` never lengthens a string and leaves neither leading nor trailing whitespace |
| Text.LStripRemovesLeadingSpace | code/param_of_list.py:18 | `lstrip()` removes a whitespace prefix and nothing else |
| Text.RStripRemovesTrailingSpace | code/param_of_list.py:18 | `rstrip()` removes a whitespace suffix and nothing else |
| Text.StripEmpty | cli/fmake.py:45 | a piece strips to `""` exactly when it is all whitespace |
| Text.Lower | code/param_of_list.py:19-21 | `lower()` keeps the length and lowers each character, so a string lowers to `none` exactly when it is `none` in some mix of cases, and likewise for `all` |
| Text.Split | cli/file_maker.py:12 | `split(",")` gives one piece more than there are commas, none of them containing a comma |
| Text.Pieces | code/param_of_list.py:25 | the stripped pieces are one more than the commas |
| Text.PiecesTrimmed | code/param_of_list.py:25 | every stripped piece is trimmed |
| Text.JoinSplit | cli/file_maker.py:12-13 | joining the pieces of a split with the separator gives back the string |
| Text.SplitJoin | code/practice_checker.py:31 | splitting a join of separator-free pieces gives back the pieces |
| Ordering.Sort | code/param_of_list.py:25 | `sorted` returns a sorted permutation of its input |
| Ordering.InsertSorted | code/param_of_list.py:25 | inserting into a sorted list keeps it sorted |
| Ordering.LexLeTotal | code/param_of_list.py:25 | any two strings are comparable |
| Ordering.LexLeTransitive | code/param_of_list.py:25 | string order is transitive |
| Ordering.LexLeAntisymmetric | code/param_of_list.py:25 | strings that are each at most the other are equal |
| Ordering.SortedUnique | code/practice_checker.py:31 | two sorted permutations of each other are equal |
| Ordering.SortPermutationInvariant | code/param_of_list.py:25 | `sorted` depends only on the elements, not on their order |
| Decimal.Decimal | cli/fmake.py:102 | `str(n)` is a non-empty string of digits |
| Decimal.DecimalNoLeadingZero | cli/fmake.py:102 | `str(n)` starts with `0` exactly when `n` is zero, and then it is `"0"` |
| Decimal.Padded | code/practice_checker.py:21 | `f"{n:02d}"` is all digits and exactly as long as `str(n)` or the width, whichever is greater |
| Decimal.PaddedShape | code/practice_checker.py:21 | `f"{n:02d}"` ends in `str(n)` with only zeros before it |
| Decimal.ValueOfPadded | code/practice_buidler.py:33 | reading the padded digits back gives the number |
| Decimal.PaddedInjective | code/practice_buidler.py:33 | distinct numbers are formatted differently |
| Decimal.PaddedSingleDigit | code/practice_checker.py:21 | a number below ten is written as a zero and its digit |
| Fs.MkdirSpec | cli/fmake.py:84 | `Path.mkdir(exist_ok)`: raises `FileExistsError` on an existing entry unless `exist_ok` and it is a directory, raises on a parent that is not a directory, and otherwise adds a directory; its contract is Fs.MkdirExistOkIdempotent and the lemmas about the steps built on it |
| Fs.TouchSpec | code/practice_buidler.py:24 | `Path.touch()`: keeps an existing entry, adds a file when the parent is a directory, raises otherwise; its contract is PracticeBuilder.SetupInitFileEffect and MakeFileStepEffect |
| Fs.JoinName | cli/fmake.py:16 | `root / name` has the root as parent and the name as name; an empty name leaves the root |
| Fs.MkdirExistOkIdempotent | cli/fmake.py:82-84 | `mkdir(exist_ok=True)` succeeds exactly when a directory is left at the path; it changes no entry but that one; a second call changes nothing and completes as the first did |
| Fs.FileSystem.Mkdir | cli/fmake.py:84 | `mkdir` updates the filesystem in place as `MkdirSpec` says |
| Fs.FileSystem.Touch | code/practice_buidler.py:24 | `touch` updates the filesystem in place as `TouchSpec` says |
| Fs.IterDir | code/practice_checker.py:19 | `iterdir` enumerates the directory's contents, each once |
| Fs.PyFileFilter | code/practice_checker.py:19 | filtering a listing with `is_file() and suffix == ".py"` enumerates the `.py` regular files, each once |
| Fs.PyFileListingCount | code/practice_checker.py:19-20 | any such enumeration has as many entries as there are `.py` regular files |
| Fs.PyFileListingPermutation | code/practice_checker.py:28 | two such enumerations differ only in order |
| Fs.ContentNamesNoDup | code/param_of_list.py:14 | distinct entries of a directory have distinct names |
| Fs.ListingFilterCount | code/loggers.py:10-11 | counting the matching entries of a listing counts the matching contents |
| Fmake.ConvertDirnameToDirpath | cli/fmake.py:13-16 | `root / dirname` appends a name and is replaced by an absolute path |
| Fmake.GetDirs | cli/fmake.py:25-28 | `get_dirs`: the root's entries that are directories, in listing order; its contract is the lemma below |
| Fmake.GetDirsExact | cli/fmake.py:25-28 | `get_dirs` succeeds exactly when the root is a directory, and then holds each subdirectory once |
| Fmake.GetDirsEndswithS | cli/fmake.py:30-34 | `get_dirs_endswith_s`: the root's directory entries whose names end in `s`; its contract is the lemma below |
| Fmake.GetDirsEndswithSExact | cli/fmake.py:30-34 | `get_dirs_endswith_s` succeeds exactly when the root is a directory, and then holds each subdirectory whose name ends in `s` once |
| Fmake.Convert | cli/fmake.py:36-56 | `TupleParam.convert`: strip, the `none` and `all` sentinels, then the non-empty stripped pieces joined to the root and kept when they are directories; its contract is the lemmas ConvertNone, ConvertAll, ConvertBlank, ConvertNamed and NamedResultExact |
| Fmake.ConvertNone | cli/fmake.py:37-39 | a value that is `none` after trimming, in any case, gives `None` |
| Fmake.ConvertAll | cli/fmake.py:40-41 | `all` after trimming, in any case, gives exactly the root's `s`-subdirectories, each once; with no root directory the listing raises |
| Fmake.ConvertBlank | cli/fmake.py:43-47 | a value whose pieces all strip to nothing gives `None` |
| Fmake.ChildInDirs | cli/fmake.py:49-52 | `root / name` is in the `get_dirs` listing exactly when it is a directory |
| Fmake.NamedFilter | cli/fmake.py:49-53 | filtering the paths by the listing is filtering the names by "is a directory" and then joining |
| Fmake.ConvertNamed | cli/fmake.py:43-54 | named pieces give `root / name` for each non-empty stripped piece that names an existing subdirectory, in input order with duplicates kept; an unlistable root fails the conversion |
| Fmake.NamedResultExact | cli/fmake.py:50-53 | that result holds only existing subdirectories of the root, no more entries than pieces, and every piece that names one |
| Fmake.FileChecker.constructor | cli/fmake.py:62-64 | `py_files_path` starts as `None` |
| Fmake.FileChecker.SearchPyFiles | cli/fmake.py:66-72 | `[]` for a missing path or a non-directory, with the field untouched; otherwise exactly the `.py` regular files, each once, which the field then holds |
| Fmake.FileMaker.constructor | cli/fmake.py:79-80 | the root is kept |
| Fmake.FileMaker.SetupDir | cli/fmake.py:82-84 | `setup_dir` is `mkdir(exist_ok=True)` on `root / dirname` (so idempotent, by `Fs.MkdirExistOkIdempotent`) |
| Fmake.BlockCounts | cli/fmake.py:99-104 | a directory's block has a header with the number of its `.py` files, then one line per file with that file's own path |
| Fmake.CheckFiles | cli/fmake.py:93-106 | `check_files(None)` prints nothing; otherwise it prints, in order, one block per directory from a search of that directory |
| Fmake.MakeFiles | cli/fmake.py:108-109 | `make_files` changes nothing |
| FileMakerCli.Convert | cli/file_maker.py:8-15 | the older `TupleParam.convert`: `("all",)` for `all`, otherwise `value.split(",")`; its contract is ConvertIsSplit, ConvertRoundTrip and ConvertOfJoin |
| FileMakerCli.ConvertIsSplit | cli/file_maker.py:8-13 | for every value, `all` included, the result is `value.split(",")` |
| FileMakerCli.ConvertRoundTrip | cli/file_maker.py:12-13 | joining the result with `","` gives back the value, with one piece per comma plus one |
| FileMakerCli.ConvertOfJoin | cli/file_maker.py:12-13 | comma-free pieces survive a join and a conversion unchanged |
| FileMakerCli.PyNamedFilter | cli/file_maker.py:26-33 | filtering a listing by a name ending in `.py` enumerates those entries, directories included, each once |
| FileMakerCli.PrintedPathMisplaced | cli/file_maker.py:35-37 | as written, the printed path of a file found in a named subdirectory is never that file's path |
| FileMakerCli.PrintedPathExample | cli/file_maker.py:35-37 | as written, `/a/x.py` is printed as `/x.py` |
| FileMakerCli.PrintedPathInExact | cli/file_maker.py:55-57 | corrected, the printed path is the path of the file found |
| FileMakerCli.SetupAll | cli/file_maker.py:49-51 | the setups of `echo_files`' loop in turn, stopping at the first that raises; its contract is the lemmas below |
| FileMakerCli.SetupAllEffect | cli/file_maker.py:49-51 | after the loop's setups succeed every named directory exists; existing entries are kept; every added entry is a directory at a named path |
| FileMakerCli.SetupAllCreates | cli/file_maker.py:49-51 | when the setups succeed every named directory exists |
| FileMakerCli.SetupAllFrame | cli/file_maker.py:49-51 | existing entries are kept and every added entry is a named directory |
| FileMakerCli.SetupAllIdempotent | cli/file_maker.py:22-24 | with the named directories present the setups change nothing |
| FileMakerCli.SetupAllStopsAtFailure | cli/file_maker.py:49-51 | once a setup raises, the later names are not attempted |
| FileMakerCli.DirManager.constructor | cli/file_maker.py:18-19 | the root is kept |
| FileMakerCli.DirManager.SetupDir | cli/file_maker.py:22-24 | `setup_dir` is `mkdir(exist_ok=True)` on `root / dirname` |
| FileMakerCli.DirManager.SearchPyFiles | cli/file_maker.py:26-33 | `scandir` raises on a non-directory; otherwise the result is exactly the entries whose names end in `.py`, each once, and nothing is modified |
| FileMakerCli.SelectPyNamed | cli/file_maker.py:30-32 | the loop keeps the `.py`-named entries in listing order |
| FileMakerCli.EchoFiles | cli/file_maker.py:44-57 | `("all",)` does nothing; otherwise the directories are set up in turn, stopping at the first that raises; the directories printed are exactly those whose setups all succeeded, and on failure the next one is the one that raised; each is searched right after its setup and printed, in order, with the path `print_py_file_path` prints |
| PracticeBuilder.SetupDirSpec | code/practice_buidler.py:10-17 | `setup_dir`; its contract is SetupDirEffect and SetupDirIdempotent |
| PracticeBuilder.SetupInitFileSpec | code/practice_buidler.py:19-26 | `setup_init_file`; its contract is SetupInitFileEffect and SetupInitFileIdempotent |
| PracticeBuilder.MakeFilesSpec | code/practice_buidler.py:28-41 | the first `k` iterations of `make_py_files_in_total`; its contract is MakeFilesEffect, MakeFilesFrame, MakeFilesInDirectory, MakeFilesIdempotent, MakeFilesTwice and MakeFilesStopsAtFailure |
| PracticeBuilder.SetupDirEffect | code/practice_buidler.py:10-17 | after `setup_dir` something exists at `d`; "exists" exactly when it was there before (nothing changes), "is created" exactly when a directory was added; it raises only when `d` and its parent directory are absent |
| PracticeBuilder.MessagesDiffer | code/practice_buidler.py:12-25 | the "exists" and "is created" messages differ |
| PracticeBuilder.SetupDirIdempotent | code/practice_buidler.py:11-13 | a second `setup_dir` changes nothing and reports "exists" |
| PracticeBuilder.SetupInitFileEffect | code/practice_buidler.py:19-26 | after `setup_init_file`, `d/__init__.py` exists; "exists" exactly when it was there before, "is created" exactly when it was added as a file |
| PracticeBuilder.SetupInitFileIdempotent | code/practice_buidler.py:20-22 | a second `setup_init_file` changes nothing and reports "exists" |
| PracticeBuilder.TargetInjective | code/practice_buidler.py:33 | distinct numbers give distinct file names |
| PracticeBuilder.TargetNumberOf | code/practice_buidler.py:33 | the number read back from file `idx`'s name is `idx` |
| PracticeBuilder.TargetsDiffer | code/practice_buidler.py:33 | distinct numbers give distinct file paths |
| PracticeBuilder.TargetIsNew | code/practice_buidler.py:31-33 | file `k` is none of the files 1..k-1 |
| PracticeBuilder.Targets | code/practice_buidler.py:31-33 | the targets are files 1..k, in order |
| PracticeBuilder.MakeFilesEffect | code/practice_buidler.py:28-41 | on success, exactly `total` messages, the i-th about file i and saying "exists" exactly when file i was there before the call, and every file 1..total exists |
| PracticeBuilder.MakeFilesMessages | code/practice_buidler.py:31-40 | one message per iteration, the i-th naming file i and saying "exists" or "is created" |
| PracticeBuilder.MakeFilesReportsExisting | code/practice_buidler.py:34-39 | message i says "exists" exactly when file i was there before the first iteration |
| PracticeBuilder.MakeFilesCreate | code/practice_buidler.py:33-39 | files 1..k all exist afterwards |
| PracticeBuilder.MakeFileStepKeeps | code/practice_buidler.py:33-40 | one iteration keeps every entry and, on success, leaves its file in place and reports on it |
| PracticeBuilder.MakeFilesFrame | code/practice_buidler.py:34-40 | existing entries are unchanged and the only new entries are files among the targets |
| PracticeBuilder.MakeFileStepFrame | code/practice_buidler.py:34-40 | one iteration changes no entry it finds and adds at most its own file |
| PracticeBuilder.MakeFileStepEffect | code/practice_buidler.py:34-40 | a message says "exists" exactly when the file was there before; with `d` a directory no iteration raises |
| PracticeBuilder.MakeFilesInDirectory | code/practice_buidler.py:31-41 | inside a directory all the files are made without error |
| PracticeBuilder.MakeFilesIdempotent | code/practice_buidler.py:34-36 | with every target present nothing changes and every message is "exists" |
| PracticeBuilder.MakeFilesTwice | code/practice_buidler.py:28-41 | a second identical call after a successful one adds nothing and reports "exists" throughout |
| PracticeBuilder.MakeFilesStopsAtFailure | code/practice_buidler.py:31-39 | once a `touch` raises, the later iterations do not run |
| PracticeBuilder.PracBuilder.constructor | code/practice_buidler.py:7-8 | the root is kept |
| PracticeBuilder.PracBuilder.SetupDir | code/practice_buidler.py:10-17 | the method changes the filesystem and returns as `SetupDirSpec` says |
| PracticeBuilder.PracBuilder.SetupInitFile | code/practice_buidler.py:19-26 | the method changes the filesystem and returns as `SetupInitFileSpec` says |
| PracticeBuilder.PracBuilder.MakePyFilesInTotal | code/practice_buidler.py:28-41 | the loop changes the filesystem and returns as `MakeFilesSpec` says for `max(total, 0)` iterations (so `total <= 0` gives `[]` and changes nothing) |
| PracticeChecker.GetErrorMsg | code/practice_checker.py:10-13 | `Error: {dirpath.name}, {caller}`; its contract is AboutDirError and PyfilesNameError |
| PracticeChecker.ReturnAboutDir | code/practice_checker.py:15-21 | `return_about_dir`; its contract is AboutDirError, AboutDirCount, EmptyDirectory and ListingOrderIrrelevant |
| PracticeChecker.ReturnPyfilesName | code/practice_checker.py:23-31 | `return_pyfiles_name`; its contract is PyfilesNameError, TabbedNamesExact, PyfilesNameLines, EmptyDirectory and ListingOrderIrrelevant |
| PracticeChecker.SumOfOnes | code/practice_checker.py:19-20 | a sum of ones counts them |
| PracticeChecker.AboutDirError | code/practice_checker.py:15-17 | a missing path or non-directory gives `"Error: {name}, return_about_dir"` |
| PracticeChecker.PyfilesNameError | code/practice_checker.py:23-25 | a missing path or non-directory gives `"Error: {name}, return_pyfiles_name"` |
| PracticeChecker.AboutDirCount | code/practice_checker.py:15-21 | a directory gives `name(NN)`, where NN is the padded number of its `.py` regular files |
| PracticeChecker.TabbedUnsortedExact | code/practice_checker.py:27-30 | before sorting there is one tabbed line per `.py` regular file, no two alike |
| PracticeChecker.TabbedNoDup | code/practice_checker.py:27-30 | the tabbed names are distinct |
| PracticeChecker.TabbedMembers | code/practice_checker.py:27-30 | the tabbed names are exactly a tab plus the name of each `.py` regular file |
| PracticeChecker.TabbedNamesExact | code/practice_checker.py:27-31 | the listed lines are sorted, distinct, one per `.py` regular file, each its name after a tab |
| PracticeChecker.PyfilesNameLines | code/practice_checker.py:19-31 | splitting the listing at newlines gives back its lines, as many as `return_about_dir` counts |
| PracticeChecker.EmptyDirectory | code/practice_checker.py:15-31 | a directory without `.py` files gives `name(00)` and `""` |
| PracticeChecker.ListingOrderIrrelevant | code/practice_checker.py:15-31 | neither report depends on the order `iterdir` produces |
| PathManagement.Dirpaths | code/path_manager.py:17-18 | the comprehension succeeds exactly when every name is a string or path-like, giving `rootpath / names[i]` at each `i`; otherwise it raises `TypeError` |
| PathManagement.StrPrefix | code/path_manager.py:11-13 | the generator gets through the leading `str` names and stops at the first other, path-likes included |
| PathManagement.GeneratorAgrees | code/path_manager.py:10-18 | with every name a string the generator runs to the end and `get_dirpaths` succeeds, both giving `rootpath / name` at each position |
| PathManagement.PathLikeSplitsThem | code/path_manager.py:10-18 | a path-like name is joined by `get_dirpaths` but stops the generator before it |
| PathManagement.PathManager.constructor | code/path_manager.py:5-8 | the fields are set and `dirpaths` is `None` |
| PathManagement.PathManager.GetDirpath | code/path_manager.py:10-15 | the generator yields `rootpath / name` for each leading `str` name and raises `RuntimeError` at the first other |
| PathManagement.PathManager.GetDirpaths | code/path_manager.py:17-18 | succeeds exactly when every name is a string or path-like; `dirpaths` becomes `rootpath / name` for each name, in order and of the same length; on `TypeError` it is left as it was |
| Loggers.LogFileName | code/loggers.py:40-41 | `f"prac_build{log_number:03d}.log"`; its contract is LogFileNameInjective and LogFileNameNumber |
| Loggers.CountLogfile | code/loggers.py:7-12 | the result is the number of entries matching `*.log`, plus one |
| Loggers.NoLogFiles | tests/test_logger.py:8-12 | a logs directory without `.log` entries has no log files, so the count is 1 |
| Loggers.ThreeLogFiles | tests/test_logger.py:13-16 | three `.log` files written into an empty logs directory give 4 |
| Loggers.OtherEntriesIgnored | code/loggers.py:10 | entries not ending in `.log` do not change the count |
| Loggers.NewLogFileCounted | code/loggers.py:10-11 | a new `.log` file raises the count by one |
| Loggers.LogFileNameInjective | code/loggers.py:41 | distinct numbers name distinct log files |
| Loggers.LogFileNameNumber | code/loggers.py:41 | the name holds the number in at least three digits, and reading it back gives the number |

## Left out

- The project root is a parameter. The source resolves it from its own file
  location, and in three files calls `project_root()` without importing it.
- The filesystem is abstract. The model has no symlinks, permissions,
  `resolve()`, timestamps or file contents. `mkdir` and `touch` raise only for
  an existing entry or a parent that is not a directory.
- `root / name`: each name is a single component. The model does not capture
  names with a `/` in them, absolute names, or `.` and `..` components.
- Enumeration order of `iterdir`, `scandir` and `glob`: the model leaves it
  unspecified. Every result that depends on it is proved for any order.
- Text.Lower: lowers ASCII letters only. Python's `lower()` covers all of
  Unicode, but the sentinels `none` and `all` are ASCII.
- Outputs: `click.echo` and `print` become returned lines. The text of
  exceptions and of `self.fail` is not modelled, only which error is raised.
- The caller name in `PracChecker.get_error_msg` is a parameter.
  `inspect.stack()` is not modelled. The two methods pass their own names.
- `PathManager.get_dirpath`: the generator is modelled as the list of values
  it yields before it finishes or raises. Laziness is not modelled.
- `echo_files`' `total` option is unused, as in the source.
- `PathManager`: a path-like name stands for the string its `__fspath__`
  returns; `root / x` of a path-like is modelled as joining that string.
- `get_loggers`: logger, handler and formatter construction, and the
  `mkdir` of the logs directory. Only the file-name formula is modelled.
- Not modelled at all:
  - `cli/pbuild.py`, which is Click wiring that does not import or call
    correctly;
  - `code/utils.py`, whose join is modelled as `root / name`;
  - the `prac_open_ai` scripts, which are network, environment and logging
    setup;
  - the Click decorators and `run` entry points.
- The three converters treat empty pieces and duplicates differently, and
  the model follows each as written:
  - `cli/fmake.py:44-45` strips every piece and drops the empty ones.
  - `code/param_of_list.py:25` strips the pieces and keeps the empty ones.
    The guard at lines 26-27 then never fires (Finding 1).
  - `cli/file_maker.py:12-13` neither strips nor drops pieces.
  - No converter removes duplicates. `cli/fmake.py:50-53` keeps one path per
    piece that names a directory, repeats included.

## Findings

| source | as written | input that shows it | evidently intended | confidence | as-written member | corrected member |
|---|---|---|---|---|---|---|
| code/param_of_list.py:25-27 | empty stripped pieces are kept, so `if not dirnames: return []` never fires | `" , "` converts to `["", ""]` | empty pieces dropped, as `fmake`'s converter does, so that an all-blank value gives `[]` | not executed | ParamOfList.ConvertKeepsEmptyPieces | ParamOfList.ConvertDroppingEmptyBlank |
| cli/file_maker.py:35-37 | `print_py_file_path` prints `root_path / py_file_name`, which leaves out the directory the file was found in | root `/`, directory `a`, file `/a/x.py` is printed as `/x.py` | `root_path / dirname / py_file_name`, the file's own path | not executed | FileMakerCli.PrintedPathMisplaced | FileMakerCli.PrintedPathInExact |
