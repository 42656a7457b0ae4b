/** cli/file_maker.py: the older `echo_files` command. Its `TupleParam` is a
    plain split on commas; `dir_manager` creates a directory under the root and
    lists the entries of a directory whose names end in `.py`. */
module FileMakerCli {
  import opened Seqs
  import opened Text
  import opened Fs
  import Decimal

  /** `TupleParam.convert`: `("all",)` for `all`, else `tuple(value.split(","))`. */
  function Convert(value: string): seq<string> {
    if value == "all" then ["all"] else Split(value, ',')
  }

  /** The `all` case agrees with the general one: every value is just split. */
  lemma ConvertIsSplit(value: string)
    ensures Convert(value) == Split(value, ',')
  {
    if value == "all" {
      SplitPiece("all", ',');
    }
  }

  /** The pieces are not stripped: joining them with `,` gives back the value,
      and there is one piece more than there are commas. */
  lemma ConvertRoundTrip(value: string)
    ensures Join(Convert(value), ",") == value
    ensures |Convert(value)| == CountChar(value, ',') + 1
  {
    ConvertIsSplit(value);
    JoinSplit(value, ',');
  }

  /** Comma-free pieces survive a join and a conversion unchanged. */
  lemma ConvertOfJoin(xs: seq<string>)
    requires xs != []
    requires forall k :: 0 <= k < |xs| ==> ',' !in xs[k]
    ensures Convert(Join(xs, ",")) == xs
  {
    ConvertIsSplit(Join(xs, ","));
    SplitJoin(xs, ',');
  }

  /** `entry.name.endswith(".py")` */
  predicate EndsInPy(p: Path) {
    EndsWith(NameOf(p), ".py")
  }

  /** The entries of `d` whose names end in `.py` (directories included),
      each once. */
  ghost predicate PyNamedListing(e: Entries, d: Path, xs: seq<Path>) {
    NoDup(xs) && forall p :: p in xs <==> p in Contents(e, d) && EndsInPy(p)
  }

  /** Filtering a listing by name enumerates the `.py`-named entries. */
  lemma PyNamedFilter(e: Entries, d: Path, xs: seq<Path>)
    requires Listing(e, d, xs)
    ensures PyNamedListing(e, d, Filter(xs, EndsInPy))
  {
    FilterNoDup(xs, EndsInPy);
  }

  /** As written, `print_py_file_path`: the path printed for a file name,
      `root_path / py_file_name`, without the directory the file is in. */
  function PrintedPath(root: Path, pyFileName: string): Path {
    JoinName(root, pyFileName)
  }

  /** The path evidently meant: `root_path / dirname / py_file_name`. */
  function PrintedPathIn(root: Path, dirname: string, pyFileName: string): Path {
    JoinName(JoinName(root, dirname), pyFileName)
  }

  /** The line `print_py_file_path` prints for a file name, as written. */
  function FileLine(root: Path, pyFileName: string): string {
    "\t" + PathString(PrintedPath(root, pyFileName))
  }

  /** As written, the printed path is never the file's path when the file lies
      in a named subdirectory of the root. */
  lemma PrintedPathMisplaced(e: Entries, root: Path, dirname: string, pf: Path)
    requires dirname != ""
    requires pf in Contents(e, JoinName(root, dirname))
    ensures PrintedPath(root, NameOf(pf)) != pf
  {
    assert |pf| == |root| + 2;
  }

  /** As written: the file `/a/x.py` found in directory `a` of root `/` is printed as `/x.py`. */
  lemma PrintedPathExample()
    ensures PathString(PrintedPath([], "x.py")) == "/x.py"
    ensures PathString(["a", "x.py"]) == "/a/x.py"
  {
    assert Join(["x.py"], "/") == "x.py";
    assert ["a", "x.py"][1..] == ["x.py"];
    assert Join(["a", "x.py"], "/") == "a" + "/" + "x.py";
    assert "/" + ("a" + "/" + "x.py") == "/a/x.py";
  }

  /** Corrected, the printed path is the path of the file found. */
  lemma PrintedPathInExact(e: Entries, root: Path, dirname: string, pf: Path)
    requires pf in Contents(e, JoinName(root, dirname))
    requires NameOf(pf) != ""
    ensures PrintedPathIn(root, dirname, NameOf(pf)) == pf
  {
    ContentsNames(e, JoinName(root, dirname), pf, pf);
  }

  /** What `echo_files` prints for one directory: its count, then its files. */
  function Block(root: Path, dirname: string, files: seq<Path>): seq<string> {
    [dirname + "-dir has " + Decimal.Decimal(|files|) + "-py-files."]
      + Map(files, pf => FileLine(root, NameOf(pf)))
  }

  function Report(root: Path, dirnames: seq<string>, fss: seq<seq<Path>>): seq<string>
    requires |dirnames| == |fss|
  {
    if dirnames == [] then []
    else
      var n := |dirnames| - 1;
      Report(root, dirnames[..n], fss[..n]) + Block(root, dirnames[n], fss[n])
  }

  lemma ReportSnoc(root: Path, dirnames: seq<string>, fss: seq<seq<Path>>, i: nat, files: seq<Path>)
    requires i < |dirnames| && |fss| == i
    ensures Report(root, dirnames[..i + 1], fss + [files])
      == Report(root, dirnames[..i], fss) + Block(root, dirnames[i], files)
  {
    assert dirnames[..i + 1][..i] == dirnames[..i];
    assert (fss + [files])[..i] == fss;
  }

  /** `root / name` for each name, in order. */
  function NamedPaths(root: Path, names: seq<string>): seq<Path> {
    Map(names, n => JoinName(root, n))
  }

  /** `mkdir(exist_ok=True)` on `root / name` for each name in turn, stopping
      at the first that raises. */
  function SetupAll(e: Entries, root: Path, names: seq<string>): FsStep {
    if names == [] then FsStep(e, Pass)
    else
      var s := SetupAll(e, root, names[..|names| - 1]);
      if s.outcome.Fail? then s else MkdirSpec(s.entries, JoinName(root, names[|names| - 1]), true)
  }

  /** When the setup succeeds every named directory exists; existing entries
      are kept, and every added entry is a directory at a named path. */
  lemma SetupAllEffect(e: Entries, root: Path, names: seq<string>)
    ensures var s := SetupAll(e, root, names);
      && (s.outcome.Pass? ==> forall i :: 0 <= i < |names| ==> IsDir(s.entries, JoinName(root, names[i])))
      && (forall q :: q in e ==> q in s.entries && s.entries[q] == e[q])
      && (forall q :: q in s.entries && q !in e ==> s.entries[q] == Dir && q in NamedPaths(root, names))
  {
    SetupAllCreates(e, root, names);
    SetupAllFrame(e, root, names);
  }

  lemma {:induction false} SetupAllCreates(e: Entries, root: Path, names: seq<string>)
    ensures var s := SetupAll(e, root, names);
      s.outcome.Pass? ==> forall i :: 0 <= i < |names| ==> IsDir(s.entries, JoinName(root, names[i]))
  {
    if names != [] {
      var init := names[..|names| - 1];
      SetupAllCreates(e, root, init);
      var s := SetupAll(e, root, init);
      if s.outcome.Pass? {
        MkdirExistOkIdempotent(s.entries, JoinName(root, names[|names| - 1]));
        assert forall i :: 0 <= i < |init| ==> names[i] == init[i];
      }
    }
  }

  lemma {:induction false} SetupAllFrame(e: Entries, root: Path, names: seq<string>)
    ensures var s := SetupAll(e, root, names);
      && (forall q :: q in e ==> q in s.entries && s.entries[q] == e[q])
      && (forall q :: q in s.entries && q !in e ==> s.entries[q] == Dir && q in NamedPaths(root, names))
  {
    if names != [] {
      var init := names[..|names| - 1];
      SetupAllFrame(e, root, init);
      var s := SetupAll(e, root, init);
      if s.outcome.Pass? {
        MkdirExistOkIdempotent(s.entries, JoinName(root, names[|names| - 1]));
        assert NamedPaths(root, names) == NamedPaths(root, init) + [JoinName(root, names[|names| - 1])];
      }
    }
  }

  /** With every named directory already present the setup changes nothing:
      in particular a second identical setup after a successful one. */
  lemma {:induction false} SetupAllIdempotent(e: Entries, root: Path, names: seq<string>)
    requires forall i :: 0 <= i < |names| ==> IsDir(e, JoinName(root, names[i]))
    ensures SetupAll(e, root, names) == FsStep(e, Pass)
  {
    if names != [] {
      SetupAllIdempotent(e, root, names[..|names| - 1]);
    }
  }

  /** Once a prefix of the names fails, the rest are not attempted. */
  lemma {:induction false} SetupAllStopsAtFailure(e: Entries, root: Path, names: seq<string>, k: nat)
    requires k <= |names|
    requires SetupAll(e, root, names[..k]).outcome.Fail?
    ensures SetupAll(e, root, names) == SetupAll(e, root, names[..k])
    decreases |names| - k
  {
    if k < |names| {
      assert names[..k + 1][..k] == names[..k];
      SetupAllStopsAtFailure(e, root, names, k + 1);
    } else {
      assert names[..k] == names;
    }
  }

  /** Setting up one more name continues from the state the prefix left. */
  lemma SetupAllSnoc(e: Entries, root: Path, names: seq<string>, i: nat)
    requires i < |names|
    ensures SetupAll(e, root, names[..i + 1]) ==
      var s := SetupAll(e, root, names[..i]);
      if s.outcome.Fail? then s else MkdirSpec(s.entries, JoinName(root, names[i]), true)
  {
    assert names[..i + 1][..i] == names[..i];
  }

  /** `found[j]` is the search of the j-th name right after it was set up. */
  ghost predicate Seen(e0: Entries, root: Path, dirnames: seq<string>, found: seq<seq<Path>>) {
    && |found| <= |dirnames|
    && forall j :: 0 <= j < |found| ==>
         PyNamedListing(SetupAll(e0, root, dirnames[..j + 1]).entries, JoinName(root, dirnames[j]), found[j])
  }

  lemma SeenSnoc(e0: Entries, root: Path, dirnames: seq<string>, found: seq<seq<Path>>, files: seq<Path>)
    requires Seen(e0, root, dirnames, found) && |found| < |dirnames|
    requires var i := |found|;
      PyNamedListing(SetupAll(e0, root, dirnames[..i + 1]).entries, JoinName(root, dirnames[i]), files)
    ensures Seen(e0, root, dirnames, found + [files])
  {
  }

  /** `lines` are what the first `|found|` directories printed. */
  ghost predicate Printed(root: Path, dirnames: seq<string>, found: seq<seq<Path>>, lines: seq<string>) {
    |found| <= |dirnames| && lines == Report(root, dirnames[..|found|], found)
  }

  lemma PrintedSnoc(root: Path, dirnames: seq<string>, found: seq<seq<Path>>, lines: seq<string>, files: seq<Path>)
    requires Printed(root, dirnames, found, lines) && |found| < |dirnames|
    ensures Printed(root, dirnames, found + [files], lines + Block(root, dirnames[|found|], files))
  {
    var i := |found|;
    ReportSnoc(root, dirnames, found, i, files);
    assert |found + [files]| == i + 1;
  }

  /** `dir_manager` */
  class DirManager {
    const rootPath: Path

    constructor (root: Path)
      ensures rootPath == root
    {
      rootPath := root;
    }

    /** `setup_dir`: `mkdir(exist_ok=True)` on `root / dirname`. */
    method SetupDir(fs: FileSystem, dirname: string) returns (r: Outcome)
      modifies fs
      ensures FsStep(fs.entries, r) == MkdirSpec(old(fs.entries), JoinName(rootPath, dirname), true)
    {
      r := fs.Mkdir(JoinName(rootPath, dirname), true);
    }

    /** `search_py_files`: the entries of `root / dirname` whose names end in
        `.py`; `scandir` raises when that is not a directory. */
    method SearchPyFiles(e: Entries, dirname: string) returns (r: Result<seq<Path>>)
      ensures var d := JoinName(rootPath, dirname);
        && (!IsDir(e, d) ==> r == Err(IterDirError(e, d)))
        && (IsDir(e, d) ==> r.Ok? && PyNamedListing(e, d, r.value))
    {
      var d := JoinName(rootPath, dirname);
      if !IsDir(e, d) {
        return Err(IterDirError(e, d));
      }
      var entries := IterDir(e, d);
      var pyFiles := SelectPyNamed(entries);
      PyNamedFilter(e, d, entries);
      r := Ok(pyFiles);
    }
  }

  /** The loop of `search_py_files`: the entries whose names end in `.py`,
      in the order given. */
  method SelectPyNamed(entries: seq<Path>) returns (pyFiles: seq<Path>)
    ensures pyFiles == Filter(entries, EndsInPy)
  {
    pyFiles := [];
    var i := 0;
    while i < |entries|
      invariant 0 <= i <= |entries|
      invariant pyFiles == Filter(entries[..i], EndsInPy)
    {
      FilterPrefix(entries, i, EndsInPy);
      if EndsInPy(entries[i]) {
        pyFiles := pyFiles + [entries[i]];
      }
      i := i + 1;
    }
    assert entries[..i] == entries;
  }

  /** `echo_files`: nothing for `("all",)`; otherwise, name by name, create
      the directory and print its `.py` entries, stopping at the first
      directory that cannot be created. `found[i]` is what the search of the
      i-th directory saw, just after that directory was set up. */
  method EchoFiles(fs: FileSystem, root: Path, total: int, dirnames: seq<string>)
      returns (lines: seq<string>, r: Outcome, ghost found: seq<seq<Path>>)
    modifies fs
    ensures dirnames == ["all"] ==> lines == [] && r == Pass && fs.entries == old(fs.entries)
    ensures dirnames != ["all"] ==>
      && FsStep(fs.entries, r) == SetupAll(old(fs.entries), root, dirnames)
      && |found| <= |dirnames|
      && SetupAll(old(fs.entries), root, dirnames[..|found|]).outcome.Pass?
      && (r.Pass? ==> |found| == |dirnames|)
      && (r.Fail? ==> |found| < |dirnames| && SetupAll(old(fs.entries), root, dirnames[..|found| + 1]).outcome.Fail?)
      && Printed(root, dirnames, found, lines)
      && Seen(old(fs.entries), root, dirnames, found)
  {
    lines, r, found := [], Pass, [];
    if |dirnames| == 1 && dirnames[0] == "all" {
      return;
    }
    ghost var e0 := fs.entries;
    var i := 0;
    while i < |dirnames|
      invariant 0 <= i <= |dirnames|
      invariant |found| == i
      invariant FsStep(fs.entries, Pass) == SetupAll(e0, root, dirnames[..i])
      invariant Printed(root, dirnames, found, lines)
      invariant Seen(e0, root, dirnames, found)
    {
      SetupAllSnoc(e0, root, dirnames, i);
      ghost var before := fs.entries;
      var dm := new DirManager(root);
      var o := dm.SetupDir(fs, dirnames[i]);
      if o.Fail? {
        SetupAllStopsAtFailure(e0, root, dirnames, i + 1);
        r := o;
        return;
      }
      MkdirExistOkIdempotent(before, JoinName(root, dirnames[i]));
      var pfs := dm.SearchPyFiles(fs.entries, dirnames[i]);
      assert pfs.Ok?;
      SeenSnoc(e0, root, dirnames, found, pfs.value);
      PrintedSnoc(root, dirnames, found, lines, pfs.value);
      lines := lines + Block(root, dirnames[i], pfs.value);
      found := found + [pfs.value];
      i := i + 1;
    }
    assert dirnames[..i] == dirnames;
  }
}
