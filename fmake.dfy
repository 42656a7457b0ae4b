/** cli/fmake.py: the `fmake` command. Its `TupleParam` converter resolves
    `--dirnames` against the root's subdirectories; `FileChecker` lists the
    `.py` files of a directory; `FileMaker` ensures a directory exists. */
module Fmake {
  import opened Seqs
  import opened Text
  import opened Fs
  import Decimal

  /** The `str | Path` argument of `convert_dirname_to_dirpath`. */
  datatype DirRef = Name(name: string) | Absolute(path: Path)

  /** `root / dirname`: a name is appended, an absolute path replaces the root. */
  function ConvertDirnameToDirpath(root: Path, dirname: DirRef): (p: Path)
    ensures dirname.Absolute? ==> p == dirname.path
    ensures dirname.Name? && dirname.name != "" ==> Parent(p) == root && NameOf(p) == dirname.name
    ensures dirname.Name? && dirname.name == "" ==> p == root
  {
    match dirname
    case Name(n) => JoinName(root, n)
    case Absolute(p) => p
  }

  /** `get_dirs`: the subdirectories of the root, in listing order. */
  function GetDirs(e: Entries, root: Path, rootListing: seq<Path>): Result<seq<Path>> {
    if !IsDir(e, root) then Err(IterDirError(e, root))
    else Ok(Filter(rootListing, p => IsDir(e, p)))
  }

  /** `get_dirs_endswith_s`: the subdirectories of the root whose name ends in `s`. */
  function GetDirsEndswithS(e: Entries, root: Path, rootListing: seq<Path>): Result<seq<Path>> {
    if !IsDir(e, root) then Err(IterDirError(e, root))
    else Ok(Filter(rootListing, p => IsDir(e, p) && EndsWith(NameOf(p), "s")))
  }

  /** `TupleParam.convert`: `None` for the `none` sentinel and for a value with
      no non-empty piece; the root's `s`-directories for `all`; otherwise the
      paths of the named pieces that are subdirectories of the root. A failing
      listing inside the `try` becomes `self.fail`. */
  function Convert(value: string, e: Entries, root: Path, rootListing: seq<Path>): Result<Option<seq<Path>>> {
    var v := Strip(value);
    if Lower(v) == "none" then Ok(None)
    else if Lower(v) == "all" then
      match GetDirsEndswithS(e, root, rootListing)
      case Ok(ds) => Ok(Some(ds))
      case Err(x) => Err(x)
    else
      var parts := NonEmpty(Pieces(v));
      if parts == [] then Ok(None)
      else
        match GetDirs(e, root, rootListing)
        case Err(_) => Err(BadParameter)
        case Ok(existsDirs) =>
          Ok(Some(Filter(Map(parts, n => JoinName(root, n)), p => p in existsDirs)))
  }

  /** The listing of subdirectories holds each subdirectory of the root once. */
  lemma GetDirsExact(e: Entries, root: Path, rootListing: seq<Path>)
    requires Listing(e, root, rootListing)
    ensures GetDirs(e, root, rootListing).Ok? <==> IsDir(e, root)
    ensures var r := GetDirs(e, root, rootListing);
      r.Ok? ==> NoDup(r.value) && forall p :: p in r.value <==> IsChild(root, p) && IsDir(e, p)
  {
    if IsDir(e, root) {
      var r := Filter(rootListing, p => IsDir(e, p));
      FilterNoDup(rootListing, p => IsDir(e, p));
      forall p ensures p in r <==> IsChild(root, p) && IsDir(e, p) {
        if p in r {
          var i :| 0 <= i < |r| && r[i] == p;
        }
        if IsChild(root, p) && IsDir(e, p) {
          assert p in Contents(e, root);
          var i :| 0 <= i < |rootListing| && rootListing[i] == p;
        }
      }
    }
  }

  /** The `s`-listing holds each subdirectory of the root ending in `s` once. */
  lemma GetDirsEndswithSExact(e: Entries, root: Path, rootListing: seq<Path>)
    requires Listing(e, root, rootListing)
    ensures GetDirsEndswithS(e, root, rootListing).Ok? <==> IsDir(e, root)
    ensures var r := GetDirsEndswithS(e, root, rootListing);
      r.Ok? ==>
        && NoDup(r.value)
        && forall p :: p in r.value <==> IsChild(root, p) && IsDir(e, p) && EndsWith(NameOf(p), "s")
  {
    if IsDir(e, root) {
      var r := Filter(rootListing, p => IsDir(e, p) && EndsWith(NameOf(p), "s"));
      FilterNoDup(rootListing, p => IsDir(e, p) && EndsWith(NameOf(p), "s"));
      forall p ensures p in r <==> IsChild(root, p) && IsDir(e, p) && EndsWith(NameOf(p), "s") {
        if p in r {
          var i :| 0 <= i < |r| && r[i] == p;
        }
        if IsChild(root, p) && IsDir(e, p) && EndsWith(NameOf(p), "s") {
          assert p in Contents(e, root);
          var i :| 0 <= i < |rootListing| && rootListing[i] == p;
        }
      }
    }
  }

  /** A trimmed value equal to `none` in any case gives `None`. */
  lemma ConvertNone(value: string, e: Entries, root: Path, rootListing: seq<Path>)
    requires Lower(Strip(value)) == "none"
    ensures Convert(value, e, root, rootListing) == Ok(None)
  {
  }

  /** A trimmed value equal to `all` in any case gives exactly the root's
      subdirectories ending in `s`, each once. */
  lemma ConvertAll(value: string, e: Entries, root: Path, rootListing: seq<Path>)
    requires Listing(e, root, rootListing)
    requires Lower(Strip(value)) == "all"
    ensures var r := Convert(value, e, root, rootListing);
      && (!IsDir(e, root) ==> r == Err(IterDirError(e, root)))
      && (IsDir(e, root) ==>
            && r.Ok? && r.value.Some?
            && NoDup(r.value.value)
            && forall p :: p in r.value.value <==> IsChild(root, p) && IsDir(e, p) && EndsWith(NameOf(p), "s"))
  {
    GetDirsEndswithSExact(e, root, rootListing);
  }

  /** A value whose pieces all strip to nothing (such as `", , ,"`) gives `None`. */
  lemma ConvertBlank(value: string, e: Entries, root: Path, rootListing: seq<Path>)
    requires Lower(Strip(value)) != "none" && Lower(Strip(value)) != "all"
    requires forall k :: 0 <= k < |Pieces(Strip(value))| ==> Pieces(Strip(value))[k] == ""
    ensures Convert(value, e, root, rootListing) == Ok(None)
  {
    FilterNone(Pieces(Strip(value)), p => p != "");
  }

  lemma NamedEquation(value: string, e: Entries, root: Path, rootListing: seq<Path>)
    requires Lower(Strip(value)) != "none" && Lower(Strip(value)) != "all"
    requires NonEmpty(Pieces(Strip(value))) != []
    ensures var parts := NonEmpty(Pieces(Strip(value)));
      Convert(value, e, root, rootListing) ==
        if !IsDir(e, root) then Err(BadParameter)
        else Ok(Some(Filter(Map(parts, n => JoinName(root, n)), p => p in Filter(rootListing, p => IsDir(e, p)))))
  {
  }

  lemma ChildInDirs(e: Entries, root: Path, rootListing: seq<Path>, n: string)
    requires IsDir(e, root) && Listing(e, root, rootListing)
    requires n != ""
    ensures JoinName(root, n) in Filter(rootListing, p => IsDir(e, p)) <==> IsDir(e, JoinName(root, n))
  {
    var p := root + [n];
    assert p[..|root|] == root;
    if IsDir(e, p) {
      assert p in Contents(e, root);
      var i :| 0 <= i < |rootListing| && rootListing[i] == p;
    }
  }

  /** The existing-directory test on a listing is the test on the path itself. */
  lemma NamedFilter(e: Entries, root: Path, rootListing: seq<Path>, parts: seq<string>)
    requires IsDir(e, root) && Listing(e, root, rootListing)
    requires forall k :: 0 <= k < |parts| ==> parts[k] != ""
    ensures var dirs := Filter(rootListing, p => IsDir(e, p));
      Filter(Map(parts, n => JoinName(root, n)), p => p in dirs)
        == Map(Filter(parts, n => IsDir(e, JoinName(root, n))), n => JoinName(root, n))
  {
    var dirs := Filter(rootListing, p => IsDir(e, p));
    var join := n => JoinName(root, n);
    var inDirs := p => p in dirs;
    var named := n => IsDir(e, JoinName(root, n));
    forall k | 0 <= k < |parts| ensures inDirs(join(parts[k])) == named(parts[k]) {
      ChildInDirs(e, root, rootListing, parts[k]);
    }
    FilterMap(parts, join, inDirs, named);
  }

  /** Named pieces give `root / name` for each stripped non-empty piece naming
      an existing subdirectory, in input order and with repetitions kept; a
      root that cannot be listed fails the conversion. */
  lemma ConvertNamed(value: string, e: Entries, root: Path, rootListing: seq<Path>)
    requires Listing(e, root, rootListing)
    requires Lower(Strip(value)) != "none" && Lower(Strip(value)) != "all"
    requires NonEmpty(Pieces(Strip(value))) != []
    ensures var parts := NonEmpty(Pieces(Strip(value)));
      var r := Convert(value, e, root, rootListing);
      && (!IsDir(e, root) ==> r == Err(BadParameter))
      && (IsDir(e, root) ==>
            r == Ok(Some(Map(Filter(parts, n => IsDir(e, JoinName(root, n))), n => JoinName(root, n)))))
  {
    NamedEquation(value, e, root, rootListing);
    if IsDir(e, root) {
      NamedFilter(e, root, rootListing, NonEmpty(Pieces(Strip(value))));
    }
  }

  /** The named result holds only existing subdirectories of the root, and
      every piece that names one is in it. */
  lemma NamedResultExact(e: Entries, root: Path, parts: seq<string>)
    requires forall k :: 0 <= k < |parts| ==> parts[k] != ""
    ensures var r := Map(Filter(parts, n => IsDir(e, JoinName(root, n))), n => JoinName(root, n));
      && |r| <= |parts|
      && (forall i :: 0 <= i < |r| ==> IsDir(e, r[i]) && Parent(r[i]) == root)
      && (forall k :: 0 <= k < |parts| && IsDir(e, root + [parts[k]]) ==> root + [parts[k]] in r)
  {
    var kept := Filter(parts, n => IsDir(e, JoinName(root, n)));
    var r := Map(kept, n => JoinName(root, n));
    forall k | 0 <= k < |parts| && IsDir(e, root + [parts[k]]) ensures root + [parts[k]] in r {
      assert parts[k] in kept;
      var j :| 0 <= j < |kept| && kept[j] == parts[k];
      assert r[j] == root + [parts[k]];
    }
  }

  /** `print_py_file_path`: the checker's file names are absolute, so
      `root_path / py_file` is the file's own path. */
  function FileLine(root: Path, pyFile: Path): string {
    "\t" + PathString(ConvertDirnameToDirpath(root, Absolute(pyFile)))
  }

  /** What `check_files` prints for one directory: a header with the count,
      then one line per file. */
  function Block(root: Path, d: Path, files: seq<Path>): seq<string> {
    [NameOf(d) + "-dir has " + Decimal.Decimal(|files|) + "-py-files."] + Map(files, pf => FileLine(root, pf))
  }

  /** The lines `check_files` prints for directories `ds` with files `fss`. */
  function Report(root: Path, ds: seq<Path>, fss: seq<seq<Path>>): seq<string>
    requires |ds| == |fss|
  {
    if ds == [] then []
    else Report(root, ds[..|ds| - 1], fss[..|fss| - 1]) + Block(root, ds[|ds| - 1], fss[|fss| - 1])
  }

  lemma ReportSnoc(root: Path, ds: seq<Path>, fss: seq<seq<Path>>, d: Path, files: seq<Path>)
    requires |ds| == |fss|
    ensures Report(root, ds + [d], fss + [files]) == Report(root, ds, fss) + Block(root, d, files)
  {
    assert (ds + [d])[..|ds|] == ds;
    assert (fss + [files])[..|fss|] == fss;
  }

  /** The header of a directory's block states how many `.py` files it holds,
      and each file gets its own line with its own path. */
  lemma BlockCounts(e: Entries, root: Path, d: Path, files: seq<Path>)
    requires PyFileListing(e, d, files)
    ensures var b := Block(root, d, files);
      && |b| == 1 + |PyFiles(e, d)|
      && b[0] == NameOf(d) + "-dir has " + Decimal.Decimal(|PyFiles(e, d)|) + "-py-files."
      && forall i :: 1 <= i < |b| ==> b[i] == "\t" + PathString(files[i - 1]) && files[i - 1] in PyFiles(e, d)
  {
    PyFileListingCount(e, d, files);
  }

  /** `FileChecker`: `py_files_path` keeps the last successful search. */
  class FileChecker {
    const rootPath: Path
    var pyFilesPath: Option<seq<Path>>

    constructor (root: Path)
      ensures rootPath == root && pyFilesPath == None
    {
      rootPath := root;
      pyFilesPath := None;
    }

    /** `search_py_files`: `[]` for a missing path or a non-directory, without
        touching the field; otherwise the `.py` regular files of the directory,
        which the field then holds. */
    method SearchPyFiles(e: Entries, dirname: DirRef) returns (files: seq<Path>)
      modifies this
      ensures var d := ConvertDirnameToDirpath(rootPath, dirname);
        && (!IsDir(e, d) ==> files == [] && pyFilesPath == old(pyFilesPath))
        && (IsDir(e, d) ==> pyFilesPath == Some(files) && PyFileListing(e, d, files))
    {
      var d := ConvertDirnameToDirpath(rootPath, dirname);
      if !IsDir(e, d) {
        return [];
      }
      var listing := IterDir(e, d);
      files := Filter(listing, p => IsPyFile(e, p));
      PyFileFilter(e, d, listing);
      pyFilesPath := Some(files);
    }
  }

  /** `FileMaker` */
  class FileMaker {
    const rootPath: Path

    constructor (root: Path)
      ensures rootPath == root
    {
      rootPath := root;
    }

    /** `setup_dir`: `mkdir(exist_ok=True)` on `root / dirname`. */
    method SetupDir(fs: FileSystem, dirname: DirRef) returns (r: Outcome)
      modifies fs
      ensures FsStep(fs.entries, r) == MkdirSpec(old(fs.entries), ConvertDirnameToDirpath(rootPath, dirname), true)
    {
      r := fs.Mkdir(ConvertDirnameToDirpath(rootPath, dirname), true);
    }
  }

  /** `check_files`: nothing for `None`; otherwise, per directory, its count
      and its `.py` files, each directory's files in the order found. */
  method CheckFiles(e: Entries, root: Path, dirnames: Option<seq<Path>>) returns (lines: seq<string>, ghost found: seq<seq<Path>>)
    ensures dirnames.None? ==> lines == []
    ensures dirnames.Some? ==>
      && |found| == |dirnames.value|
      && (forall i :: 0 <= i < |found| ==> PyFileListing(e, dirnames.value[i], found[i]))
      && lines == Report(root, dirnames.value, found)
  {
    lines, found := [], [];
    if dirnames.None? {
      return;
    }
    var ds := dirnames.value;
    var fc := new FileChecker(root);
    var i := 0;
    while i < |ds|
      invariant 0 <= i <= |ds|
      invariant |found| == i
      invariant forall j :: 0 <= j < i ==> PyFileListing(e, ds[j], found[j])
      invariant lines == Report(root, ds[..i], found)
    {
      var pyFiles := fc.SearchPyFiles(e, Absolute(ds[i]));
      ReportSnoc(root, ds[..i], found, ds[i], pyFiles);
      assert ds[..i + 1] == ds[..i] + [ds[i]];
      lines := lines + Block(root, ds[i], pyFiles);
      found := found + [pyFiles];
      i := i + 1;
    }
    assert ds[..i] == ds;
  }

  /** `make_files`: does nothing. */
  method MakeFiles(fs: FileSystem, total: int, dirnames: Option<seq<Path>>)
    ensures fs.entries == old(fs.entries)
  {
  }
}
