/** The filesystem the scripts work on, modelled abstractly: a finite map from
    absolute paths (lists of names; `[]` is `/`) to `Dir` or `File`, plus the
    few operations of `pathlib` and `os` they use. Python exceptions become
    `Err`/`Fail` values. */
module Fs {
  import opened Seqs
  import Text

  type Path = seq<string>

  datatype Entry = Dir | File

  type Entries = map<Path, Entry>

  /** The exceptions the modelled code can raise (their messages are not modelled). */
  datatype PyError =
    | FileExistsError | FileNotFoundError | NotADirectoryError | TypeError | RuntimeError
    | BadParameter  // raised by `click.ParamType.fail`

  /** Completion of a call that returns nothing: normal return or a raised exception. */
  datatype Outcome = Pass | Fail(error: PyError)

  /** Completion of a call that returns a value. */
  datatype Result<T> = Ok(value: T) | Err(error: PyError)

  /** `None` or a value. */
  datatype Option<T> = None | Some(value: T)

  /** The state after a filesystem call, with the way the call completed. */
  datatype FsStep = FsStep(entries: Entries, outcome: Outcome)

  /** `p.name`: the last component (`""` for `/`). */
  function NameOf(p: Path): string {
    if p == [] then "" else p[|p| - 1]
  }

  /** `p.parent` (`/` is its own parent). */
  function Parent(p: Path): Path {
    if p == [] then [] else p[..|p| - 1]
  }

  /** `root / name` for a single name; pathlib ignores an empty name. */
  function JoinName(root: Path, name: string): (p: Path)
    ensures name == "" ==> p == root
    ensures name != "" ==> Parent(p) == root && NameOf(p) == name
  {
    if name == "" then root else root + [name]
  }

  /** `p.exists() and p.is_dir()` */
  predicate IsDir(e: Entries, p: Path) {
    p in e && e[p] == Dir
  }

  /** `p.is_file()` */
  predicate IsFile(e: Entries, p: Path) {
    p in e && e[p] == File
  }

  /** `p` lies directly inside `d`. */
  predicate IsChild(d: Path, p: Path) {
    |p| == |d| + 1 && p[..|d|] == d
  }

  /** What `d.iterdir()` enumerates; nothing when `d` is not a directory. */
  function Contents(e: Entries, d: Path): set<Path> {
    if IsDir(e, d) then set p | p in e && IsChild(d, p) else {}
  }

  /** `xs` is one enumeration of the contents of `d`, in whatever order the
      operating system produces (each entry exactly once). */
  ghost predicate Listing(e: Entries, d: Path, xs: seq<Path>) {
    NoDup(xs) && forall p :: p in xs <==> p in Contents(e, d)
  }

  /** `p.suffix == ".py"`: the name ends in `.py` and that dot is not its first character. */
  predicate HasPySuffix(name: string) {
    |name| >= 4 && Text.EndsWith(name, ".py")
  }

  /** `p.is_file() and p.suffix == ".py"` */
  predicate IsPyFile(e: Entries, p: Path) {
    IsFile(e, p) && HasPySuffix(NameOf(p))
  }

  /** The `.py` regular files directly inside `d`. */
  function PyFiles(e: Entries, d: Path): set<Path> {
    set p | p in Contents(e, d) && IsPyFile(e, p)
  }

  /** `xs` enumerates the `.py` regular files of `d`, each once, in listing order. */
  ghost predicate PyFileListing(e: Entries, d: Path, xs: seq<Path>) {
    NoDup(xs) && forall p :: p in xs <==> p in PyFiles(e, d)
  }

  /** `str(p)` on a POSIX system. */
  function PathString(p: Path): string {
    "/" + Text.Join(p, "/")
  }

  /** The error `mkdir` or `touch` raise when the parent of `p` is not a directory. */
  function ParentError(e: Entries, p: Path): PyError {
    if Parent(p) in e then NotADirectoryError else FileNotFoundError
  }

  /** The error `iterdir` or `scandir` raise on `d` when it is not a directory. */
  function IterDirError(e: Entries, d: Path): PyError {
    if d in e then NotADirectoryError else FileNotFoundError
  }

  /** `p.mkdir(exist_ok=existOk)` without `parents`. */
  function MkdirSpec(e: Entries, p: Path, existOk: bool): FsStep {
    if p in e then
      if existOk && e[p] == Dir then FsStep(e, Pass) else FsStep(e, Fail(FileExistsError))
    else if IsDir(e, Parent(p)) then FsStep(e[p := Dir], Pass)
    else FsStep(e, Fail(ParentError(e, p)))
  }

  /** `p.touch()`: creates an empty file when absent, never changes an existing entry. */
  function TouchSpec(e: Entries, p: Path): FsStep {
    if p in e then FsStep(e, Pass)
    else if IsDir(e, Parent(p)) then FsStep(e[p := File], Pass)
    else FsStep(e, Fail(ParentError(e, p)))
  }

  /** `mkdir(exist_ok=True)` succeeds exactly when it leaves a directory at `p`;
      it changes nothing but `p`; a second call changes nothing and completes as
      the first did. */
  lemma MkdirExistOkIdempotent(e: Entries, p: Path)
    ensures MkdirSpec(e, p, true).outcome.Pass? <==> IsDir(MkdirSpec(e, p, true).entries, p)
    ensures forall q :: q != p ==> (q in e <==> q in MkdirSpec(e, p, true).entries)
    ensures forall q :: q in e ==> MkdirSpec(e, p, true).entries[q] == e[q]
    ensures MkdirSpec(MkdirSpec(e, p, true).entries, p, true) == MkdirSpec(e, p, true)
  {
  }

  /** The paths of the contents of `d` are `d` extended by their names, so
      distinct contents have distinct names. */
  lemma ContentsNames(e: Entries, d: Path, p: Path, q: Path)
    requires p in Contents(e, d) && q in Contents(e, d)
    ensures p == d + [NameOf(p)]
    ensures NameOf(p) == NameOf(q) ==> p == q
  {
    assert p == p[..|d|] + [p[|d|]];
    assert q == q[..|d|] + [q[|d|]];
  }

  /** Counting the matching entries of a listing counts the matching contents. */
  lemma ListingFilterCount(e: Entries, d: Path, xs: seq<Path>, keep: Path -> bool, s: set<Path>)
    requires Listing(e, d, xs)
    requires forall p :: p in s <==> p in Contents(e, d) && keep(p)
    ensures |Filter(xs, keep)| == |s|
  {
    FilterCardinality(xs, keep, s);
  }

  /** Filtering a listing for `.py` regular files enumerates them. */
  lemma PyFileFilter(e: Entries, d: Path, xs: seq<Path>)
    requires Listing(e, d, xs)
    ensures PyFileListing(e, d, Filter(xs, p => IsPyFile(e, p)))
  {
    FilterNoDup(xs, p => IsPyFile(e, p));
  }

  /** Any enumeration of the `.py` files has as many entries as there are such files. */
  lemma PyFileListingCount(e: Entries, d: Path, xs: seq<Path>)
    requires PyFileListing(e, d, xs)
    ensures |xs| == |PyFiles(e, d)|
  {
    NoDupCardinality(xs, PyFiles(e, d));
  }

  /** Two enumerations of the `.py` files differ only in order. */
  lemma PyFileListingPermutation(e: Entries, d: Path, xs: seq<Path>, ys: seq<Path>)
    requires PyFileListing(e, d, xs) && PyFileListing(e, d, ys)
    ensures multiset(xs) == multiset(ys)
  {
    NoDupPermutation(xs, ys);
  }

  /** Distinct entries of one directory have distinct names. */
  lemma ContentNamesNoDup(e: Entries, d: Path, xs: seq<Path>)
    requires NoDup(xs)
    requires forall i :: 0 <= i < |xs| ==> xs[i] in Contents(e, d)
    ensures NoDup(Map(xs, NameOf))
  {
    var ns := Map(xs, NameOf);
    forall i, j | 0 <= i < j < |ns| ensures ns[i] != ns[j] {
      ContentsNames(e, d, xs[i], xs[j]);
    }
  }

  /** `d.iterdir()` (also `os.scandir(d)` and `d.glob("*")`): the contents of
      `d` in an order the operating system chooses. */
  method IterDir(e: Entries, d: Path) returns (xs: seq<Path>)
    ensures Listing(e, d, xs)
  {
    var remaining := Contents(e, d);
    xs := [];
    while remaining != {}
      invariant remaining <= Contents(e, d)
      invariant NoDup(xs)
      invariant forall p :: p in xs <==> p in Contents(e, d) && p !in remaining
      decreases |remaining|
    {
      var p :| p in remaining;
      xs := xs + [p];
      remaining := remaining - {p};
    }
  }

  /** The filesystem as mutable state; `mkdir` and `touch` update it in place. */
  class FileSystem {
    var entries: Entries

    constructor (initial: Entries)
      ensures entries == initial
    {
      entries := initial;
    }

    method Mkdir(p: Path, existOk: bool) returns (r: Outcome)
      modifies this
      ensures FsStep(entries, r) == MkdirSpec(old(entries), p, existOk)
    {
      if p in entries {
        r := if existOk && entries[p] == Dir then Pass else Fail(FileExistsError);
      } else if IsDir(entries, Parent(p)) {
        entries := entries[p := Dir];
        r := Pass;
      } else {
        r := Fail(ParentError(entries, p));
      }
    }

    method Touch(p: Path) returns (r: Outcome)
      modifies this
      ensures FsStep(entries, r) == TouchSpec(old(entries), p)
    {
      if p in entries {
        r := Pass;
      } else if IsDir(entries, Parent(p)) {
        entries := entries[p := File];
        r := Pass;
      } else {
        r := Fail(ParentError(entries, p));
      }
    }
  }
}
