/** code/practice_checker.py: `PracChecker`, which reports on a practice
    directory without changing anything: its `.py` file count, and the names
    of those files. */
module PracticeChecker {
  import opened Seqs
  import opened Text
  import opened Ordering
  import opened Fs
  import Decimal

  /** `get_error_msg`: `caller` is the name of the calling method, which the
      source reads from the interpreter's call stack. */
  function GetErrorMsg(dirpath: Path, caller: string): string {
    "Error: " + NameOf(dirpath) + ", " + caller
  }

  /** `sum(lst)` */
  function Sum(xs: seq<nat>): nat {
    if xs == [] then 0 else Sum(xs[..|xs| - 1]) + xs[|xs| - 1]
  }

  /** `return_about_dir` on the listing `listing` of `dirpath`. */
  function ReturnAboutDir(e: Entries, dirpath: Path, listing: seq<Path>): string {
    if !IsDir(e, dirpath) then GetErrorMsg(dirpath, "return_about_dir")
    else
      var lst: seq<nat> := Map(Filter(listing, p => IsPyFile(e, p)), p => 1);
      var count := Sum(lst);
      NameOf(dirpath) + "(" + Decimal.Padded(count, 2) + ")"
  }

  /** The tab-prefixed names of the `.py` files, sorted. */
  function TabbedNames(e: Entries, listing: seq<Path>): seq<string> {
    var pyfilesName := Map(Filter(listing, p => IsPyFile(e, p)), NameOf);
    Sort(Map(pyfilesName, n => "\t" + n))
  }

  /** `return_pyfiles_name` on the listing `listing` of `dirpath`. */
  function ReturnPyfilesName(e: Entries, dirpath: Path, listing: seq<Path>): string {
    if !IsDir(e, dirpath) then GetErrorMsg(dirpath, "return_pyfiles_name")
    else Join(TabbedNames(e, listing), "\n")
  }

  /** A sum of ones counts them. */
  lemma {:induction false} SumOfOnes<T>(xs: seq<T>)
    ensures Sum(Map(xs, (p: T) => 1 as nat)) == |xs|
  {
    if xs != [] {
      SumOfOnes(xs[..|xs| - 1]);
    }
  }

  /** A missing path or a non-directory gives the error message, naming the method. */
  lemma AboutDirError(e: Entries, dirpath: Path, listing: seq<Path>)
    requires !IsDir(e, dirpath)
    ensures ReturnAboutDir(e, dirpath, listing) == "Error: " + NameOf(dirpath) + ", return_about_dir"
  {
    assert ", " + "return_about_dir" == ", return_about_dir";
  }

  /** A missing path or a non-directory gives the error message, naming the method. */
  lemma PyfilesNameError(e: Entries, dirpath: Path, listing: seq<Path>)
    requires !IsDir(e, dirpath)
    ensures ReturnPyfilesName(e, dirpath, listing) == "Error: " + NameOf(dirpath) + ", return_pyfiles_name"
  {
    assert ", " + "return_pyfiles_name" == ", return_pyfiles_name";
  }

  /** A directory gives its name and the number of its `.py` regular files,
      in two or more digits. */
  lemma AboutDirCount(e: Entries, dirpath: Path, listing: seq<Path>)
    requires IsDir(e, dirpath) && Listing(e, dirpath, listing)
    ensures ReturnAboutDir(e, dirpath, listing) == NameOf(dirpath) + "(" + Decimal.Padded(|PyFiles(e, dirpath)|, 2) + ")"
  {
    var files := Filter(listing, p => IsPyFile(e, p));
    SumOfOnes(files);
    PyFileFilter(e, dirpath, listing);
    PyFileListingCount(e, dirpath, files);
  }

  /** The `.py` regular files of a listing, as tab-prefixed names, before sorting. */
  function TabbedUnsorted(e: Entries, listing: seq<Path>): seq<string> {
    Map(Map(Filter(listing, p => IsPyFile(e, p)), NameOf), n => "\t" + n)
  }

  /** Before sorting: one line per `.py` regular file, no two alike. */
  lemma TabbedUnsortedExact(e: Entries, dirpath: Path, listing: seq<Path>)
    requires IsDir(e, dirpath) && Listing(e, dirpath, listing)
    ensures var t := TabbedUnsorted(e, listing);
      && NoDup(t)
      && |t| == |PyFiles(e, dirpath)|
      && forall l :: l in t <==> exists p :: p in PyFiles(e, dirpath) && l == "\t" + NameOf(p)
  {
    var files := Filter(listing, p => IsPyFile(e, p));
    PyFileFilter(e, dirpath, listing);
    PyFileListingCount(e, dirpath, files);
    TabbedNoDup(e, dirpath, files);
    TabbedMembers(e, dirpath, files);
  }

  lemma TabbedNoDup(e: Entries, dirpath: Path, files: seq<Path>)
    requires PyFileListing(e, dirpath, files)
    ensures NoDup(Map(Map(files, NameOf), n => "\t" + n))
  {
    var names := Map(files, NameOf);
    assert forall i :: 0 <= i < |files| ==> files[i] in files;
    ContentNamesNoDup(e, dirpath, files);
    var tabbed := Map(names, n => "\t" + n);
    forall i, j | 0 <= i < j < |tabbed| ensures tabbed[i] != tabbed[j] {
      assert tabbed[i][1..] == names[i] && tabbed[j][1..] == names[j];
    }
  }

  lemma TabbedMembers(e: Entries, dirpath: Path, files: seq<Path>)
    requires PyFileListing(e, dirpath, files)
    ensures var tabbed := Map(Map(files, NameOf), n => "\t" + n);
      forall l :: l in tabbed <==> exists p :: p in PyFiles(e, dirpath) && l == "\t" + NameOf(p)
  {
    var tabbed := Map(Map(files, NameOf), n => "\t" + n);
    forall l ensures l in tabbed <==> exists p :: p in PyFiles(e, dirpath) && l == "\t" + NameOf(p) {
      if l in tabbed {
        var i :| 0 <= i < |tabbed| && tabbed[i] == l;
        assert files[i] in PyFiles(e, dirpath);
      }
      if exists p :: p in PyFiles(e, dirpath) && l == "\t" + NameOf(p) {
        var p :| p in PyFiles(e, dirpath) && l == "\t" + NameOf(p);
        var i :| 0 <= i < |files| && files[i] == p;
        assert tabbed[i] == l;
      }
    }
  }

  /** The listed lines are sorted, one per `.py` regular file, each its name after a tab. */
  lemma TabbedNamesExact(e: Entries, dirpath: Path, listing: seq<Path>)
    requires IsDir(e, dirpath) && Listing(e, dirpath, listing)
    ensures var ls := TabbedNames(e, listing);
      && Sorted(ls)
      && NoDup(ls)
      && |ls| == |PyFiles(e, dirpath)|
      && forall l :: l in ls <==> exists p :: p in PyFiles(e, dirpath) && l == "\t" + NameOf(p)
  {
    var t := TabbedUnsorted(e, listing);
    TabbedUnsortedExact(e, dirpath, listing);
    var ls := Sort(t);
    assert ls == TabbedNames(e, listing);
    forall l ensures l in ls <==> l in t {
      assert l in ls <==> l in multiset(t);
    }
    PermutationNoDup(ls, t);
  }

  /** `return_pyfiles_name` joins those lines with newlines; when no name holds
      a newline, splitting the result at newlines gives them back, so the
      count of `return_about_dir` is the number of names listed. */
  lemma PyfilesNameLines(e: Entries, dirpath: Path, listing: seq<Path>)
    requires IsDir(e, dirpath) && Listing(e, dirpath, listing)
    requires forall p :: p in PyFiles(e, dirpath) ==> '\n' !in NameOf(p)
    requires PyFiles(e, dirpath) != {}
    ensures Split(ReturnPyfilesName(e, dirpath, listing), '\n') == TabbedNames(e, listing)
    ensures |Split(ReturnPyfilesName(e, dirpath, listing), '\n')| == |PyFiles(e, dirpath)|
  {
    TabbedNamesExact(e, dirpath, listing);
    var ls := TabbedNames(e, listing);
    forall k | 0 <= k < |ls| ensures '\n' !in ls[k] {
      assert ls[k] in ls;
      var p :| p in PyFiles(e, dirpath) && ls[k] == "\t" + NameOf(p);
    }
    SplitJoin(ls, '\n');
  }

  /** A directory with no `.py` regular files gives `name(00)` and the empty string. */
  lemma EmptyDirectory(e: Entries, dirpath: Path, listing: seq<Path>)
    requires IsDir(e, dirpath) && Listing(e, dirpath, listing)
    requires PyFiles(e, dirpath) == {}
    ensures ReturnAboutDir(e, dirpath, listing) == NameOf(dirpath) + "(00)"
    ensures ReturnPyfilesName(e, dirpath, listing) == ""
  {
    AboutDirCount(e, dirpath, listing);
    Decimal.PaddedSingleDigit(0);
    TabbedNamesExact(e, dirpath, listing);
  }

  /** Neither report depends on the order `iterdir` produces. */
  lemma ListingOrderIrrelevant(e: Entries, dirpath: Path, xs: seq<Path>, ys: seq<Path>)
    requires Listing(e, dirpath, xs) && Listing(e, dirpath, ys)
    ensures ReturnAboutDir(e, dirpath, xs) == ReturnAboutDir(e, dirpath, ys)
    ensures ReturnPyfilesName(e, dirpath, xs) == ReturnPyfilesName(e, dirpath, ys)
  {
    if IsDir(e, dirpath) {
      AboutDirCount(e, dirpath, xs);
      AboutDirCount(e, dirpath, ys);
      TabbedNamesExact(e, dirpath, xs);
      TabbedNamesExact(e, dirpath, ys);
      var a, b := TabbedNames(e, xs), TabbedNames(e, ys);
      NoDupPermutation(a, b);
      SortedUnique(a, b);
    }
  }
}
