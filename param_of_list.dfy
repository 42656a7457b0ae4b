/** code/param_of_list.py: the `ListParam` converter of the `pbuild` command,
    which turns the `--dirnames` text into a list of directory names. */
module ParamOfList {
  import opened Seqs
  import opened Text
  import opened Ordering
  import opened Fs

  /** `get_dirnames_endswith_prac`: the names of the root's subdirectories that
      end in `_prac`, in the order of `rootListing` (the root's `iterdir()`);
      `iterdir` raises when the root is not a directory. */
  function DirnamesEndswithPrac(e: Entries, root: Path, rootListing: seq<Path>): Result<seq<string>> {
    if !IsDir(e, root) then Err(IterDirError(e, root))
    else Ok(Map(Filter(rootListing, p => IsDir(e, p) && EndsWith(NameOf(p), "_prac")), NameOf))
  }

  /** `ListParam.convert`: `none` and `all` in any case after trimming, else
      the sorted stripped pieces. */
  function Convert(value: string, e: Entries, root: Path, rootListing: seq<Path>): Result<seq<string>> {
    var v := Strip(value);
    if Lower(v) == "none" then Ok([])
    else if Lower(v) == "all" then DirnamesEndswithPrac(e, root, rootListing)
    else
      var dirnames := Sort(Pieces(v));
      if dirnames == [] then Ok([]) else Ok(dirnames)
  }

  /** The `_prac` listing holds each `_prac` subdirectory of the root once,
      and nothing else. */
  lemma DirnamesEndswithPracExact(e: Entries, root: Path, rootListing: seq<Path>)
    requires Listing(e, root, rootListing)
    ensures DirnamesEndswithPrac(e, root, rootListing).Ok? <==> IsDir(e, root)
    ensures var r := DirnamesEndswithPrac(e, root, rootListing);
      r.Ok? ==>
        && NoDup(r.value)
        && forall n :: n in r.value <==> IsDir(e, root + [n]) && EndsWith(n, "_prac")
  {
    if IsDir(e, root) {
      var keep := p => IsDir(e, p) && EndsWith(NameOf(p), "_prac");
      var ds := Filter(rootListing, keep);
      FilterNoDup(rootListing, keep);
      ContentNamesNoDup(e, root, ds);
      forall n ensures n in Map(ds, NameOf) <==> IsDir(e, root + [n]) && EndsWith(n, "_prac") {
        if n in Map(ds, NameOf) {
          var i :| 0 <= i < |ds| && Map(ds, NameOf)[i] == n;
          ContentsNames(e, root, ds[i], ds[i]);
        }
        if IsDir(e, root + [n]) && EndsWith(n, "_prac") {
          var p := root + [n];
          assert p[..|root|] == root;
          assert p in Contents(e, root);
          assert p in ds;
          var j :| 0 <= j < |ds| && ds[j] == p;
          assert Map(ds, NameOf)[j] == n;
        }
      }
    }
  }

  /** A trimmed value equal to `none` in any case gives the empty list. */
  lemma ConvertNone(value: string, e: Entries, root: Path, rootListing: seq<Path>)
    requires Lower(Strip(value)) == "none"
    ensures Convert(value, e, root, rootListing) == Ok([])
  {
  }

  /** A trimmed value equal to `all` in any case gives exactly the `_prac`
      subdirectories of the root, each once; with no root directory the
      listing raises. */
  lemma ConvertAll(value: string, e: Entries, root: Path, rootListing: seq<Path>)
    requires Listing(e, root, rootListing)
    requires Lower(Strip(value)) == "all"
    ensures var r := Convert(value, e, root, rootListing);
      && (!IsDir(e, root) ==> r == Err(IterDirError(e, root)))
      && (IsDir(e, root) ==>
            && r.Ok?
            && NoDup(r.value)
            && forall n :: n in r.value <==> IsDir(e, root + [n]) && EndsWith(n, "_prac"))
  {
    DirnamesEndswithPracExact(e, root, rootListing);
  }

  /** Any other value gives its stripped comma-separated pieces, sorted: one
      per piece (empty ones included), so the emptiness guard never fires. */
  lemma ConvertSplit(value: string, e: Entries, root: Path, rootListing: seq<Path>)
    requires Lower(Strip(value)) != "none" && Lower(Strip(value)) != "all"
    ensures var r := Convert(value, e, root, rootListing);
      && r == Ok(Sort(Pieces(Strip(value))))
      && Sorted(r.value)
      && multiset(r.value) == multiset(Pieces(Strip(value)))
      && |r.value| == CountChar(Strip(value), ',') + 1
      && r.value != []
      && forall k :: 0 <= k < |r.value| ==> IsTrimmed(r.value[k])
  {
    SplitEquation(value, e, root, rootListing);
    SortedPiecesTrimmed(Strip(value));
  }

  lemma SplitEquation(value: string, e: Entries, root: Path, rootListing: seq<Path>)
    requires Lower(Strip(value)) != "none" && Lower(Strip(value)) != "all"
    ensures Convert(value, e, root, rootListing) == Ok(Sort(Pieces(Strip(value))))
  {
  }

  /** Every piece is trimmed, so every sorted piece is. */
  lemma SortedPiecesTrimmed(v: string)
    ensures forall k :: 0 <= k < |Sort(Pieces(v))| ==> IsTrimmed(Sort(Pieces(v))[k])
  {
    PiecesTrimmed(v);
    PermutationPreserves(Sort(Pieces(v)), Pieces(v), IsTrimmed);
  }

  /** The split branch does not depend on the order of the pieces. */
  lemma ConvertSplitOrderInsensitive(a: string, b: string, e: Entries, root: Path, rootListing: seq<Path>)
    requires Lower(Strip(a)) != "none" && Lower(Strip(a)) != "all"
    requires Lower(Strip(b)) != "none" && Lower(Strip(b)) != "all"
    requires multiset(Pieces(Strip(a))) == multiset(Pieces(Strip(b)))
    ensures Convert(a, e, root, rootListing) == Convert(b, e, root, rootListing)
  {
    SortPermutationInvariant(Pieces(Strip(a)), Pieces(Strip(b)));
  }

  /** `"  NONE "` is the `none` sentinel. */
  lemma ConvertNoneExample(e: Entries, root: Path, rootListing: seq<Path>)
    ensures Convert("  NONE ", e, root, rootListing) == Ok([])
  {
    assert LStrip("  NONE ") == LStrip(" NONE ") == "NONE ";
    assert RStrip("NONE ") == "NONE";
    assert Lower("NONE") == "none";
    ConvertNone("  NONE ", e, root, rootListing);
  }

  /** `" , "` strips to `","`, which is no sentinel. */
  lemma BlankCommaStrips()
    ensures Strip(" , ") == ","
    ensures Lower(",") != "none" && Lower(",") != "all"
    ensures Pieces(",") == ["", ""]
  {
    assert LStrip(" , ") == ", ";
    assert RStrip(", ") == ",";
    assert Split(",", ',') == ["", ""];
  }

  /** As written: `" , "` gives two empty names instead of none; the guard on
      an empty result lets it through. */
  lemma ConvertKeepsEmptyPieces(e: Entries, root: Path, rootListing: seq<Path>)
    ensures Convert(" , ", e, root, rootListing) == Ok(["", ""])
  {
    BlankCommaStrips();
    SplitEquation(" , ", e, root, rootListing);
    assert Sort(["", ""]) == ["", ""];
  }

  /** The conversion with empty pieces dropped before sorting, as the guard
      on an empty result expects (and as the converter in cli/fmake.py does). */
  function ConvertDroppingEmpty(value: string, e: Entries, root: Path, rootListing: seq<Path>): Result<seq<string>> {
    var v := Strip(value);
    if Lower(v) == "none" then Ok([])
    else if Lower(v) == "all" then DirnamesEndswithPrac(e, root, rootListing)
    else
      var dirnames := Sort(NonEmpty(Pieces(v)));
      if dirnames == [] then Ok([]) else Ok(dirnames)
  }

  lemma DroppingEmptyEquation(value: string, e: Entries, root: Path, rootListing: seq<Path>)
    requires Lower(Strip(value)) != "none" && Lower(Strip(value)) != "all"
    ensures ConvertDroppingEmpty(value, e, root, rootListing) == Ok(Sort(NonEmpty(Pieces(Strip(value)))))
  {
  }

  /** With empty pieces dropped, the split branch gives the non-empty
      stripped pieces, sorted. */
  lemma ConvertDroppingEmptySplit(value: string, e: Entries, root: Path, rootListing: seq<Path>)
    requires Lower(Strip(value)) != "none" && Lower(Strip(value)) != "all"
    ensures var r := ConvertDroppingEmpty(value, e, root, rootListing);
      r.Ok? && Sorted(r.value) && multiset(r.value) == multiset(NonEmpty(Pieces(Strip(value))))
  {
    DroppingEmptyEquation(value, e, root, rootListing);
  }

  /** No name the corrected conversion returns is empty or padded. */
  lemma ConvertDroppingEmptyNames(value: string, e: Entries, root: Path, rootListing: seq<Path>)
    requires Lower(Strip(value)) != "none" && Lower(Strip(value)) != "all"
    ensures var r := ConvertDroppingEmpty(value, e, root, rootListing);
      r.Ok? && forall k :: 0 <= k < |r.value| ==> r.value[k] != "" && IsTrimmed(r.value[k])
  {
    DroppingEmptyEquation(value, e, root, rootListing);
    SortedNonEmptyPieces(Strip(value));
  }

  /** The corrected conversion returns no names exactly when every piece is blank. */
  lemma ConvertDroppingEmptyEmpty(value: string, e: Entries, root: Path, rootListing: seq<Path>)
    requires Lower(Strip(value)) != "none" && Lower(Strip(value)) != "all"
    ensures var ps := Pieces(Strip(value));
      ConvertDroppingEmpty(value, e, root, rootListing) == Ok([]) <==> forall k :: 0 <= k < |ps| ==> ps[k] == ""
  {
    DroppingEmptyEquation(value, e, root, rootListing);
    SortedNonEmptyPieces(Strip(value));
  }

  /** Sorting the non-empty pieces keeps them non-empty and trimmed; nothing is
      left exactly when every piece is empty. */
  lemma SortedNonEmpty(ps: seq<string>)
    requires forall k :: 0 <= k < |ps| ==> IsTrimmed(ps[k])
    ensures var r := Sort(NonEmpty(ps));
      && (forall k :: 0 <= k < |r| ==> r[k] != "" && IsTrimmed(r[k]))
      && (r == [] <==> forall k :: 0 <= k < |ps| ==> ps[k] == "")
  {
    var kept := NonEmpty(ps);
    assert forall k :: 0 <= k < |kept| ==> kept[k] != "" && IsTrimmed(kept[k]);
    PermutationPreserves(Sort(kept), kept, p => p != "" && IsTrimmed(p));
    assert forall k :: 0 <= k < |ps| && ps[k] != "" ==> ps[k] in kept;
  }

  lemma SortedNonEmptyPieces(v: string)
    ensures var ps := Pieces(v);
      var r := Sort(NonEmpty(ps));
      && (forall k :: 0 <= k < |r| ==> r[k] != "" && IsTrimmed(r[k]))
      && (r == [] <==> forall k :: 0 <= k < |ps| ==> ps[k] == "")
  {
    PiecesTrimmed(v);
    SortedNonEmpty(Pieces(v));
  }

  /** On the input that shows the discrepancy, the corrected conversion gives no names. */
  lemma ConvertDroppingEmptyBlank(e: Entries, root: Path, rootListing: seq<Path>)
    ensures ConvertDroppingEmpty(" , ", e, root, rootListing) == Ok([])
  {
    BlankCommaStrips();
    DroppingEmptyEquation(" , ", e, root, rootListing);
    SortedNonEmptyPieces(",");
  }
}
