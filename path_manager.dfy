/** code/path_manager.py: `PathManager`, which turns the configured directory
    names into paths under the root. */
module PathManagement {
  import opened Fs

  /** An element of `input_dirnames`. The list is typed `list[str]`, but
      nothing enforces that, so an element may also be an `os.PathLike`
      (a `Path`, carrying the string its `__fspath__` gives) or anything else.
      `Path / x` accepts a string or a path-like; the generator accepts only
      `isinstance(dirname, str)`. */
  datatype Dirname = Str(s: string) | PathLike(s: string) | Other

  /** What `Path / x` accepts. */
  predicate Joinable(x: Dirname) {
    !x.Other?
  }

  /** `[rootpath / dirname for dirname in names]`: `Path / x` raises
      `TypeError` for an `x` that is neither a string nor path-like. */
  function Dirpaths(root: Path, names: seq<Dirname>): (r: Result<seq<Path>>)
    ensures r.Ok? <==> forall i :: 0 <= i < |names| ==> Joinable(names[i])
    ensures r.Err? ==> r.error == TypeError
    ensures r.Ok? ==> |r.value| == |names| && forall i :: 0 <= i < |names| ==> r.value[i] == JoinName(root, names[i].s)
  {
    if names == [] then Ok([])
    else
      var init, last := names[..|names| - 1], names[|names| - 1];
      match (Dirpaths(root, init), last)
      case (Ok(ps), Str(s)) => Ok(ps + [JoinName(root, s)])
      case (Ok(ps), PathLike(s)) => Ok(ps + [JoinName(root, s)])
      case (Err(x), _) => Err(x)
      case (_, Other) => Err(TypeError)
  }

  /** The number of leading string names: how far the generator gets. */
  function StrPrefix(names: seq<Dirname>): (n: nat)
    ensures n <= |names|
    ensures forall i :: 0 <= i < n ==> names[i].Str?
    ensures n < |names| ==> !names[n].Str?
  {
    if names == [] then 0
    else if !names[0].Str? then 0
    else 1 + StrPrefix(names[1..])
  }

  /** When every name is a string the generator runs to the end and
      `get_dirpaths` succeeds; both give `rootpath / names[i]` at each `i`,
      so the generator yields exactly what `get_dirpaths` stores. */
  lemma {:induction false} GeneratorAgrees(root: Path, names: seq<Dirname>)
    requires forall i :: 0 <= i < |names| ==> names[i].Str?
    ensures StrPrefix(names) == |names|
    ensures Dirpaths(root, names).Ok?
  {
    if names != [] {
      GeneratorAgrees(root, names[1..]);
    }
  }

  /** A path-like name is where the two disagree: `get_dirpaths` joins it,
      the generator stops before it. */
  lemma PathLikeSplitsThem(root: Path, name: string)
    ensures Dirpaths(root, [PathLike(name)]) == Ok([JoinName(root, name)])
    ensures StrPrefix([PathLike(name)]) == 0
  {
    assert [PathLike(name)][..0] == [];
    assert Dirpaths(root, []) == Ok([]);
    assert [] + [JoinName(root, name)] == [JoinName(root, name)];
  }

  class PathManager {
    const rootpath: Path
    const inputDirnames: seq<Dirname>
    var dirpaths: Option<seq<Path>>

    /** The root is given: the source resolves it from its own file location. */
    constructor (root: Path, input: seq<Dirname>)
      ensures rootpath == root && inputDirnames == input && dirpaths == None
    {
      rootpath := root;
      inputDirnames := input;
      dirpaths := None;
    }

    /** `get_dirpath`: yields `rootpath / dirname` per name, stopping at the
        first non-string (a path-like included) with a bare `raise`, which
        outside an `except` raises `RuntimeError`. */
    method GetDirpath() returns (yielded: seq<Path>, r: Outcome)
      ensures var n := StrPrefix(inputDirnames);
        && |yielded| == n
        && (forall i :: 0 <= i < n ==> yielded[i] == JoinName(rootpath, inputDirnames[i].s))
        && (r.Pass? <==> n == |inputDirnames|)
        && (r.Fail? ==> r.error == RuntimeError)
    {
      yielded := [];
      var i := 0;
      while i < |inputDirnames|
        invariant 0 <= i <= StrPrefix(inputDirnames)
        invariant |yielded| == i
        invariant forall j :: 0 <= j < i ==> yielded[j] == JoinName(rootpath, inputDirnames[j].s)
      {
        var dirname := inputDirnames[i];
        if !dirname.Str? {
          return yielded, Fail(RuntimeError);
        }
        yielded := yielded + [JoinName(rootpath, dirname.s)];
        i := i + 1;
      }
      r := Pass;
    }

    /** `get_dirpaths`: stores the paths of all names, or raises `TypeError`
        leaving `dirpaths` as it was; the root and names never change. */
    method GetDirpaths() returns (r: Outcome)
      modifies this
      ensures r.Pass? <==> forall i :: 0 <= i < |inputDirnames| ==> Joinable(inputDirnames[i])
      ensures r.Fail? ==> r.error == TypeError && dirpaths == old(dirpaths)
      ensures r.Pass? ==> dirpaths == Some(Dirpaths(rootpath, inputDirnames).value)
    {
      var ps := Dirpaths(rootpath, inputDirnames);
      if ps.Err? {
        return Fail(ps.error);
      }
      dirpaths := Some(ps.value);
      r := Pass;
    }
  }
}
