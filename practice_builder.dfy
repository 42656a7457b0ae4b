/** code/practice_buidler.py: `PracBuilder`, which scaffolds a practice
    directory: the directory, its `__init__.py`, and numbered `.py` files.
    Every step leaves what exists alone and reports whether it created it. */
module PracticeBuilder {
  import opened Fs
  import Decimal

  /** The filesystem after a step and what the step returned or raised. */
  datatype BuildStep<T> = BuildStep(entries: Entries, result: Result<T>)

  function DirExistsMsg(d: Path): string { NameOf(d) + "-DIR exists." }
  function DirCreatedMsg(d: Path): string { NameOf(d) + "-DIR is created." }

  /** `setup_dir`: "exists" when anything is at `d`; otherwise `d.mkdir()`,
      which raises when the parent is not a directory. */
  function SetupDirSpec(e: Entries, d: Path): BuildStep<string> {
    if d in e then BuildStep(e, Ok(DirExistsMsg(d)))
    else
      var s := MkdirSpec(e, d, false);
      if s.outcome.Fail? then BuildStep(e, Err(s.outcome.error))
      else BuildStep(s.entries, Ok(DirCreatedMsg(d)))
  }

  /** `dir_path / "__init__.py"` */
  function InitFile(d: Path): Path { d + ["__init__.py"] }

  function InitExistsMsg(d: Path): string { "init.py in " + NameOf(d) + " exists." }
  function InitCreatedMsg(d: Path): string { "__init__.py in " + NameOf(d) + " is created." }

  /** `setup_init_file`: "exists" when anything is at `d/__init__.py`;
      otherwise `touch()`, which raises when `d` is not a directory. */
  function SetupInitFileSpec(e: Entries, d: Path): BuildStep<string> {
    var f := InitFile(d);
    if f in e then BuildStep(e, Ok(InitExistsMsg(d)))
    else
      var s := TouchSpec(e, f);
      if s.outcome.Fail? then BuildStep(e, Err(s.outcome.error))
      else BuildStep(s.entries, Ok(InitCreatedMsg(d)))
  }

  /** `f"{dir_name}{idx:02d}.py"` */
  function TargetName(d: Path, idx: nat): string {
    NameOf(d) + Decimal.Padded(idx, 2) + ".py"
  }

  /** `dir_path / f"{dir_name}{idx:02d}.py"` */
  function Target(d: Path, idx: nat): Path { d + [TargetName(d, idx)] }

  function FileExistsMsg(d: Path, idx: nat): string { TargetName(d, idx) + " exists." }
  function FileCreatedMsg(d: Path, idx: nat): string { TargetName(d, idx) + " is created." }

  /** One iteration of `make_py_files_in_total`, for file number `idx`. */
  function MakeFileStep(e: Entries, d: Path, idx: nat): BuildStep<string> {
    var f := Target(d, idx);
    if f in e then BuildStep(e, Ok(FileExistsMsg(d, idx)))
    else
      var s := TouchSpec(e, f);
      if s.outcome.Fail? then BuildStep(e, Err(s.outcome.error))
      else BuildStep(s.entries, Ok(FileCreatedMsg(d, idx)))
  }

  /** The first `k` iterations of `make_py_files_in_total`: files 1..k in
      turn, stopping at the first `touch` that raises. */
  function MakeFilesSpec(e: Entries, d: Path, k: nat): BuildStep<seq<string>> {
    if k == 0 then BuildStep(e, Ok([]))
    else
      var s := MakeFilesSpec(e, d, k - 1);
      if s.result.Err? then s
      else
        var t := MakeFileStep(s.entries, d, k);
        match t.result
        case Err(x) => BuildStep(s.entries, Err(x))
        case Ok(msg) => BuildStep(t.entries, Ok(s.result.value + [msg]))
  }

  /** `range(total)` has no iterations for `total <= 0`. */
  function Iterations(total: int): nat { if total <= 0 then 0 else total }

  /** After `setup_dir` something exists at `d`; the message is "exists"
      exactly when something was there before, with nothing changed, and "is
      created" exactly when a new directory was made; it raises only when `d`
      is absent and its parent is not a directory. */
  lemma SetupDirEffect(e: Entries, d: Path)
    ensures var s := SetupDirSpec(e, d);
      && (s.result == Ok(DirExistsMsg(d)) <==> d in e)
      && (s.result == Ok(DirCreatedMsg(d)) <==> d !in e && IsDir(e, Parent(d)))
      && (s.result.Err? <==> d !in e && !IsDir(e, Parent(d)))
      && (s.result.Ok? ==> d in s.entries)
      && (d in e ==> s.entries == e)
      && (d !in e && s.result.Ok? ==> s.entries == e[d := Dir])
  {
    MessagesDiffer(d);
  }

  /** The two messages of each step are different. */
  lemma MessagesDiffer(d: Path)
    ensures DirExistsMsg(d) != DirCreatedMsg(d)
    ensures InitExistsMsg(d) != InitCreatedMsg(d)
    ensures forall idx: nat :: FileExistsMsg(d, idx) != FileCreatedMsg(d, idx)
  {
    assert |DirExistsMsg(d)| < |DirCreatedMsg(d)|;
    assert |InitExistsMsg(d)| < |InitCreatedMsg(d)|;
    forall idx: nat ensures FileExistsMsg(d, idx) != FileCreatedMsg(d, idx) {
      assert |FileExistsMsg(d, idx)| < |FileCreatedMsg(d, idx)|;
    }
  }

  /** A second `setup_dir` after a successful one changes nothing and reports "exists". */
  lemma SetupDirIdempotent(e: Entries, d: Path)
    requires SetupDirSpec(e, d).result.Ok?
    ensures var e1 := SetupDirSpec(e, d).entries;
      SetupDirSpec(e1, d) == BuildStep(e1, Ok(DirExistsMsg(d)))
  {
  }

  /** After `setup_init_file`, `d/__init__.py` exists; "exists" exactly when
      it existed before, "is created" exactly when it was added as a file. */
  lemma SetupInitFileEffect(e: Entries, d: Path)
    ensures var s := SetupInitFileSpec(e, d);
      && (s.result == Ok(InitExistsMsg(d)) <==> InitFile(d) in e)
      && (s.result == Ok(InitCreatedMsg(d)) <==> InitFile(d) !in e && IsDir(e, d))
      && (s.result.Err? <==> InitFile(d) !in e && !IsDir(e, d))
      && (s.result.Ok? ==> InitFile(d) in s.entries)
      && (InitFile(d) in e ==> s.entries == e)
      && (InitFile(d) !in e && s.result.Ok? ==> s.entries == e[InitFile(d) := File])
  {
    MessagesDiffer(d);
    assert Parent(InitFile(d)) == d;
  }

  /** A second `setup_init_file` after a successful one changes nothing and reports "exists". */
  lemma SetupInitFileIdempotent(e: Entries, d: Path)
    requires SetupInitFileSpec(e, d).result.Ok?
    ensures var e1 := SetupInitFileSpec(e, d).entries;
      SetupInitFileSpec(e1, d) == BuildStep(e1, Ok(InitExistsMsg(d)))
  {
  }

  /** Distinct numbers give distinct file names. */
  lemma TargetInjective(d: Path, i: nat, j: nat)
    requires TargetName(d, i) == TargetName(d, j)
    ensures i == j
  {
    var n := |NameOf(d)|;
    var a, b := TargetName(d, i), TargetName(d, j);
    assert |Decimal.Padded(i, 2)| == |Decimal.Padded(j, 2)|;
    assert a[n..|a| - 3] == Decimal.Padded(i, 2);
    assert b[n..|b| - 3] == Decimal.Padded(j, 2);
    Decimal.PaddedInjective(i, j, 2);
  }

  /** The `k`-th message names file `k` and says whether it was created. */
  predicate IsMessageFor(d: Path, idx: nat, msg: string) {
    msg == FileExistsMsg(d, idx) || msg == FileCreatedMsg(d, idx)
  }

  /** `make_py_files_in_total` after `k` iterations, on success: one message
      per file, in order 1..k, saying "exists" exactly for the files that were
      there before the call, and every file 1..k exists. */
  lemma MakeFilesEffect(e: Entries, d: Path, k: nat)
    ensures var s := MakeFilesSpec(e, d, k);
      s.result.Ok? ==>
        && |s.result.value| == k
        && (forall i :: 0 <= i < k ==> IsMessageFor(d, i + 1, s.result.value[i]))
        && (forall i :: 0 <= i < k ==> (s.result.value[i] == FileExistsMsg(d, i + 1) <==> Target(d, i + 1) in e))
        && (forall idx :: 1 <= idx <= k ==> Target(d, idx) in s.entries)
  {
    MakeFilesMessages(e, d, k);
    MakeFilesReportsExisting(e, d, k);
    MakeFilesCreate(e, d, k);
  }

  /** Message `i` says "exists" exactly when file `i + 1` was there before
      the first iteration: the earlier iterations never add a later file. */
  lemma {:induction false} MakeFilesReportsExisting(e: Entries, d: Path, k: nat)
    ensures var s := MakeFilesSpec(e, d, k);
      s.result.Ok? ==>
        && |s.result.value| == k
        && forall i :: 0 <= i < k ==> (s.result.value[i] == FileExistsMsg(d, i + 1) <==> Target(d, i + 1) in e)
  {
    if k > 0 {
      var s := MakeFilesSpec(e, d, k - 1);
      MakeFilesReportsExisting(e, d, k - 1);
      if s.result.Ok? {
        var t := MakeFileStep(s.entries, d, k);
        if t.result.Ok? {
          MakeFileStepEffect(s.entries, d, k);
          MakeFilesFrame(e, d, k - 1);
          TargetIsNew(d, k);
          assert Target(d, k) in s.entries <==> Target(d, k) in e;
          var msgs := s.result.value + [t.result.value];
          assert MakeFilesSpec(e, d, k).result == Ok(msgs);
          assert forall i :: 0 <= i < k - 1 ==> msgs[i] == s.result.value[i];
        }
      }
    }
  }

  /** The number in a target's file name, read back. */
  function TargetNumber(d: Path, p: Path): nat {
    var n, m := NameOf(p), |NameOf(d)|;
    if m + 3 <= |n| && Decimal.AllDigits(n[m..|n| - 3]) then Decimal.Value(n[m..|n| - 3]) else 0
  }

  lemma TargetNumberOf(d: Path, idx: nat)
    ensures TargetNumber(d, Target(d, idx)) == idx
  {
    var a := TargetName(d, idx);
    assert NameOf(Target(d, idx)) == a;
    assert a[|NameOf(d)|..|a| - 3] == Decimal.Padded(idx, 2);
    Decimal.ValueOfPadded(idx, 2);
  }

  /** Distinct numbers give distinct files. */
  lemma TargetsDiffer(d: Path, i: nat, j: nat)
    requires i != j
    ensures Target(d, i) != Target(d, j)
  {
    TargetNumberOf(d, i);
    TargetNumberOf(d, j);
  }

  /** File `k` is none of the files 1..k-1. */
  lemma TargetIsNew(d: Path, k: nat)
    requires k >= 1
    ensures Target(d, k) !in Targets(d, k - 1)
  {
    var ts := Targets(d, k - 1);
    forall i | 0 <= i < |ts| ensures ts[i] != Target(d, k) {
      TargetsDiffer(d, i + 1, k);
    }
  }

  lemma {:induction false} MakeFilesMessages(e: Entries, d: Path, k: nat)
    ensures var s := MakeFilesSpec(e, d, k);
      s.result.Ok? ==>
        && |s.result.value| == k
        && (forall i :: 0 <= i < k ==> IsMessageFor(d, i + 1, s.result.value[i]))
  {
    if k > 0 {
      var s := MakeFilesSpec(e, d, k - 1);
      MakeFilesMessages(e, d, k - 1);
      if s.result.Ok? {
        var t := MakeFileStep(s.entries, d, k);
        MakeFileStepKeeps(s.entries, d, k);
        if t.result.Ok? {
          var msgs := s.result.value + [t.result.value];
          assert MakeFilesSpec(e, d, k).result == Ok(msgs);
          assert forall i :: 0 <= i < k - 1 ==> msgs[i] == s.result.value[i];
        }
      }
    }
  }

  lemma {:induction false} MakeFilesCreate(e: Entries, d: Path, k: nat)
    ensures var s := MakeFilesSpec(e, d, k);
      s.result.Ok? ==> forall idx :: 1 <= idx <= k ==> Target(d, idx) in s.entries
  {
    if k > 0 {
      var s := MakeFilesSpec(e, d, k - 1);
      MakeFilesCreate(e, d, k - 1);
      if s.result.Ok? {
        var t := MakeFileStep(s.entries, d, k);
        MakeFileStepKeeps(s.entries, d, k);
        if t.result.Ok? {
          assert MakeFilesSpec(e, d, k).entries == t.entries;
        }
      }
    }
  }

  /** One iteration keeps every entry it finds and, on success, leaves its
      file in place and reports on it. */
  lemma MakeFileStepKeeps(e: Entries, d: Path, idx: nat)
    ensures var t := MakeFileStep(e, d, idx);
      && (forall q :: q in e ==> q in t.entries)
      && (t.result.Ok? ==> Target(d, idx) in t.entries && IsMessageFor(d, idx, t.result.value))
  {
  }

  /** The files of iterations 1..k, in order. */
  function Targets(d: Path, k: nat): (ts: seq<Path>)
    ensures |ts| == k
    ensures forall i :: 0 <= i < k ==> ts[i] == Target(d, i + 1)
  {
    if k == 0 then [] else Targets(d, k - 1) + [Target(d, k)]
  }

  /** `make_py_files_in_total` after `k` iterations, success or not: entries
      that were there are unchanged, and the only new entries are files among
      the targets 1..k. */
  lemma {:induction false} MakeFilesFrame(e: Entries, d: Path, k: nat)
    ensures var s := MakeFilesSpec(e, d, k);
      && (forall q :: q in e ==> q in s.entries && s.entries[q] == e[q])
      && (forall q :: q in s.entries && q !in e ==> s.entries[q] == File && q in Targets(d, k))
  {
    if k > 0 {
      var s := MakeFilesSpec(e, d, k - 1);
      MakeFilesFrame(e, d, k - 1);
      if s.result.Ok? {
        var t := MakeFileStep(s.entries, d, k);
        MakeFileStepFrame(s.entries, d, k);
        assert MakeFilesSpec(e, d, k).entries == if t.result.Ok? then t.entries else s.entries;
        assert Targets(d, k) == Targets(d, k - 1) + [Target(d, k)];
      }
    }
  }

  /** One iteration changes no entry it finds and adds at most its own file. */
  lemma MakeFileStepFrame(e: Entries, d: Path, idx: nat)
    ensures var t := MakeFileStep(e, d, idx);
      && (forall q :: q in e ==> q in t.entries && t.entries[q] == e[q])
      && (forall q :: q in t.entries && q !in e ==> q == Target(d, idx) && t.entries[q] == File)
  {
  }

  /** A message says "exists" exactly when the file was there before the
      iteration; with `d` a directory no iteration raises. */
  lemma MakeFileStepEffect(e: Entries, d: Path, idx: nat)
    ensures var s := MakeFileStep(e, d, idx);
      && (s.result == Ok(FileExistsMsg(d, idx)) <==> Target(d, idx) in e)
      && (s.result == Ok(FileCreatedMsg(d, idx)) <==> Target(d, idx) !in e && IsDir(e, d))
      && (s.result.Err? <==> Target(d, idx) !in e && !IsDir(e, d))
  {
    MessagesDiffer(d);
    assert Parent(Target(d, idx)) == d;
  }

  /** Inside a directory the files are all made without error. */
  lemma {:induction false} MakeFilesInDirectory(e: Entries, d: Path, k: nat)
    requires IsDir(e, d)
    ensures MakeFilesSpec(e, d, k).result.Ok?
    ensures IsDir(MakeFilesSpec(e, d, k).entries, d)
  {
    if k > 0 {
      MakeFilesInDirectory(e, d, k - 1);
      MakeFileStepEffect(MakeFilesSpec(e, d, k - 1).entries, d, k);
      assert Target(d, k) != d;
    }
  }

  /** With every target already present the iterations change nothing and
      every message is "exists": in particular a second identical call. */
  lemma {:induction false} MakeFilesIdempotent(e: Entries, d: Path, k: nat)
    requires forall idx :: 1 <= idx <= k ==> Target(d, idx) in e
    ensures MakeFilesSpec(e, d, k).entries == e
    ensures var s := MakeFilesSpec(e, d, k);
      && s.result.Ok? && |s.result.value| == k
      && forall i :: 0 <= i < k ==> s.result.value[i] == FileExistsMsg(d, i + 1)
  {
    if k > 0 {
      MakeFilesIdempotent(e, d, k - 1);
    }
  }

  /** A second identical call after a successful one adds nothing and reports "exists" throughout. */
  lemma MakeFilesTwice(e: Entries, d: Path, k: nat)
    requires MakeFilesSpec(e, d, k).result.Ok?
    ensures var e1 := MakeFilesSpec(e, d, k).entries;
      && MakeFilesSpec(e1, d, k).entries == e1
      && MakeFilesSpec(e1, d, k).result.Ok?
      && |MakeFilesSpec(e1, d, k).result.value| == k
      && forall i :: 0 <= i < k ==> MakeFilesSpec(e1, d, k).result.value[i] == FileExistsMsg(d, i + 1)
  {
    MakeFilesEffect(e, d, k);
    MakeFilesIdempotent(MakeFilesSpec(e, d, k).entries, d, k);
  }

  /** Once an iteration raises, the later ones do not run. */
  lemma {:induction false} MakeFilesStopsAtFailure(e: Entries, d: Path, j: nat, k: nat)
    requires j <= k && MakeFilesSpec(e, d, j).result.Err?
    ensures MakeFilesSpec(e, d, k) == MakeFilesSpec(e, d, j)
    decreases k - j
  {
    if j < k {
      MakeFilesStopsAtFailure(e, d, j, k - 1);
    }
  }

  /** `PracBuilder`: the root is given (the source calls an unimported `project_root`). */
  class PracBuilder {
    const rootPath: Path

    constructor (root: Path)
      ensures rootPath == root
    {
      rootPath := root;
    }

    method SetupDir(fs: FileSystem, dirPath: Path) returns (r: Result<string>)
      modifies fs
      ensures BuildStep(fs.entries, r) == SetupDirSpec(old(fs.entries), dirPath)
    {
      if dirPath in fs.entries {
        return Ok(DirExistsMsg(dirPath));
      }
      var o := fs.Mkdir(dirPath, false);
      if o.Fail? {
        return Err(o.error);
      }
      r := Ok(DirCreatedMsg(dirPath));
    }

    method SetupInitFile(fs: FileSystem, dirPath: Path) returns (r: Result<string>)
      modifies fs
      ensures BuildStep(fs.entries, r) == SetupInitFileSpec(old(fs.entries), dirPath)
    {
      var initFilePath := InitFile(dirPath);
      if initFilePath in fs.entries {
        r := Ok(InitExistsMsg(dirPath));
      } else {
        var o := fs.Touch(initFilePath);
        if o.Fail? {
          return Err(o.error);
        }
        r := Ok(InitCreatedMsg(dirPath));
      }
    }

    method MakePyFilesInTotal(fs: FileSystem, dirPath: Path, total: int) returns (r: Result<seq<string>>)
      modifies fs
      ensures BuildStep(fs.entries, r) == MakeFilesSpec(old(fs.entries), dirPath, Iterations(total))
    {
      ghost var e0 := fs.entries;
      var msgs: seq<string> := [];
      var count := 0;
      while count < total
        invariant 0 <= count <= Iterations(total)
        invariant BuildStep(fs.entries, Ok(msgs)) == MakeFilesSpec(e0, dirPath, count)
      {
        var idx := count + 1;
        var filePath := dirPath + [TargetName(dirPath, idx)];
        if filePath in fs.entries {
          msgs := msgs + [FileExistsMsg(dirPath, idx)];
        } else {
          var o := fs.Touch(filePath);
          if o.Fail? {
            MakeFilesStopsAtFailure(e0, dirPath, idx, Iterations(total));
            return Err(o.error);
          }
          msgs := msgs + [FileCreatedMsg(dirPath, idx)];
        }
        count := count + 1;
      }
      r := Ok(msgs);
    }
  }
}
