/** code/loggers.py: numbering of the log files, `logs/prac_buildNNN.log`,
    one more than the `.log` files already in the logs directory. */
module Loggers {
  import opened Seqs
  import opened Text
  import opened Fs
  import Decimal

  /** A name `*.log` matches: it ends in `.log` (the star may match nothing). */
  predicate IsLogName(name: string) {
    EndsWith(name, ".log")
  }

  /** The entries of `d` that `d.glob("*.log")` yields; nothing when `d` is missing. */
  function LogFiles(e: Entries, d: Path): set<Path> {
    set p | p in Contents(e, d) && IsLogName(NameOf(p))
  }

  /** `count_logfile`: one more than the number of `*.log` entries. */
  method CountLogfile(e: Entries, logsDirpath: Path) returns (n: int)
    ensures n == |LogFiles(e, logsDirpath)| + 1
  {
    var listing := IterDir(e, logsDirpath);
    var matches := Filter(listing, p => IsLogName(NameOf(p)));
    ListingFilterCount(e, logsDirpath, listing, p => IsLogName(NameOf(p)), LogFiles(e, logsDirpath));
    var count := 0;
    for i := 0 to |matches|
      invariant count == i
    {
      count := count + 1;
    }
    n := count + 1;
  }

  /** `f"prac_build{log_number:03d}.log"` */
  function LogFileName(n: nat): string {
    "prac_build" + Decimal.Padded(n, 3) + ".log"
  }

  /** Distinct numbers name distinct log files. */
  lemma LogFileNameInjective(a: nat, b: nat)
    requires LogFileName(a) == LogFileName(b)
    ensures a == b
  {
    var x, y := LogFileName(a), LogFileName(b);
    assert |Decimal.Padded(a, 3)| == |Decimal.Padded(b, 3)|;
    assert x[10..|x| - 4] == Decimal.Padded(a, 3);
    assert y[10..|y| - 4] == Decimal.Padded(b, 3);
    Decimal.PaddedInjective(a, b, 3);
  }

  /** Reading the number back out of the name gives it back. */
  lemma LogFileNameNumber(n: nat)
    ensures var s := LogFileName(n);
      |s| >= 17 && Decimal.AllDigits(s[10..|s| - 4]) && Decimal.Value(s[10..|s| - 4]) == n
  {
    var s := LogFileName(n);
    assert s[10..|s| - 4] == Decimal.Padded(n, 3);
    Decimal.ValueOfPadded(n, 3);
  }

  /** A logs directory without `.log` entries, empty or missing, has no log
      files, so `count_logfile` gives number 1. */
  lemma NoLogFiles(e: Entries, d: Path)
    requires forall p :: p in Contents(e, d) ==> !IsLogName(NameOf(p))
    ensures LogFiles(e, d) == {}
    ensures |LogFiles(e, d)| + 1 == 1
  {
  }

  /** Entries whose names do not end in `.log` do not change the count. */
  lemma OtherEntriesIgnored(e: Entries, d: Path, p: Path, x: Entry)
    requires IsDir(e, d) && IsChild(d, p) && p !in e && !IsLogName(NameOf(p))
    ensures LogFiles(e[p := x], d) == LogFiles(e, d)
  {
    assert d != p;
  }

  /** A new log file in the directory raises the count by one. */
  lemma NewLogFileCounted(e: Entries, d: Path, p: Path)
    requires IsDir(e, d) && IsChild(d, p) && p !in e && IsLogName(NameOf(p))
    ensures |LogFiles(e[p := File], d)| == |LogFiles(e, d)| + 1
  {
    assert d != p;
    assert LogFiles(e[p := File], d) == LogFiles(e, d) + {p};
  }

  /** Three `.log` files written into a logs directory without any give number 4. */
  lemma ThreeLogFiles(e: Entries, d: Path)
    requires IsDir(e, d) && LogFiles(e, d) == {}
    requires d + ["dummy0.log"] !in e && d + ["dummy1.log"] !in e && d + ["dummy2.log"] !in e
    ensures |LogFiles(e[d + ["dummy0.log"] := File][d + ["dummy1.log"] := File][d + ["dummy2.log"] := File], d)| + 1 == 4
  {
    var a, b, c := d + ["dummy0.log"], d + ["dummy1.log"], d + ["dummy2.log"];
    assert a[..|d|] == d && b[..|d|] == d && c[..|d|] == d;
    assert NameOf(a) == "dummy0.log" && NameOf(b) == "dummy1.log" && NameOf(c) == "dummy2.log";
    assert a != b && b != c && a != c;
    NewLogFileCounted(e, d, a);
    NewLogFileCounted(e[a := File], d, b);
    NewLogFileCounted(e[a := File][b := File], d, c);
  }
}
