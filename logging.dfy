/**
 * Log configuration, the numbered-backup rotation of log files, and the
 * in-memory log capture (`LogCapture`).
 *
 * The rotation works on the log directory seen as the optional current log
 * plus a map from backup number i to the content of `stem.i.ext`; timestamps
 * of captured entries are their rendered text.
 */
module Logging {
  import opened Text

  datatype LevelFilter = Off | Error | Warn | Info | Debug | Trace

  datatype LoggingConfig = LoggingConfig(
    level: LevelFilter,
    logToFile: bool,
    logToConsole: bool,
    logFilePath: Option<string>,
    maxFileSize: nat,
    maxFiles: nat)

  const DefaultConfig: LoggingConfig := LoggingConfig(Info, true, true, None, 10 * 1024 * 1024, 5)

  /** The default allows ten mebibytes per file and five files. */
  lemma DefaultLimits()
    ensures DefaultConfig.maxFileSize == 10_485_760 && DefaultConfig.maxFiles == 5
    ensures DefaultConfig.level == Info && DefaultConfig.logFilePath.None?
  {
  }

  // ----------------------------------------------------------- rotation

  /** The name of backup i: "stem.i.ext". */
  function BackupName(stem: string, i: nat, ext: string): (n: string)
    ensures StartsWith(n, stem + ".") && EndsWith(n, "." + ext)
  {
    var n := stem + "." + NatToString(i) + "." + ext;
    assert n[..|stem + "."|] == stem + ".";
    assert n[|n| - |"." + ext|..] == "." + ext;
    n
  }

  /** Different backup numbers name different files. */
  lemma BackupNamesDistinct(stem: string, i: nat, j: nat, ext: string)
    requires i != j
    ensures BackupName(stem, i, ext) != BackupName(stem, j, ext)
  {
    var a := NatToString(i);
    var b := NatToString(j);
    if BackupName(stem, i, ext) == BackupName(stem, j, ext) {
      assert |a| == |b|;
      NumberOf(stem, a, ext);
      NumberOf(stem, b, ext);
      NatToStringValue(i);
      NatToStringValue(j);
      assert false;
    }
  }

  /** The number sits between the stem's dot and the extension's dot. */
  lemma NumberOf(stem: string, a: string, ext: string)
    ensures (stem + "." + a + "." + ext)[|stem| + 1..|stem| + 1 + |a|] == a
  {
    var x := stem + ".";
    var n := stem + "." + a + "." + ext;
    assert n == x + a + ("." + ext);
  }

  function Get(m: map<nat, string>, k: nat): Option<string>
  { if k in m then Some(m[k]) else None }

  /**
   * Backup k after the renaming loop has handled i = n−1 down to j+1:
   * numbers up to j are untouched, j+1 has been moved away (unless it is n),
   * and above it each slot holds what was one lower, or stays as it was when
   * nothing was one lower and the slot is the last one.
   */
  function Partial(old_: map<nat, string>, n: nat, j: nat, k: nat): Option<string>
  {
    if k == 0 || k > n || k <= j then Get(old_, k)
    else if k == j + 1 then (if k < n then None else Get(old_, k))
    else if k - 1 in old_ then Some(old_[k - 1])
    else if k == n then Get(old_, k)
    else None
  }

  /** Backup k after rotate_log_files with max_files = n. */
  function Rotated(current: Option<string>, old_: map<nat, string>, n: nat, k: nat): Option<string>
  { if k == 1 && current.Some? then current else Partial(old_, n, 0, k) }

  /**
   * rotate_log_files: for i = n−1 down to 1 move backup i to i+1 if it exists,
   * then move the current log to backup 1. Returns the current log (now gone)
   * and the backups.
   */
  method RotateLogFiles(current: Option<string>, backups: map<nat, string>, maxFiles: nat)
    returns (cur: Option<string>, b: map<nat, string>)
    ensures cur.None?
    ensures forall k: nat :: Get(b, k) == Rotated(current, backups, maxFiles, k)
  {
    b := backups;
    var i: nat := if maxFiles >= 1 then maxFiles - 1 else 0;
    while i >= 1
      invariant i <= maxFiles && (maxFiles >= 1 ==> i <= maxFiles - 1)
      invariant forall k: nat :: Get(b, k) == Partial(backups, maxFiles, i, k)
      decreases i
    {
      ghost var prev := b;
      assert Get(prev, i) == Get(backups, i);
      if i in b {
        b := b[i + 1 := b[i]] - {i};
      }
      forall k: nat ensures Get(b, k) == Partial(backups, maxFiles, i - 1, k) {
        assert Get(prev, k) == Partial(backups, maxFiles, i, k);
      }
      i := i - 1;
    }
    cur := current;
    if cur.Some? {
      b := b[1 := cur.value];
      cur := None;
    }
    forall k: nat ensures Get(b, k) == Rotated(current, backups, maxFiles, k) {
    }
  }

  /** The current log becomes backup 1, and backup i becomes backup i+1 for i < max_files. */
  lemma RotationShifts(current: Option<string>, old_: map<nat, string>, n: nat, k: nat)
    requires 2 <= k <= n && k - 1 in old_
    ensures Rotated(current, old_, n, k) == Some(old_[k - 1])
    ensures current.Some? ==> Rotated(current, old_, n, 1) == current
  {
  }

  /** The last backup is overwritten by the one before it; backups above max_files are untouched. */
  lemma RotationDropsOldest(current: Option<string>, old_: map<nat, string>, n: nat, k: nat)
    requires n >= 2
    ensures n - 1 in old_ ==> Rotated(current, old_, n, n) == Some(old_[n - 1])
    ensures k > n ==> Rotated(current, old_, n, k) == Get(old_, k)
    ensures current.None? ==> Rotated(current, old_, n, 1).None?
  {
  }

  /** With max_files ≤ 1 the loop is empty: only the current log moves, onto backup 1. */
  lemma NoLoopForOneFile(current: Option<string>, old_: map<nat, string>, n: nat, k: nat)
    requires n <= 1 && k != 1
    ensures Rotated(current, old_, n, k) == Get(old_, k)
  {
  }

  // ----------------------------------------------------------- capture

  datatype LogEntry = LogEntry(
    timestamp: string,
    level: string,
    message: string,
    module_: Option<string>,
    file: Option<string>,
    line: Option<nat>)

  /** add_entry: push, then remove the oldest when over the limit. */
  function Appended(es: seq<LogEntry>, max: nat, e: LogEntry): (r: seq<LogEntry>)
    ensures |es| <= max ==> |r| <= max
    ensures max >= 1 ==> r != [] && r[|r| - 1] == e
    ensures |es| < max ==> r == es + [e]
  {
    var pushed := es + [e];
    if |pushed| > max then pushed[1..] else pushed
  }

  /** What add_entry keeps is a suffix of the entries plus the new one: arrival order is kept. */
  lemma AppendedSuffix(es: seq<LogEntry>, max: nat, e: LogEntry)
    ensures |Appended(es, max, e)| <= |es| + 1
    ensures Appended(es, max, e) == (es + [e])[|es| + 1 - |Appended(es, max, e)|..]
  {
    if |es| + 1 > max {
      assert (es + [e])[1..] == (es + [e])[|es| + 1 - |Appended(es, max, e)|..];
    } else {
      assert es + [e] == (es + [e])[0..];
    }
  }

  /** get_entries_by_level: the entries with exactly that level, in order. */
  function ByLevel(es: seq<LogEntry>, level: string): (r: seq<LogEntry>)
    ensures |r| <= |es|
    ensures forall e :: e in r <==> e in es && e.level == level
  {
    if es == [] then []
    else (if es[0].level == level then [es[0]] else []) + ByLevel(es[1..], level)
  }

  lemma {:induction false} ByLevelAppend(a: seq<LogEntry>, b: seq<LogEntry>, level: string)
    ensures ByLevel(a + b, level) == ByLevel(a, level) + ByLevel(b, level)
  {
    if a == [] {
      assert a + b == b;
    } else {
      assert (a + b)[1..] == a[1..] + b;
      ByLevelAppend(a[1..], b, level);
    }
  }

  /** One exported line: "{timestamp} [{level}] {module or unknown} - {message}". */
  function ExportLine(e: LogEntry): (s: string)
    ensures StartsWith(s, e.timestamp + " [" + e.level + "] ")
    ensures e.module_.None? ==> StartsWith(s, e.timestamp + " [" + e.level + "] unknown - ")
  {
    var head := e.timestamp + " [" + e.level + "] ";
    var s := head + e.module_.UnwrapOr("unknown") + " - " + e.message;
    assert s[..|head|] == head;
    assert e.module_.None? ==> s[..|head + "unknown - "|] == head + "unknown - ";
    s
  }

  function ExportLines(es: seq<LogEntry>): (r: seq<string>)
    ensures |r| == |es| && forall i :: 0 <= i < |es| ==> r[i] == ExportLine(es[i])
  { seq(|es|, i requires 0 <= i < |es| => ExportLine(es[i])) }

  /** export_to_string: the lines joined by "\n". */
  function Export(es: seq<LogEntry>): string
  { Join(ExportLines(es), "\n") }

  /** No field of the entry holds a line break. */
  predicate SingleLine(e: LogEntry)
  {
    '\n' !in e.timestamp && '\n' !in e.level && '\n' !in e.message
    && (e.module_.Some? ==> '\n' !in e.module_.value)
  }

  lemma ExportLineSingle(e: LogEntry)
    requires SingleLine(e)
    ensures '\n' !in ExportLine(e)
  {
  }

  /** Splitting the export at "\n" gives back one line per entry when no field holds a line break. */
  lemma ExportOneLinePerEntry(es: seq<LogEntry>)
    requires es != [] && forall i :: 0 <= i < |es| ==> SingleLine(es[i])
    ensures Split(Export(es), '\n') == ExportLines(es)
  {
    forall i | 0 <= i < |es| ensures '\n' !in ExportLines(es)[i] {
      ExportLineSingle(es[i]);
    }
    SplitJoin(ExportLines(es), '\n');
  }

  class LogCapture {
    var entries: seq<LogEntry>
    const maxEntries: nat

    ghost predicate Valid()
      reads this
    { |entries| <= maxEntries }

    constructor (maxEntries: nat)
      ensures Valid() && entries == [] && this.maxEntries == maxEntries
    {
      entries := [];
      this.maxEntries := maxEntries;
    }

    method AddEntry(e: LogEntry)
      requires Valid()
      modifies this
      ensures Valid() && entries == Appended(old(entries), maxEntries, e)
    {
      entries := entries + [e];
      if |entries| > maxEntries {
        entries := entries[1..];
      }
    }

    method GetEntries() returns (r: seq<LogEntry>)
      ensures r == entries
    {
      r := entries;
    }

    method GetEntriesByLevel(level: string) returns (r: seq<LogEntry>)
      ensures r == ByLevel(entries, level)
    {
      r := ByLevel(entries, level);
    }

    method Clear()
      modifies this
      ensures Valid() && entries == []
    {
      entries := [];
    }

    method ExportToString() returns (s: string)
      ensures s == Export(entries)
    {
      s := Export(entries);
    }
  }
}
