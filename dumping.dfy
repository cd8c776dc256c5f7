/** ScRNAAnalysis.parallel_fastq_dump: for each registered accession, in
    registry order, enter its folder, run parallel-fastq-dump into
    `fastqs/`, rename what it wrote and record `fastq_dir`. */
module Dumping {
  import opened Outcomes
  import opened Paths
  import opened Commands
  import opened Registry
  import opened FastqNames
  import opened Renaming
  import opened Fetching

  /** The fastq directory parallel-fastq-dump fills, under a sample folder. */
  function FastqsOf(srrDir: string): string {
    srrDir + "/fastqs"
  }

  /** The fastq directory of an accession after the tool ran. `dumped[id]` is
      what os.listdir returns for it then: the files the tool wrote together
      with any left there by an earlier run, all of which exist afterwards.
      `id !in dumped` means the tool created no such directory. */
  function DumpOutput(fq: string, id: string, dumped: map<string, seq<string>>): set<string> {
    if id in dumped then {fq} + (set i | 0 <= i < |dumped[id]| :: InDir(fq, dumped[id][i])) else {}
  }

  function Listing(id: string, dumped: map<string, seq<string>>): seq<string> {
    if id in dumped then dumped[id] else []
  }

  /** One pass of the loop, for accession `id`. */
  function DumpStep(r: Run, id: string, threads: int, dumped: map<string, seq<string>>): (r': Run)
    requires r.s.Valid() && id in r.s.loc.records
    ensures r'.s.Valid() && r'.s.srrList == r.s.srrList
    ensures r'.s.loc.keys == r.s.loc.keys && r'.s.loc.records.Keys == r.s.loc.records.Keys
  {
    var rec := r.s.loc.records[id];
    if SrrDir !in rec then r.(err := Some(KeyMissing(SrrDir)))
    else
      var dir := rec[SrrDir];
      if dir !in r.paths then r.(err := Some(FileNotFound(dir)))
      else
        var fq := FastqsOf(dir);
        var log := r.log + [DumpArgs(id, threads)];
        var paths := r.paths + DumpOutput(fq, id, dumped);
        var rn := RenameInDir(paths, fq, Listing(id, dumped));
        if rn.err.Some? then Run(r.s, rn.paths, log, rn.err)
        else Run(r.s.(loc := r.s.loc.SetField(id, FastqDir, fq)), rn.paths, log, None)
  }

  /** The loop over `ids`, stopping at the first exception. */
  function DumpRun(r: Run, ids: seq<string>, threads: int, dumped: map<string, seq<string>>): (r': Run)
    requires r.s.Valid() && AllIn(ids, r.s.loc)
    ensures r'.s.Valid() && r'.s.srrList == r.s.srrList
    ensures r'.s.loc.keys == r.s.loc.keys && r'.s.loc.records.Keys == r.s.loc.records.Keys
    decreases |ids|
  {
    if ids == [] || r.err.Some? then r
    else DumpRun(DumpStep(r, ids[0], threads, dumped), ids[1..], threads, dumped)
  }

  /** The whole method: enter the home folder, fetch first when the registry
      is empty, then dump every registered accession. */
  function DumpAll(s: Session, listFile: Option<string>, accListPath: string, home: string,
                   paths: set<string>, fetched: set<string>, threads: int,
                   dumped: map<string, seq<string>>): (r: Run)
    requires s.Valid()
    ensures r.s.Valid()
  {
    if home !in paths then Run(s, paths, [], Some(FileNotFound(home)))
    else
      var start := if |s.loc.keys| == 0 then Prefetch(s, listFile, accListPath, paths, home, fetched)
                   else Run(s, paths, [], None);
      if start.err.Some? then start
      else
        assert AllIn(start.s.loc.keys, start.s.loc);
        DumpRun(start, start.s.loc.keys, threads, dumped)
  }

  // ---------------------------------------------------------------------

  /** The only field a pass writes is `fastq_dir`, set to the `fastqs`
      directory under the accession's own folder, and only on success. */
  lemma DumpStepRecord(r: Run, id: string, threads: int, dumped: map<string, seq<string>>, x: string)
    requires r.s.Valid() && id in r.s.loc.records && x in r.s.loc.records
    ensures var r' := DumpStep(r, id, threads, dumped);
      r'.s.loc.records[x] ==
        if x == id && r'.err.None? then r.s.loc.records[x][FastqDir := FastqsOf(r.s.loc.records[x][SrrDir])]
        else r.s.loc.records[x]
  {
  }

  /** A pass that raises nothing ran one dump of the accession, which had a
      folder. */
  lemma DumpStepClean(r: Run, id: string, threads: int, dumped: map<string, seq<string>>)
    requires r.s.Valid() && id in r.s.loc.records
    ensures var r' := DumpStep(r, id, threads, dumped);
      r'.err.None? ==> SrrDir in r.s.loc.records[id] && r'.log == r.log + [DumpArgs(id, threads)]
  {
  }

  /** What the loop does to one record: unchanged, or `fastq_dir` set to
      the `fastqs` directory under `SRR_dir`. */
  ghost predicate DumpedOrSame(before: Record, after: Record) {
    after == before || (SrrDir in before && after == before[FastqDir := FastqsOf(before[SrrDir])])
  }

  lemma {:induction false} DumpRunRecord(r: Run, ids: seq<string>, threads: int, dumped: map<string, seq<string>>, x: string)
    requires r.s.Valid() && AllIn(ids, r.s.loc) && x in r.s.loc.records
    ensures var r' := DumpRun(r, ids, threads, dumped);
      && DumpedOrSame(r.s.loc.records[x], r'.s.loc.records[x])
      && (x !in ids ==> r'.s.loc.records[x] == r.s.loc.records[x])
    decreases |ids|
  {
    if ids != [] && r.err.None? {
      var next := DumpStep(r, ids[0], threads, dumped);
      DumpStepRecord(r, ids[0], threads, dumped, x);
      DumpRunRecord(next, ids[1..], threads, dumped, x);
      assert x !in ids ==> x !in ids[1..];
      DumpedTwice(r.s.loc.records[x], next.s.loc.records[x], DumpRun(next, ids[1..], threads, dumped).s.loc.records[x]);
    }
  }

  /** Recording `fastq_dir` again changes nothing. */
  lemma DumpedTwice(a: Record, b: Record, c: Record)
    requires DumpedOrSame(a, b) && DumpedOrSame(b, c)
    ensures DumpedOrSame(a, c)
  {
    if b != a {
      assert SrrDir in a && b == a[FastqDir := FastqsOf(a[SrrDir])];
      assert b[FastqDir := FastqsOf(b[SrrDir])] == b;
    }
  }

  /** A clean run has recorded `fastq_dir` for every accession it visited. */
  lemma {:induction false} DumpRunComplete(r: Run, ids: seq<string>, threads: int, dumped: map<string, seq<string>>, x: string)
    requires r.s.Valid() && AllIn(ids, r.s.loc) && x in ids
    ensures var r' := DumpRun(r, ids, threads, dumped);
      r'.err.None? ==>
        && SrrDir in r.s.loc.records[x]
        && r'.s.loc.records[x] == r.s.loc.records[x][FastqDir := FastqsOf(r.s.loc.records[x][SrrDir])]
    decreases |ids|
  {
    if r.err.None? {
      var next := DumpStep(r, ids[0], threads, dumped);
      DumpRunErrorSticks(next, ids[1..], threads, dumped);
      if x == ids[0] {
        if next.err.None? {
          DumpRunCompleteFirst(r, ids, threads, dumped);
        }
      } else {
        assert x in ids[1..];
        DumpStepRecord(r, ids[0], threads, dumped, x);
        DumpRunComplete(next, ids[1..], threads, dumped, x);
      }
    }
  }

  lemma DumpRunCompleteFirst(r: Run, ids: seq<string>, threads: int, dumped: map<string, seq<string>>)
    requires r.s.Valid() && AllIn(ids, r.s.loc) && ids != [] && r.err.None?
    requires DumpStep(r, ids[0], threads, dumped).err.None?
    ensures var r' := DumpRun(r, ids, threads, dumped);
      && SrrDir in r.s.loc.records[ids[0]]
      && r'.s.loc.records[ids[0]] == r.s.loc.records[ids[0]][FastqDir := FastqsOf(r.s.loc.records[ids[0]][SrrDir])]
  {
    var next := DumpStep(r, ids[0], threads, dumped);
    DumpStepClean(r, ids[0], threads, dumped);
    DumpStepRecord(r, ids[0], threads, dumped, ids[0]);
    DumpRunRecord(next, ids[1..], threads, dumped, ids[0]);
    var after := next.s.loc.records[ids[0]];
    assert after[FastqDir := FastqsOf(after[SrrDir])] == after;
  }

  /** The loop from position `i` on is one pass and then the loop from
      `i + 1` on. */
  lemma DumpRunFrom(r: Run, ids: seq<string>, i: nat, threads: int, dumped: map<string, seq<string>>)
    requires r.s.Valid() && r.err.None? && i < |ids| && AllIn(ids[i..], r.s.loc)
    ensures ids[i] in r.s.loc.records && AllIn(ids[i + 1..], r.s.loc)
    ensures DumpRun(r, ids[i..], threads, dumped)
         == DumpRun(DumpStep(r, ids[i], threads, dumped), ids[i + 1..], threads, dumped)
  {
    assert ids[i..][0] == ids[i] && ids[i..][1..] == ids[i + 1..];
  }

  /** Once an exception is raised, the loop stops where it is. */
  lemma DumpRunErrorSticks(r: Run, ids: seq<string>, threads: int, dumped: map<string, seq<string>>)
    requires r.s.Valid() && AllIn(ids, r.s.loc)
    ensures r.err.Some? ==> DumpRun(r, ids, threads, dumped) == r
  {
  }

  /** Every command the loop runs is a dump of one of its accessions, in
      order: a clean run dumps each of them exactly once. */
  function DumpLog(ids: seq<string>, threads: int): (log: seq<Command>)
    ensures |log| == |ids|
    ensures forall i :: 0 <= i < |ids| ==> log[i] == DumpArgs(ids[i], threads)
  {
    if ids == [] then [] else [DumpArgs(ids[0], threads)] + DumpLog(ids[1..], threads)
  }

  lemma {:induction false} DumpRunLog(r: Run, ids: seq<string>, threads: int, dumped: map<string, seq<string>>)
    requires r.s.Valid() && AllIn(ids, r.s.loc) && r.err.None?
    ensures var r' := DumpRun(r, ids, threads, dumped);
      r'.err.None? ==> r'.log == r.log + DumpLog(ids, threads)
    decreases |ids|
  {
    if ids != [] {
      var next := DumpStep(r, ids[0], threads, dumped);
      DumpRunErrorSticks(next, ids[1..], threads, dumped);
      DumpStepClean(r, ids[0], threads, dumped);
      if next.err.None? {
        DumpRunLog(next, ids[1..], threads, dumped);
        var a, rest := DumpArgs(ids[0], threads), DumpLog(ids[1..], threads);
        assert DumpLog(ids, threads) == [a] + rest;
        LogAppend(r.log, a, rest);
      }
    }
  }

  /** An accession without `SRR_dir` (registered but never fetched) makes
      the run fail. */
  lemma {:induction false} DumpRunNeedsFolders(r: Run, ids: seq<string>, threads: int, dumped: map<string, seq<string>>, k: nat)
    requires r.s.Valid() && AllIn(ids, r.s.loc) && k < |ids|
    requires SrrDir !in r.s.loc.records[ids[k]]
    ensures DumpRun(r, ids, threads, dumped).err.Some?
  {
    DumpRunComplete(r, ids, threads, dumped, ids[k]);
  }

  /** A listing that holds a name the rename refuses, such as a Cell Ranger
      name left in `fastqs/` by an earlier run, makes the pass raise. */
  lemma {:induction false} DumpStepLeftoverRefused(r: Run, id: string, threads: int,
                                                   dumped: map<string, seq<string>>, k: nat)
    requires r.s.Valid() && id in r.s.loc.records && id in dumped && k < |dumped[id]|
    requires RenameTarget(dumped[id][k]).Err?
    ensures DumpStep(r, id, threads, dumped).err.Some?
  {
    var rec := r.s.loc.records[id];
    if SrrDir in rec && rec[SrrDir] in r.paths {
      var fq := FastqsOf(rec[SrrDir]);
      var paths := r.paths + DumpOutput(fq, id, dumped);
      assert fq in paths;
      RenameAllStopsAtBadName(paths, fq, dumped[id], k);
    }
  }

  lemma LogAppend(log: seq<Command>, c: Command, rest: seq<Command>)
    ensures (log + [c]) + rest == log + ([c] + rest)
  {
  }

  /** The method as a whole: a missing home folder raises at once; a clean
      run leaves every registered accession with `fastq_dir` naming the
      `fastqs` directory under its `SRR_dir`. */
  lemma DumpAllOutcome(s: Session, listFile: Option<string>, accListPath: string, home: string,
                       paths: set<string>, fetched: set<string>, threads: int,
                       dumped: map<string, seq<string>>, x: string)
    requires s.Valid()
    ensures var r := DumpAll(s, listFile, accListPath, home, paths, fetched, threads, dumped);
      && (home !in paths ==> r == Run(s, paths, [], Some(FileNotFound(home))))
      && (r.err.None? && x in r.s.loc.records ==>
            SrrDir in r.s.loc.records[x] && FastqDir in r.s.loc.records[x]
            && r.s.loc.records[x][FastqDir] == FastqsOf(r.s.loc.records[x][SrrDir]))
  {
    var r := DumpAll(s, listFile, accListPath, home, paths, fetched, threads, dumped);
    if home in paths && r.err.None? && x in r.s.loc.records {
      var start := if |s.loc.keys| == 0 then Prefetch(s, listFile, accListPath, paths, home, fetched)
                   else Run(s, paths, [], None);
      var keys := start.s.loc.keys;
      assert AllIn(keys, start.s.loc);
      assert r == DumpRun(start, keys, threads, dumped);
      DumpRunComplete(start, keys, threads, dumped, x);
    }
  }
}
