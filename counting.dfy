/** ScRNAAnalysis.cellranger_count: for each accession, enter its folder,
    run `cellranger count` on its fastq directory, move the output folder
    `<id>` to `cellranger_<id>` and record it. */
module Counting {
  import opened Outcomes
  import opened Paths
  import opened Commands
  import opened Registry
  import opened Renaming
  import opened Dumping

  /** Where the output of one sample ends up: `<SRR_dir>/cellranger_<id>`. */
  function CountDirOf(srrDir: string, id: string): string {
    InDir(srrDir, "cellranger_" + id)
  }

  /** One pass of the loop. `produced` holds the accessions whose
      cellranger run wrote its output folder `<SRR_dir>/<id>`. */
  function CountStep(r: Run, id: string, transcriptome: Option<string>, cores: Option<int>,
                     mem: Option<int>, produced: set<string>): (r': Run)
    requires r.s.Valid()
    ensures r'.s.Valid() && r'.s.srrList == r.s.srrList
    ensures r'.s.loc.keys == r.s.loc.keys && r'.s.loc.records.Keys == r.s.loc.records.Keys
  {
    if id !in r.s.loc.records then r.(err := Some(KeyMissing(id)))
    else
      var rec := r.s.loc.records[id];
      if SrrDir !in rec then r.(err := Some(KeyMissing(SrrDir)))
      else
        var cwd := rec[SrrDir];
        if cwd !in r.paths then r.(err := Some(FileNotFound(cwd)))
        else
          var log := r.log + [CountArgs(id, transcriptome, cwd, cores, mem)];
          var out := InDir(cwd, id);
          var paths := if id in produced then r.paths + {out} else r.paths;
          if out !in paths then Run(r.s, paths, log, Some(FileNotFound(out)))
          else
            var dest := CountDirOf(cwd, id);
            Run(r.s.(loc := r.s.loc.SetField(id, CellrangerDir, dest)), MovePath(paths, out, dest), log, None)
  }

  /** The loop over `ids`, stopping at the first exception. */
  function CountRun(r: Run, ids: seq<string>, transcriptome: Option<string>, cores: Option<int>,
                    mem: Option<int>, produced: set<string>): (r': Run)
    requires r.s.Valid()
    ensures r'.s.Valid() && r'.s.srrList == r.s.srrList
    ensures r'.s.loc.keys == r.s.loc.keys && r'.s.loc.records.Keys == r.s.loc.records.Keys
    decreases |ids|
  {
    if ids == [] || r.err.Some? then r
    else CountRun(CountStep(r, ids[0], transcriptome, cores, mem, produced), ids[1..],
                  transcriptome, cores, mem, produced)
  }

  /** The whole method: the given ids, or the accession list when none are
      given; iterating over a list that was never read is a TypeError. */
  function CountAll(s: Session, ids: Option<seq<string>>, transcriptome: Option<string>,
                    cores: Option<int>, mem: Option<int>, paths: set<string>, produced: set<string>): (r: Run)
    requires s.Valid()
    ensures r.s.Valid()
  {
    var list := if ids.Some? then ids else s.srrList;
    if list.None? then Run(s, paths, [], Some(NotIterable))
    else CountRun(Run(s, paths, [], None), list.value, transcriptome, cores, mem, produced)
  }

  // ---------------------------------------------------------------------

  /** Every id has a record with a folder. */
  ghost predicate AllFetched(loc: Locations, ids: seq<string>) {
    forall i :: 0 <= i < |ids| ==> ids[i] in loc.records && SrrDir in loc.records[ids[i]]
  }

  /** The commands a clean loop runs, one per id, in order. */
  function CountLog(loc: Locations, ids: seq<string>, transcriptome: Option<string>,
                    cores: Option<int>, mem: Option<int>): (log: seq<Command>)
    requires AllFetched(loc, ids)
    ensures |log| == |ids|
    ensures forall i :: 0 <= i < |ids| ==>
      log[i] == CountArgs(ids[i], transcriptome, loc.records[ids[i]][SrrDir], cores, mem)
  {
    if ids == [] then []
    else [CountArgs(ids[0], transcriptome, loc.records[ids[0]][SrrDir], cores, mem)]
         + CountLog(loc, ids[1..], transcriptome, cores, mem)
  }

  /** The only field a pass writes is `cellranger_dir`, set to
      `cellranger_<id>` beside the accession's own folder, and only on
      success; a pass that raises nothing found the record and its folder
      and ran one cellranger command. */
  lemma CountStepEffect(r: Run, id: string, transcriptome: Option<string>, cores: Option<int>,
                        mem: Option<int>, produced: set<string>, x: string)
    requires r.s.Valid() && x in r.s.loc.records
    ensures var r' := CountStep(r, id, transcriptome, cores, mem, produced);
      && r'.s.loc.records[x] ==
           (if x == id && r'.err.None? then r.s.loc.records[x][CellrangerDir := CountDirOf(r.s.loc.records[x][SrrDir], x)]
            else r.s.loc.records[x])
      && (r'.err.None? ==>
            && id in r.s.loc.records && SrrDir in r.s.loc.records[id]
            && r'.log == r.log + [CountArgs(id, transcriptome, r.s.loc.records[id][SrrDir], cores, mem)])
  {
  }

  /** What the loop does to the record of `x`: unchanged, or
      `cellranger_dir` set beside its folder. */
  ghost predicate CountedOrSame(x: string, before: Record, after: Record) {
    after == before || (SrrDir in before && after == before[CellrangerDir := CountDirOf(before[SrrDir], x)])
  }

  lemma {:induction false} CountRunRecord(r: Run, ids: seq<string>, transcriptome: Option<string>,
                                          cores: Option<int>, mem: Option<int>, produced: set<string>, x: string)
    requires r.s.Valid() && x in r.s.loc.records
    ensures var r' := CountRun(r, ids, transcriptome, cores, mem, produced);
      && CountedOrSame(x, r.s.loc.records[x], r'.s.loc.records[x])
      && (x !in ids ==> r'.s.loc.records[x] == r.s.loc.records[x])
    decreases |ids|
  {
    if ids != [] && r.err.None? {
      var next := CountStep(r, ids[0], transcriptome, cores, mem, produced);
      CountStepEffect(r, ids[0], transcriptome, cores, mem, produced, x);
      CountRunRecord(next, ids[1..], transcriptome, cores, mem, produced, x);
      assert x !in ids ==> x !in ids[1..];
      CountedTwice(x, r.s.loc.records[x], next.s.loc.records[x],
                   CountRun(next, ids[1..], transcriptome, cores, mem, produced).s.loc.records[x]);
    }
  }

  /** Recording `cellranger_dir` again changes nothing. */
  lemma CountedTwice(x: string, a: Record, b: Record, c: Record)
    requires CountedOrSame(x, a, b) && CountedOrSame(x, b, c)
    ensures CountedOrSame(x, a, c)
  {
    if b != a {
      assert SrrDir in a && b == a[CellrangerDir := CountDirOf(a[SrrDir], x)];
      assert b[CellrangerDir := CountDirOf(b[SrrDir], x)] == b;
    }
  }

  /** The loop from position `i` on is one pass and then the loop from
      `i + 1` on. */
  lemma CountRunFrom(r: Run, ids: seq<string>, i: nat, transcriptome: Option<string>, cores: Option<int>,
                     mem: Option<int>, produced: set<string>)
    requires r.s.Valid() && r.err.None? && i < |ids|
    ensures CountRun(r, ids[i..], transcriptome, cores, mem, produced)
         == CountRun(CountStep(r, ids[i], transcriptome, cores, mem, produced), ids[i + 1..],
                     transcriptome, cores, mem, produced)
  {
    assert ids[i..][0] == ids[i] && ids[i..][1..] == ids[i + 1..];
  }

  /** Once an exception is raised, the loop stops where it is. */
  lemma CountRunErrorSticks(r: Run, ids: seq<string>, transcriptome: Option<string>,
                            cores: Option<int>, mem: Option<int>, produced: set<string>)
    requires r.s.Valid()
    ensures r.err.Some? ==> CountRun(r, ids, transcriptome, cores, mem, produced) == r
  {
  }

  /** Two registries agree on which accessions have which folder. */
  ghost predicate SameFolders(a: Locations, b: Locations) {
    && a.records.Keys == b.records.Keys
    && forall x :: x in a.records ==>
      && (SrrDir in a.records[x] <==> SrrDir in b.records[x])
      && (SrrDir in a.records[x] ==> a.records[x][SrrDir] == b.records[x][SrrDir])
  }

  /** Counting never moves a sample's folder. */
  lemma CountStepKeepsFolders(r: Run, id: string, transcriptome: Option<string>, cores: Option<int>,
                              mem: Option<int>, produced: set<string>)
    requires r.s.Valid()
    ensures SameFolders(r.s.loc, CountStep(r, id, transcriptome, cores, mem, produced).s.loc)
  {
    forall x | x in r.s.loc.records
      ensures var b := CountStep(r, id, transcriptome, cores, mem, produced).s.loc;
        && (SrrDir in r.s.loc.records[x] <==> SrrDir in b.records[x])
        && (SrrDir in r.s.loc.records[x] ==> r.s.loc.records[x][SrrDir] == b.records[x][SrrDir])
    {
      CountStepEffect(r, id, transcriptome, cores, mem, produced, x);
    }
  }

  lemma {:induction false} CountLogSameFolders(a: Locations, b: Locations, ids: seq<string>,
                                               transcriptome: Option<string>, cores: Option<int>, mem: Option<int>)
    requires SameFolders(a, b) && AllFetched(b, ids)
    ensures AllFetched(a, ids) ==> CountLog(a, ids, transcriptome, cores, mem) == CountLog(b, ids, transcriptome, cores, mem)
  {
    if ids != [] && AllFetched(a, ids) {
      CountLogSameFolders(a, b, ids[1..], transcriptome, cores, mem);
    }
  }

  /** A clean run found every id registered with a folder and ran exactly
      one cellranger command per id, in order. */
  lemma {:induction false} CountRunLog(r: Run, ids: seq<string>, transcriptome: Option<string>,
                                       cores: Option<int>, mem: Option<int>, produced: set<string>)
    requires r.s.Valid() && r.err.None?
    ensures var r' := CountRun(r, ids, transcriptome, cores, mem, produced);
      r'.err.None? ==>
        && AllFetched(r.s.loc, ids)
        && r'.log == r.log + CountLog(r.s.loc, ids, transcriptome, cores, mem)
    decreases |ids|
  {
    var r' := CountRun(r, ids, transcriptome, cores, mem, produced);
    if ids != [] && r'.err.None? {
      var next := CountStep(r, ids[0], transcriptome, cores, mem, produced);
      CountRunErrorSticks(next, ids[1..], transcriptome, cores, mem, produced);
      CountStepEffect(r, ids[0], transcriptome, cores, mem, produced, ids[0]);
      CountRunLog(next, ids[1..], transcriptome, cores, mem, produced);
      CountStepKeepsFolders(r, ids[0], transcriptome, cores, mem, produced);
      CountLogStep(r.log, next.log, r'.log, r.s.loc, next.s.loc, ids, transcriptome, cores, mem);
    }
  }

  lemma CountLogStep(log0: seq<Command>, log1: seq<Command>, log2: seq<Command>, a: Locations, b: Locations,
                     ids: seq<string>, transcriptome: Option<string>, cores: Option<int>, mem: Option<int>)
    requires ids != [] && SameFolders(a, b) && AllFetched(b, ids[1..])
    requires ids[0] in a.records && SrrDir in a.records[ids[0]]
    requires log1 == log0 + [CountArgs(ids[0], transcriptome, a.records[ids[0]][SrrDir], cores, mem)]
    requires log2 == log1 + CountLog(b, ids[1..], transcriptome, cores, mem)
    ensures AllFetched(a, ids) && log2 == log0 + CountLog(a, ids, transcriptome, cores, mem)
  {
    CountLogRest(a, b, ids, transcriptome, cores, mem);
    var c := CountArgs(ids[0], transcriptome, a.records[ids[0]][SrrDir], cores, mem);
    LogAppend(log0, c, CountLog(b, ids[1..], transcriptome, cores, mem));
  }

  lemma CountLogRest(a: Locations, b: Locations, ids: seq<string>,
                     transcriptome: Option<string>, cores: Option<int>, mem: Option<int>)
    requires ids != [] && SameFolders(a, b) && AllFetched(b, ids[1..])
    requires ids[0] in a.records && SrrDir in a.records[ids[0]]
    ensures AllFetched(a, ids)
    ensures CountLog(a, ids, transcriptome, cores, mem)
         == [CountArgs(ids[0], transcriptome, a.records[ids[0]][SrrDir], cores, mem)]
            + CountLog(b, ids[1..], transcriptome, cores, mem)
  {
    forall i | 0 <= i < |ids| ensures ids[i] in a.records && SrrDir in a.records[ids[i]] {
      if i > 0 { assert ids[i] == ids[1..][i - 1]; }
    }
    CountLogSameFolders(a, b, ids[1..], transcriptome, cores, mem);
  }

  /** A clean run recorded `cellranger_dir` for every id it visited. */
  lemma {:induction false} CountRunComplete(r: Run, ids: seq<string>, transcriptome: Option<string>,
                                            cores: Option<int>, mem: Option<int>, produced: set<string>, x: string)
    requires r.s.Valid() && x in ids
    ensures var r' := CountRun(r, ids, transcriptome, cores, mem, produced);
      r'.err.None? ==>
        && x in r.s.loc.records && SrrDir in r.s.loc.records[x]
        && r'.s.loc.records[x] == r.s.loc.records[x][CellrangerDir := CountDirOf(r.s.loc.records[x][SrrDir], x)]
    decreases |ids|
  {
    if r.err.None? {
      var next := CountStep(r, ids[0], transcriptome, cores, mem, produced);
      CountRunErrorSticks(next, ids[1..], transcriptome, cores, mem, produced);
      if x == ids[0] {
        if next.err.None? {
          CountRunCompleteFirst(r, ids, transcriptome, cores, mem, produced);
        }
      } else {
        assert x in ids[1..];
        CountRunComplete(next, ids[1..], transcriptome, cores, mem, produced, x);
        if x in r.s.loc.records {
          CountStepEffect(r, ids[0], transcriptome, cores, mem, produced, x);
        }
      }
    }
  }

  lemma CountRunCompleteFirst(r: Run, ids: seq<string>, transcriptome: Option<string>,
                              cores: Option<int>, mem: Option<int>, produced: set<string>)
    requires r.s.Valid() && ids != [] && r.err.None?
    requires CountStep(r, ids[0], transcriptome, cores, mem, produced).err.None?
    ensures var r' := CountRun(r, ids, transcriptome, cores, mem, produced);
      && ids[0] in r.s.loc.records && SrrDir in r.s.loc.records[ids[0]]
      && r'.s.loc.records[ids[0]]
         == r.s.loc.records[ids[0]][CellrangerDir := CountDirOf(r.s.loc.records[ids[0]][SrrDir], ids[0])]
  {
    var x := ids[0];
    var next := CountStep(r, x, transcriptome, cores, mem, produced);
    CountStepEffect(r, x, transcriptome, cores, mem, produced, x);
    CountRunRecord(next, ids[1..], transcriptome, cores, mem, produced, x);
    var after := next.s.loc.records[x];
    assert after[CellrangerDir := CountDirOf(after[SrrDir], x)] == after;
  }

  /** Each command of a clean loop names its accession as both id and
      sample, and reads the fastq directory parallel_fastq_dump fills in
      that accession's folder. */
  lemma CountLogFlags(loc: Locations, ids: seq<string>, transcriptome: Option<string>,
                      cores: Option<int>, mem: Option<int>, i: nat)
    requires AllFetched(loc, ids) && i < |ids|
    ensures var c := CountLog(loc, ids, transcriptome, cores, mem)[i];
      && FlagValue(c, "--id=") == Some(ids[i])
      && FlagValue(c, "--sample=") == Some(ids[i])
      && FlagValue(c, "--fastqs=") == Some(FastqsOf(loc.records[ids[i]][SrrDir]))
  {
    CountArgsRequiredFlags(ids[i], transcriptome, loc.records[ids[i]][SrrDir], cores, mem);
  }

  /** The method as a whole: with no ids and no list read it raises at once
      and changes nothing; a clean run leaves every id it was given with
      `cellranger_dir` set beside its folder. */
  lemma CountAllOutcome(s: Session, ids: Option<seq<string>>, transcriptome: Option<string>,
                        cores: Option<int>, mem: Option<int>, paths: set<string>, produced: set<string>, x: string)
    requires s.Valid()
    ensures var r := CountAll(s, ids, transcriptome, cores, mem, paths, produced);
      && (ids.None? && s.srrList.None? ==> r == Run(s, paths, [], Some(NotIterable)))
      && (r.err.None? && x in (if ids.Some? then ids.value else s.srrList.value) ==>
            && x in s.loc.records && SrrDir in s.loc.records[x]
            && r.s.loc.records[x] == s.loc.records[x][CellrangerDir := CountDirOf(s.loc.records[x][SrrDir], x)])
  {
    var r := CountAll(s, ids, transcriptome, cores, mem, paths, produced);
    if r.err.None? {
      var list := if ids.Some? then ids.value else s.srrList.value;
      if x in list {
        CountRunComplete(Run(s, paths, [], None), list, transcriptome, cores, mem, produced, x);
      }
    }
  }
}
