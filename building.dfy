/** ScRNAAnalysis.build_SRRdict: rebuild the registry from what is on disk.
    The first loop records `SRR_dir` and `fastq_dir` for every listed
    accession whose folder exists; the second, over the whole registry,
    records `cellranger_dir` where a `cellranger_<id>` folder exists. */
module Building {
  import opened Outcomes
  import opened Paths
  import opened Registry
  import opened Dumping
  import opened Counting

  /** Where the first loop expects the fastq files: `<SRR_dir>/_fastq`. */
  function FastqGuess(folder: string): string {
    Join(folder, "_fastq")
  }

  /** Where the second loop looks for the cellranger output. */
  function CountGuess(folder: string, id: string): string {
    Join(folder, "cellranger_" + id)
  }

  /** One pass of the first loop, for an accession whose folder exists. */
  function AttachOne(loc: Locations, id: string, folder: string, fq: string): (l: Locations)
    requires loc.Valid() && id in loc.records
    ensures l.Valid() && l.keys == loc.keys && l.records.Keys == loc.records.Keys
  {
    loc.SetField(id, SrrDir, folder).SetField(id, FastqDir, fq)
  }

  lemma AttachOneEffect(loc: Locations, id: string, folder: string, fq: string, x: string)
    requires loc.Valid() && id in loc.records && x in loc.records
    ensures AttachOne(loc, id, folder, fq).records[x]
         == if x == id then loc.records[x][SrrDir := folder][FastqDir := fq] else loc.records[x]
  {
  }

  /** The first loop. */
  function AttachDirs(loc: Locations, ids: seq<string>, paths: set<string>, home: string): (l: Locations)
    requires loc.Valid() && AllIn(ids, loc)
    ensures l.Valid() && l.keys == loc.keys && l.records.Keys == loc.records.Keys
    decreases |ids|
  {
    if ids == [] then loc
    else
      var folder := Join(home, ids[0]);
      var next := if folder in paths then AttachOne(loc, ids[0], folder, FastqGuess(folder)) else loc;
      AttachDirs(next, ids[1..], paths, home)
  }

  /** The registry after the second loop and the exception that ended it
      early, if any. */
  datatype Built = Built(loc: Locations, err: Option<Error>)

  /** The second loop, over the registry's keys in order; a record without
      `SRR_dir` raises KeyError. */
  function AttachCountDirs(loc: Locations, keys: seq<string>, paths: set<string>): (b: Built)
    requires loc.Valid() && AllIn(keys, loc)
    ensures b.loc.Valid() && b.loc.keys == loc.keys && b.loc.records.Keys == loc.records.Keys
    decreases |keys|
  {
    if keys == [] then Built(loc, None)
    else
      var rec := loc.records[keys[0]];
      if SrrDir !in rec then Built(loc, Some(KeyMissing(SrrDir)))
      else
        var found := CountGuess(rec[SrrDir], keys[0]);
        var next := if found in paths then loc.SetField(keys[0], CellrangerDir, found) else loc;
        AttachCountDirs(next, keys[1..], paths)
  }

  /** The whole method; a list never read cannot be iterated. */
  function Build(s: Session, paths: set<string>, home: string): (b: Built)
    requires s.Valid()
    ensures b.loc.Valid() && b.loc.keys == s.loc.keys
    ensures s.srrList.Some? ==> AllIn(s.srrList.value, b.loc)
  {
    if s.srrList.None? then Built(s.loc, Some(NotIterable))
    else
      var first := AttachDirs(s.loc, s.srrList.value, paths, home);
      assert AllIn(first.keys, first);
      AttachCountDirs(first, first.keys, paths)
  }

  // ---------------------------------------------------------------------

  /** The first loop sets `SRR_dir` to `<home>/<id>` and `fastq_dir` under
      it for exactly the listed accessions whose folder exists. */
  lemma {:induction false} AttachDirsEffect(loc: Locations, ids: seq<string>, paths: set<string>, home: string, x: string)
    requires loc.Valid() && AllIn(ids, loc) && x in loc.records
    ensures var folder := Join(home, x);
      AttachDirs(loc, ids, paths, home).records[x]
      == if x in ids && folder in paths
         then loc.records[x][SrrDir := folder][FastqDir := FastqGuess(folder)]
         else loc.records[x]
    decreases |ids|
  {
    if ids != [] {
      var folder := Join(home, ids[0]);
      var next := if folder in paths then AttachOne(loc, ids[0], folder, FastqGuess(folder)) else loc;
      AttachDirsEffect(next, ids[1..], paths, home, x);
      if folder in paths {
        AttachOneEffect(loc, ids[0], folder, FastqGuess(folder), x);
      }
      var f := Join(home, x);
      assert x in ids <==> x == ids[0] || x in ids[1..];
      UpdateTwice(loc.records[x], next.records[x], AttachDirs(loc, ids, paths, home).records[x],
                  x == ids[0], x in ids[1..], f in paths, f, FastqGuess(f));
    }
  }

  /** Setting the same two fields on a path through the loop once or twice
      gives the same record. */
  lemma UpdateTwice(rec: Record, mid: Record, result: Record, isHead: bool, inRest: bool, present: bool,
                    f: string, g: string)
    requires mid == if isHead && present then rec[SrrDir := f][FastqDir := g] else rec
    requires result == if inRest && present then mid[SrrDir := f][FastqDir := g] else mid
    ensures result == if (isHead || inRest) && present then rec[SrrDir := f][FastqDir := g] else rec
  {
    if isHead && inRest && present {
      var once := rec[SrrDir := f][FastqDir := g];
      assert once[SrrDir := f][FastqDir := g] == once;
    }
  }

  /** The second loop finishes exactly when every record it visits has a
      folder. */
  lemma {:induction false} AttachCountDirsClean(loc: Locations, keys: seq<string>, paths: set<string>)
    requires loc.Valid() && AllIn(keys, loc)
    ensures AttachCountDirs(loc, keys, paths).err.None?
        <==> forall i :: 0 <= i < |keys| ==> SrrDir in loc.records[keys[i]]
    decreases |keys|
  {
    if keys != [] && SrrDir in loc.records[keys[0]] {
      var rec := loc.records[keys[0]];
      var found := CountGuess(rec[SrrDir], keys[0]);
      var next := if found in paths then loc.SetField(keys[0], CellrangerDir, found) else loc;
      AttachCountDirsClean(next, keys[1..], paths);
      forall k | k in loc.records ensures SrrDir in next.records[k] <==> SrrDir in loc.records[k] {
        KeepsFolders(loc, keys[0], found, next, k);
      }
      if forall i :: 0 <= i < |keys[1..]| ==> SrrDir in loc.records[keys[1..][i]] {
        forall i | 0 <= i < |keys| ensures SrrDir in loc.records[keys[i]] {
          if i > 0 { assert keys[i] == keys[1..][i - 1]; }
        }
      }
    }
  }

  /** The second loop changes only `cellranger_dir`, and sets it for a
      visited record exactly when the output folder exists. */
  lemma {:induction false} AttachCountDirsEffect(loc: Locations, keys: seq<string>, paths: set<string>, x: string)
    requires loc.Valid() && AllIn(keys, loc) && x in loc.records
    ensures var b := AttachCountDirs(loc, keys, paths);
      var rec := loc.records[x];
      b.err.None? ==>
        b.loc.records[x]
        == if x in keys && SrrDir in rec && CountGuess(rec[SrrDir], x) in paths
           then rec[CellrangerDir := CountGuess(rec[SrrDir], x)]
           else rec
    decreases |keys|
  {
    var b := AttachCountDirs(loc, keys, paths);
    if keys != [] && b.err.None? {
      var rec0 := loc.records[keys[0]];
      var found := CountGuess(rec0[SrrDir], keys[0]);
      var next := if found in paths then loc.SetField(keys[0], CellrangerDir, found) else loc;
      AttachCountDirsEffect(next, keys[1..], paths, x);
      KeepsFolders(loc, keys[0], found, next, x);
      var rx := loc.records[x];
      assert x in keys <==> x == keys[0] || x in keys[1..];
      if SrrDir in rx {
        var f := CountGuess(rx[SrrDir], x);
        UpdateCountTwice(rx, next.records[x], b.loc.records[x], x == keys[0], x in keys[1..], f in paths, f);
      }
    }
  }

  /** Setting `cellranger_dir` once or twice gives the same record. */
  lemma UpdateCountTwice(rec: Record, mid: Record, result: Record, isHead: bool, inRest: bool, present: bool, f: string)
    requires mid == if isHead && present then rec[CellrangerDir := f] else rec
    requires result == if inRest && present then mid[CellrangerDir := f] else mid
    ensures result == if (isHead || inRest) && present then rec[CellrangerDir := f] else rec
  {
    if isHead && inRest && present {
      var once := rec[CellrangerDir := f];
      assert once[CellrangerDir := f] == once;
    }
  }

  /** One pass of the second loop keeps every folder. */
  lemma KeepsFolders(loc: Locations, id: string, found: string, next: Locations, x: string)
    requires loc.Valid() && id in loc.records && x in loc.records
    requires next == loc || next == loc.SetField(id, CellrangerDir, found)
    ensures SrrDir in next.records[x] <==> SrrDir in loc.records[x]
    ensures SrrDir in loc.records[x] ==> next.records[x][SrrDir] == loc.records[x][SrrDir]
    ensures next.records[x] == loc.records[x] || (x == id && next.records[x] == loc.records[x][CellrangerDir := found])
  {
  }

  /** After the first loop `x` has a folder: it had one, or it is listed
      and `<home>/<x>` exists. */
  ghost predicate Locatable(s: Session, paths: set<string>, home: string, x: string)
    requires s.srrList.Some? && x in s.loc.records
  {
    SrrDir in s.loc.records[x] || (x in s.srrList.value && Join(home, x) in paths)
  }

  /** The record of `x` after the first loop. */
  function AfterFirstLoop(rec: Record, listed: bool, paths: set<string>, folder: string): Record {
    if listed && folder in paths then rec[SrrDir := folder][FastqDir := FastqGuess(folder)] else rec
  }

  /** build_SRRdict as a whole: with no list read it raises TypeError and
      changes nothing; it finishes exactly when every registered accession
      ends the first loop with a folder (otherwise KeyError), and then each
      record holds the folder and fastq guess of the first loop and the
      `cellranger_<id>` folder when it exists. */
  lemma BuildOutcome(s: Session, paths: set<string>, home: string, x: string)
    requires s.Valid()
    ensures var b := Build(s, paths, home);
      && (s.srrList.None? ==> b == Built(s.loc, Some(NotIterable)))
      && (s.srrList.Some? ==>
            (b.err.None? <==> forall k :: k in s.loc.records ==> Locatable(s, paths, home, k)))
      && (b.err.None? && x in s.loc.records ==>
            var r1 := AfterFirstLoop(s.loc.records[x], x in s.srrList.value, paths, Join(home, x));
            && SrrDir in r1
            && b.loc.records[x] == if CountGuess(r1[SrrDir], x) in paths
                                   then r1[CellrangerDir := CountGuess(r1[SrrDir], x)] else r1)
  {
    var b := Build(s, paths, home);
    if s.srrList.Some? {
      var ids := s.srrList.value;
      var first := AttachDirs(s.loc, ids, paths, home);
      assert AllIn(first.keys, first);
      AttachCountDirsClean(first, first.keys, paths);
      forall k | k in s.loc.records
        ensures SrrDir in first.records[k] <==> Locatable(s, paths, home, k)
        ensures first.records[k] == AfterFirstLoop(s.loc.records[k], k in ids, paths, Join(home, k))
      {
        AttachDirsEffect(s.loc, ids, paths, home, k);
      }
      if b.err.None? && x in s.loc.records {
        var i :| 0 <= i < |first.keys| && first.keys[i] == x;
        AttachCountDirsEffect(first, first.keys, paths, x);
      }
    }
  }

  /** The folder build_SRRdict looks for is the one cellranger_count moved
      the output to, for any folder not ending in '/'. */
  lemma BuildFindsCountOutput(folder: string, id: string)
    requires folder != "" && folder[|folder| - 1] != '/'
    ensures CountGuess(folder, id) == CountDirOf(folder, id)
  {
    assert ("cellranger_" + id)[0] == 'c';
  }

  /** The fastq directory build_SRRdict records is not the one
      parallel_fastq_dump fills. */
  lemma BuildFastqDirIsNotDumpDir(folder: string)
    ensures FastqGuess(folder) != FastqsOf(folder)
  {
    var g, d := FastqGuess(folder), FastqsOf(folder);
    assert "_fastq"[0] == '_';
    if folder == "" || folder[|folder| - 1] == '/' {
      assert g == folder + "_fastq";
      assert |g| != |d|;
    } else {
      assert g == folder + "/_fastq";
      assert g[|folder| + 1] != d[|folder| + 1];
    }
  }
}
