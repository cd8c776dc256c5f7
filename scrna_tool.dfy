/** The ScRNAAnalysis class: the accession list, the location registry and
    the pipeline stages that fill it. Each method is proved to leave the
    session, the filesystem and the command log exactly as the stage
    functions of Fetching, Dumping, Counting and Building describe. */
module ScRnaTool {
  import opened Outcomes
  import opened Text
  import opened Paths
  import opened Accessions
  import opened FastqNames
  import opened Commands
  import opened Registry
  import opened Fetching
  import opened Renaming
  import opened Dumping
  import opened Counting
  import opened Building
  import opened FileSystem
  import opened Seqs

  /** The line loop of _get_SRRs_list: every line that starts with "SRR",
      stripped, in file order. */
  method ReadAccessions(text: string) returns (ids: seq<string>)
    ensures ids == ParseAccessions(SplitLines(text))
  {
    var lines := SplitLines(text);
    ids := [];
    var i := 0;
    while i < |lines|
      invariant 0 <= i <= |lines|
      invariant ids == ParseAccessions(lines[..i])
    {
      TakeOneMore(lines, i);
      ParseAccessionsAppend(lines[..i], [lines[i]]);
      ParseAccessionsOneLine(lines[i]);
      if StartsWith(lines[i], AccessionPrefix) {
        ids := ids + [Strip(lines[i])];
      }
      i := i + 1;
    }
    assert lines[..i] == lines;
  }

  /** The dict loop of _get_SRRs_list: `d[SRR] = {}` for each accession in
      list order. */
  method ClearRecords(loc: Locations, ids: seq<string>) returns (l: Locations)
    requires loc.Valid()
    ensures l == ResetRecords(loc, ids)
  {
    l := loc;
    var j := 0;
    while j < |ids|
      invariant 0 <= j <= |ids|
      invariant l == ResetRecords(loc, ids[..j])
    {
      TakeOneMore(ids, j);
      ResetRecordsAppend(loc, ids[..j], ids[j]);
      l := l.Put(ids[j], map[]);
      j := j + 1;
    }
    assert ids[..j] == ids;
  }

  /** The loop of _check_local_file over a copy of `list`: an accession
      whose folder and .sra file exist leaves the list of those to fetch and
      gets its folder recorded. */
  method CheckEach(loc: Locations, list: seq<string>, paths: set<string>, home: string)
    returns (l: Locations, needFetch: seq<string>)
    requires loc.Valid() && AllIn(list, loc)
    ensures l == MarkPresent(loc, list, paths, home)
    ensures needFetch == NeedsPrefetch(list, paths, home)
  {
    l := loc;
    needFetch := list;
    var i := 0;
    while i < |list|
      invariant 0 <= i <= |list|
      invariant AllIn(list[..i], loc)
      invariant l == MarkPresent(loc, list[..i], paths, home)
      invariant needFetch == NeedsPrefetch(list[..i], paths, home) + list[i..]
    {
      var id := list[i];
      TakeOneMore(list, i);
      DropOne(list, i);
      MarkPresentAppend(loc, list[..i], id, paths, home);
      var folder := Join(home, id);
      if folder in paths && Join(folder, id + ".sra") in paths {
        CheckStepPresent(list[..i], id, paths, home);
        CheckStepRemove(list[..i], id, list[i + 1..], paths, home);
        needFetch := RemoveFirst(needFetch, id);
        l := l.SetField(id, SrrDir, folder);
      } else {
        CheckStepMissing(list[..i], id, list[i + 1..], paths, home);
      }
      i := i + 1;
    }
    assert list[..i] == list;
    assert list[i..] == [];
  }

  /** The loop of prefetch_SRRs over the accessions still to fetch: one
      `prefetch` each, whose download leaves the archive on disk when it
      succeeds, then `SRR_dir = <home>/<id>` whatever it did. */
  method FetchEach(loc: Locations, need: seq<string>, fetched: set<string>, home: string, disk: Disk)
    returns (l: Locations, commands: seq<Command>)
    requires loc.Valid() && AllIn(need, loc)
    modifies disk
    ensures l == SetSrrDirs(loc, need, home)
    ensures disk.paths == AfterPrefetch(old(disk.paths), need, fetched, home)
    ensures commands == PrefetchLog(need)
  {
    ghost var before := disk.paths;
    l := loc;
    commands := [];
    var i := 0;
    while i < |need|
      invariant 0 <= i <= |need|
      invariant AllIn(need[..i], loc)
      invariant commands == PrefetchLog(need[..i])
      invariant disk.paths == AfterPrefetch(before, need[..i], fetched, home)
      invariant l == SetSrrDirs(loc, need[..i], home)
    {
      var id := need[i];
      TakeOneMore(need, i);
      SetSrrDirsAppend(loc, need[..i], id, home);
      AfterPrefetchAppend(before, need[..i], id, fetched, home);
      PrefetchLogAppend(need[..i], id);
      commands := commands + [PrefetchArgs(id)];
      if id in fetched {
        disk.Create(ArchivePaths(home, id));
      }
      l := l.SetField(id, SrrDir, Join(home, id));
      i := i + 1;
    }
    assert need[..i] == need;
  }

  /** __rename_fastq__, which uses nothing of the object: list `directory`
      (`listing` is what os.listdir returns) and move each file to its
      Cell Ranger name, stopping at the first exception. */
  method RenameFastq(directory: string, listing: seq<string>, disk: Disk) returns (err: Option<Error>)
    modifies disk
    ensures Renamed(disk.paths, err) == RenameInDir(old(disk.paths), directory, listing)
  {
    if directory !in disk.paths {
      return Some(FileNotFound(directory));
    }
    ghost var before := disk.paths;
    var i := 0;
    while i < |listing|
      invariant 0 <= i <= |listing|
      invariant RenameAll(before, directory, listing) == RenameAll(disk.paths, directory, listing[i..])
    {
      SuffixTail(listing, i);
      var fastq := listing[i];
      match RenameTarget(fastq)
      case Err(e) =>
        return Some(e);
      case Ok(newFileName) =>
        err := disk.Rename(InDir(directory, fastq), InDir(directory, newFileName));
        if err.Some? {
          return;
        }
      i := i + 1;
    }
    return None;
  }

  /** One pass of the loop of parallel_fastq_dump, for accession `id`.
      `r` is the stage so far; its paths are those of `disk`. */
  method DumpOne(r: Run, id: string, threads: int, dumped: map<string, seq<string>>, disk: Disk) returns (r': Run)
    requires r.s.Valid() && id in r.s.loc.records && r.err.None? && r.paths == disk.paths
    modifies disk
    ensures r' == DumpStep(r, id, threads, dumped) && r'.paths == disk.paths
  {
    var rec := r.s.loc.records[id];
    if SrrDir !in rec {
      return r.(err := Some(KeyMissing(SrrDir)));
    }
    var dir := rec[SrrDir];
    var err := disk.ChangeDir(dir);
    if err.Some? {
      return r.(err := err);
    }
    var fq := FastqsOf(dir);
    var log := r.log + [DumpArgs(id, threads)];
    disk.Create(DumpOutput(fq, id, dumped));
    err := RenameFastq(fq, Listing(id, dumped), disk);
    if err.Some? {
      return Run(r.s, disk.paths, log, err);
    }
    r' := Run(r.s.(loc := r.s.loc.SetField(id, FastqDir, fq)), disk.paths, log, None);
  }

  /** The loop of parallel_fastq_dump over the registry's keys, stopping at
      the first exception. */
  method DumpEach(s: Session, keys: seq<string>, threads: int, dumped: map<string, seq<string>>,
                  log0: seq<Command>, disk: Disk) returns (r: Run)
    requires s.Valid() && AllIn(keys, s.loc)
    modifies disk
    ensures r == DumpRun(Run(s, old(disk.paths), log0, None), keys, threads, dumped) && r.paths == disk.paths
  {
    r := Run(s, disk.paths, log0, None);
    ghost var start := r;
    var i := 0;
    while i < |keys| && r.err.None?
      invariant 0 <= i <= |keys|
      invariant r.s.Valid() && r.s.loc.records.Keys == s.loc.records.Keys && r.paths == disk.paths
      invariant AllIn(keys[i..], r.s.loc)
      invariant DumpRun(start, keys, threads, dumped) == DumpRun(r, keys[i..], threads, dumped)
    {
      DumpRunFrom(r, keys, i, threads, dumped);
      r := DumpOne(r, keys[i], threads, dumped, disk);
      AllInSuffix(keys, i + 1, s.loc, r.s.loc);
      i := i + 1;
    }
    if r.err.Some? {
      DumpRunErrorSticks(r, keys[i..], threads, dumped);
    } else {
      assert keys[i..] == [];
    }
  }

  /** One pass of the loop of cellranger_count, for accession `id`. */
  method CountOne(r: Run, id: string, transcriptome: Option<string>, cores: Option<int>, mem: Option<int>,
                  produced: set<string>, disk: Disk) returns (r': Run)
    requires r.s.Valid() && r.err.None? && r.paths == disk.paths
    modifies disk
    ensures r' == CountStep(r, id, transcriptome, cores, mem, produced) && r'.paths == disk.paths
  {
    if id !in r.s.loc.records {
      return r.(err := Some(KeyMissing(id)));
    }
    var rec := r.s.loc.records[id];
    if SrrDir !in rec {
      return r.(err := Some(KeyMissing(SrrDir)));
    }
    var cwd := rec[SrrDir];
    var err := disk.ChangeDir(cwd);
    if err.Some? {
      return r.(err := err);
    }
    var log := r.log + [CountArgs(id, transcriptome, cwd, cores, mem)];
    var out := InDir(cwd, id);
    if id in produced {
      disk.Create({out});
    }
    var dest := CountDirOf(cwd, id);
    err := disk.Rename(out, dest);
    if err.Some? {
      return Run(r.s, disk.paths, log, err);
    }
    r' := Run(r.s.(loc := r.s.loc.SetField(id, CellrangerDir, dest)), disk.paths, log, None);
  }

  /** The loop of cellranger_count over the accessions it is given,
      stopping at the first exception. */
  method CountEach(s: Session, ids: seq<string>, transcriptome: Option<string>, cores: Option<int>,
                   mem: Option<int>, produced: set<string>, disk: Disk) returns (r: Run)
    requires s.Valid()
    modifies disk
    ensures r == CountRun(Run(s, old(disk.paths), [], None), ids, transcriptome, cores, mem, produced)
    ensures r.paths == disk.paths
  {
    r := Run(s, disk.paths, [], None);
    ghost var start := r;
    var i := 0;
    while i < |ids| && r.err.None?
      invariant 0 <= i <= |ids|
      invariant r.s.Valid() && r.s.loc.records.Keys == s.loc.records.Keys && r.paths == disk.paths
      invariant CountRun(start, ids, transcriptome, cores, mem, produced)
             == CountRun(r, ids[i..], transcriptome, cores, mem, produced)
    {
      CountRunFrom(r, ids, i, transcriptome, cores, mem, produced);
      r := CountOne(r, ids[i], transcriptome, cores, mem, produced, disk);
      i := i + 1;
    }
    if r.err.Some? {
      CountRunErrorSticks(r, ids[i..], transcriptome, cores, mem, produced);
    } else {
      assert ids[i..] == [];
    }
  }

  /** The first loop of build_SRRdict: `SRR_dir` and `fastq_dir` for each
      listed accession whose folder exists. */
  method AttachEach(loc: Locations, ids: seq<string>, paths: set<string>, home: string) returns (l: Locations)
    requires loc.Valid() && AllIn(ids, loc)
    ensures l == AttachDirs(loc, ids, paths, home)
  {
    l := loc;
    var i := 0;
    while i < |ids|
      invariant 0 <= i <= |ids|
      invariant l.Valid() && l.records.Keys == loc.records.Keys
      invariant AllIn(ids[i..], l)
      invariant AttachDirs(loc, ids, paths, home) == AttachDirs(l, ids[i..], paths, home)
    {
      SuffixTail(ids, i);
      var folder := Join(home, ids[i]);
      if folder in paths {
        l := l.SetField(ids[i], SrrDir, folder);
        l := l.SetField(ids[i], FastqDir, FastqGuess(folder));
      }
      i := i + 1;
    }
  }

  /** The second loop of build_SRRdict, over the registry's keys:
      `cellranger_dir` where a `cellranger_<id>` folder exists. */
  method AttachCountEach(loc: Locations, keys: seq<string>, paths: set<string>) returns (l: Locations, err: Option<Error>)
    requires loc.Valid() && AllIn(keys, loc)
    ensures Built(l, err) == AttachCountDirs(loc, keys, paths)
  {
    l, err := loc, None;
    var i := 0;
    while i < |keys|
      invariant 0 <= i <= |keys|
      invariant l.Valid() && l.records.Keys == loc.records.Keys
      invariant AllIn(keys[i..], l)
      invariant AttachCountDirs(loc, keys, paths) == AttachCountDirs(l, keys[i..], paths)
    {
      SuffixTail(keys, i);
      var rec := l.records[keys[i]];
      if SrrDir !in rec {
        return l, Some(KeyMissing(SrrDir));
      }
      var cellrangerPath := CountGuess(rec[SrrDir], keys[i]);
      if cellrangerPath in paths {
        l := l.SetField(keys[i], CellrangerDir, cellrangerPath);
      }
      i := i + 1;
    }
  }

  class ScRNAAnalysis {
    const accListPath: string
    const home: string
    const transcriptomePath: string
    var srrList: Option<seq<string>>
    var locations: Locations

    /** The accession list and the registry, as a value. */
    function State(): Session
      reads this
    {
      Session(srrList, locations)
    }

    ghost predicate Valid()
      reads this
    {
      State().Valid()
    }

    constructor(accListPath: string, home: string, transcriptomePath: string)
      ensures Valid()
      ensures this.accListPath == accListPath && this.home == home && this.transcriptomePath == transcriptomePath
      ensures srrList == None && locations == Empty
    {
      this.accListPath := accListPath;
      this.home := home;
      this.transcriptomePath := transcriptomePath;
      srrList := None;
      locations := Empty;
    }

    /** _get_SRRs_list: read the list file, keep the accession lines and
        give each accession an empty record. `listFile` is the file's text,
        None when it cannot be opened. */
    method GetSrrList(listFile: Option<string>) returns (err: Option<Error>)
      requires Valid()
      modifies this
      ensures Valid()
      ensures match ReadList(listFile, accListPath)
        case Err(e) => err == Some(e) && State() == old(State())
        case Ok(ids) => err.None? && State() == Loaded(old(State()), ids)
    {
      if listFile.None? {
        return Some(FileNotFound(accListPath));
      }
      var ids := ReadAccessions(listFile.value);
      var loc := locations;
      srrList := Some(ids);
      locations := ClearRecords(loc, ids);
      return None;
    }

    /** _check_local_file: read the list if it was never read, then drop
        from a copy of it every accession whose folder and .sra file exist,
        recording the folder of those. */
    method CheckLocalFile(listFile: Option<string>, disk: Disk) returns (needFetch: seq<string>, err: Option<Error>)
      requires Valid()
      modifies this
      ensures Valid()
      ensures match CheckLocal(old(State()), listFile, accListPath, disk.paths, home)
        case Err(e) => err == Some(e) && State() == old(State())
        case Ok(result) => err.None? && State() == result.0 && needFetch == result.1
    {
      needFetch := [];
      if srrList.None? {
        err := GetSrrList(listFile);
        if err.Some? {
          return;
        }
      }
      locations, needFetch := CheckEach(locations, srrList.value, disk.paths, home);
      err := None;
    }

    /** prefetch_SRRs: one `prefetch` per accession still to fetch, each
        followed by recording `<home>/<id>` as its folder. `fetched` holds
        the accessions whose download succeeds. */
    method PrefetchSrrs(listFile: Option<string>, fetched: set<string>, disk: Disk)
      returns (commands: seq<Command>, err: Option<Error>)
      requires Valid()
      modifies this, disk
      ensures Valid()
      ensures Run(State(), disk.paths, commands, err)
           == Prefetch(old(State()), listFile, accListPath, old(disk.paths), home, fetched)
    {
      commands := [];
      var need;
      need, err := CheckLocalFile(listFile, disk);
      if err.Some? {
        return;
      }
      locations, commands := FetchEach(locations, need, fetched, home, disk);
    }

    /** parallel_fastq_dump: enter the home folder, fetch first when the
        registry is empty, then dump, rename and record every registered
        accession in registry order. `dumped` gives, per accession, the
        files the dump tool writes. */
    method ParallelFastqDump(threads: int, listFile: Option<string>, fetched: set<string>,
                             dumped: map<string, seq<string>>, disk: Disk)
      returns (commands: seq<Command>, err: Option<Error>)
      requires Valid()
      modifies this, disk
      ensures Valid()
      ensures Run(State(), disk.paths, commands, err)
           == DumpAll(old(State()), listFile, accListPath, home, old(disk.paths), fetched, threads, dumped)
    {
      commands := [];
      err := disk.ChangeDir(home);
      if err.Some? {
        return;
      }
      if |locations.keys| == 0 {
        commands, err := PrefetchSrrs(listFile, fetched, disk);
        if err.Some? {
          return;
        }
      }
      var r := DumpEach(State(), locations.keys, threads, dumped, commands, disk);
      srrList, locations, commands, err := r.s.srrList, r.s.loc, r.log, r.err;
    }

    /** cellranger_count: one `cellranger count` per accession of `ids`, or
        of the list when `ids` is None, each output folder moved to
        `cellranger_<id>` and recorded. `produced` holds the accessions
        whose run writes its output folder. */
    method CellrangerCount(ids: Option<seq<string>>, transcriptome: Option<string>, cores: Option<int>,
                           mem: Option<int>, produced: set<string>, disk: Disk)
      returns (commands: seq<Command>, err: Option<Error>)
      requires Valid()
      modifies this, disk
      ensures Valid()
      ensures Run(State(), disk.paths, commands, err)
           == CountAll(old(State()), ids, transcriptome, cores, mem, old(disk.paths), produced)
    {
      commands := [];
      var list := if ids.Some? then ids else srrList;
      if list.None? {
        return commands, Some(NotIterable);
      }
      var r := CountEach(State(), list.value, transcriptome, cores, mem, produced, disk);
      srrList, locations, commands, err := r.s.srrList, r.s.loc, r.log, r.err;
    }

    /** build_SRRdict: rebuild the registry's folders from what exists on
        disk. */
    method BuildSrrDict(disk: Disk) returns (err: Option<Error>)
      requires Valid()
      modifies this
      ensures Valid() && srrList == old(srrList)
      ensures Built(locations, err) == Build(old(State()), disk.paths, home)
    {
      if srrList.None? {
        return Some(NotIterable);
      }
      var first := AttachEach(locations, srrList.value, disk.paths, home);
      locations, err := AttachCountEach(first, first.keys, disk.paths);
    }
  }
}
