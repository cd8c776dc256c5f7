/** Reading the accession list, the presence check and the fetch stage of
    ScRNAAnalysis, as functions of the state before them. The methods of the
    class are proved to compute exactly these; the lemmas here state what
    the stages promise. */
module Fetching {
  import opened Outcomes
  import opened Text
  import opened Paths
  import opened Accessions
  import opened Commands
  import opened Registry

  // ---------------------------------------------------------------------
  // Loading the accession list (_get_SRRs_list)

  /** The registry after `for SRR in SRRList: d[SRR] = {}`. */
  function ResetRecords(loc: Locations, ids: seq<string>): (l: Locations)
    requires loc.Valid()
    ensures l.Valid() && AllIn(ids, l) && loc.records.Keys <= l.records.Keys
    decreases |ids|
  {
    if ids == [] then loc else ResetRecords(loc.Put(ids[0], map[]), ids[1..])
  }

  /** Loading gives every listed accession an empty record, replacing any it
      had, and leaves every other record as it was. */
  lemma {:induction false} ResetRecordsEffect(loc: Locations, ids: seq<string>, x: string)
    requires loc.Valid()
    ensures var l := ResetRecords(loc, ids);
      && (x in l.records <==> x in loc.records || x in ids)
      && (x in ids ==> l.records[x] == map[])
      && (x !in ids && x in loc.records ==> l.records[x] == loc.records[x])
    decreases |ids|
  {
    if ids != [] {
      ResetRecordsEffect(loc.Put(ids[0], map[]), ids[1..], x);
      assert x in ids <==> x == ids[0] || x in ids[1..];
    }
  }

  /** The loading loop, one turn at a time. */
  lemma {:induction false} ResetRecordsAppend(loc: Locations, ids: seq<string>, x: string)
    requires loc.Valid()
    ensures ResetRecords(loc, ids + [x]) == ResetRecords(loc, ids).Put(x, map[])
    decreases |ids|
  {
    if ids == [] {
      assert ids + [x] == [x];
      assert [x][1..] == [];
    } else {
      assert (ids + [x])[1..] == ids[1..] + [x];
      ResetRecordsAppend(loc.Put(ids[0], map[]), ids[1..], x);
    }
  }

  /** Keys already in the registry keep their place in the iteration order. */
  lemma {:induction false} ResetRecordsKeepsOrder(loc: Locations, ids: seq<string>)
    requires loc.Valid()
    ensures var l := ResetRecords(loc, ids);
      |loc.keys| <= |l.keys| && l.keys[..|loc.keys|] == loc.keys
    decreases |ids|
  {
    if ids != [] {
      var next := loc.Put(ids[0], map[]);
      ResetRecordsKeepsOrder(next, ids[1..]);
      assert next.keys[..|loc.keys|] == loc.keys;
    }
  }

  // ---------------------------------------------------------------------
  // Presence check (_check_local_file)

  /** Both `<home>/<id>` and `<home>/<id>/<id>.sra` exist. */
  predicate Present(paths: set<string>, home: string, id: string) {
    var folder := Join(home, id);
    folder in paths && Join(folder, id + ".sra") in paths
  }

  /** The list _check_local_file returns: the accessions still to fetch. */
  function NeedsPrefetch(ids: seq<string>, paths: set<string>, home: string): (r: seq<string>)
    ensures |r| <= |ids|
    ensures forall i :: 0 <= i < |r| ==> r[i] in ids
  {
    if ids == [] then []
    else (if Present(paths, home, ids[0]) then [] else [ids[0]]) + NeedsPrefetch(ids[1..], paths, home)
  }

  /** An accession is fetched exactly when it is listed and not present; a
      folder without its .sra file does not count as present. */
  lemma {:induction false} NeedsPrefetchMember(ids: seq<string>, paths: set<string>, home: string, x: string)
    ensures x in NeedsPrefetch(ids, paths, home) <==> x in ids && !Present(paths, home, x)
  {
    if ids != [] {
      NeedsPrefetchMember(ids[1..], paths, home, x);
      assert x in ids <==> x == ids[0] || x in ids[1..];
    }
  }

  /** The list keeps the accession-list order. */
  lemma {:induction false} NeedsPrefetchAppend(a: seq<string>, b: seq<string>, paths: set<string>, home: string)
    ensures NeedsPrefetch(a + b, paths, home) == NeedsPrefetch(a, paths, home) + NeedsPrefetch(b, paths, home)
  {
    if a != [] {
      assert (a + b)[0] == a[0];
      assert (a + b)[1..] == a[1..] + b;
      NeedsPrefetchAppend(a[1..], b, paths, home);
    } else {
      assert a + b == b;
    }
  }

  /** With one accession on disk and one missing, only the missing one is
      to be fetched. */
  lemma PresenceScenario(onDisk: string, missing: string, paths: set<string>, home: string)
    requires Present(paths, home, onDisk) && !Present(paths, home, missing)
    ensures NeedsPrefetch([onDisk, missing], paths, home) == [missing]
  {
    assert [onDisk, missing][1..] == [missing];
    assert [missing][1..] == [];
  }

  /** Python's list.remove(x): drop the first occurrence. */
  function RemoveFirst(s: seq<string>, x: string): seq<string> {
    if s == [] then []
    else if s[0] == x then s[1..]
    else [s[0]] + RemoveFirst(s[1..], x)
  }

  lemma {:induction false} RemoveFirstAfter(a: seq<string>, x: string, b: seq<string>)
    requires x !in a
    ensures RemoveFirst(a + [x] + b, x) == a + b
  {
    if a == [] {
      assert a + [x] + b == [x] + b;
    } else {
      assert (a + [x] + b)[1..] == a[1..] + [x] + b;
      RemoveFirstAfter(a[1..], x, b);
      assert a + b == [a[0]] + (a[1..] + b);
    }
  }

  // One turn of the _check_local_file loop over a copy of the list: after
  // checking `prefix`, the list holds the accessions of `prefix` still to
  // fetch followed by the unchecked ones `[x] + rest`.

  /** A missing accession stays in the list. */
  lemma {:induction false} CheckStepMissing(prefix: seq<string>, x: string, rest: seq<string>, paths: set<string>, home: string)
    requires !Present(paths, home, x)
    ensures NeedsPrefetch(prefix + [x], paths, home) + rest == NeedsPrefetch(prefix, paths, home) + ([x] + rest)
  {
    var done := NeedsPrefetch(prefix, paths, home);
    assert NeedsPrefetch([x], paths, home) == [x] by {
      assert [x][1..] == [];
    }
    NeedsPrefetchAppend(prefix, [x], paths, home);
    assert done + [x] + rest == done + ([x] + rest);
  }

  /** A present accession adds nothing to the accessions to fetch... */
  lemma {:induction false} CheckStepPresent(prefix: seq<string>, x: string, paths: set<string>, home: string)
    requires Present(paths, home, x)
    ensures NeedsPrefetch(prefix + [x], paths, home) == NeedsPrefetch(prefix, paths, home)
  {
    assert NeedsPrefetch([x], paths, home) == [] by {
      assert [x][1..] == [];
    }
    NeedsPrefetchAppend(prefix, [x], paths, home);
  }

  /** ...and `remove` takes out its own occurrence, not an earlier one. */
  lemma {:induction false} CheckStepRemove(prefix: seq<string>, x: string, rest: seq<string>, paths: set<string>, home: string)
    requires Present(paths, home, x)
    ensures RemoveFirst(NeedsPrefetch(prefix, paths, home) + ([x] + rest), x) == NeedsPrefetch(prefix, paths, home) + rest
  {
    var done := NeedsPrefetch(prefix, paths, home);
    NeedsPrefetchMember(prefix, paths, home, x);
    RemoveFirstAfter(done, x, rest);
    assert done + ([x] + rest) == done + [x] + rest;
  }

  /** The registry after _check_local_file records `SRR_dir` for the
      accessions that are present. */
  function MarkPresent(loc: Locations, ids: seq<string>, paths: set<string>, home: string): (l: Locations)
    requires loc.Valid() && AllIn(ids, loc)
    ensures l.Valid() && l.keys == loc.keys && l.records.Keys == loc.records.Keys
    decreases |ids|
  {
    if ids == [] then loc
    else
      var next := if Present(paths, home, ids[0]) then loc.SetField(ids[0], SrrDir, Join(home, ids[0])) else loc;
      MarkPresent(next, ids[1..], paths, home)
  }

  /** The presence loop, one turn at a time. */
  lemma {:induction false} MarkPresentAppend(loc: Locations, ids: seq<string>, x: string, paths: set<string>, home: string)
    requires loc.Valid() && AllIn(ids, loc) && x in loc.records
    ensures AllIn(ids + [x], loc)
    ensures MarkPresent(loc, ids + [x], paths, home)
         == if Present(paths, home, x) then MarkPresent(loc, ids, paths, home).SetField(x, SrrDir, Join(home, x))
            else MarkPresent(loc, ids, paths, home)
    decreases |ids|
  {
    if ids == [] {
      assert ids + [x] == [x];
      assert [x][1..] == [];
    } else {
      assert (ids + [x])[1..] == ids[1..] + [x];
      if Present(paths, home, ids[0]) {
        MarkPresentAppend(loc.SetField(ids[0], SrrDir, Join(home, ids[0])), ids[1..], x, paths, home);
      } else {
        MarkPresentAppend(loc, ids[1..], x, paths, home);
      }
    }
  }

  /** `SRR_dir = <home>/<id>` is set for exactly the present accessions; no
      other field and no other record changes, and none is removed. */
  lemma {:induction false} MarkPresentEffect(loc: Locations, ids: seq<string>, paths: set<string>, home: string, x: string)
    requires loc.Valid() && AllIn(ids, loc) && x in loc.records
    ensures MarkPresent(loc, ids, paths, home).records[x]
         == if x in ids && Present(paths, home, x) then loc.records[x][SrrDir := Join(home, x)] else loc.records[x]
    decreases |ids|
  {
    if ids != [] {
      assert x in ids <==> x == ids[0] || x in ids[1..];
      if Present(paths, home, ids[0]) {
        MarkPresentEffect(loc.SetField(ids[0], SrrDir, Join(home, ids[0])), ids[1..], paths, home, x);
      } else {
        MarkPresentEffect(loc, ids[1..], paths, home, x);
      }
    }
  }

  // ---------------------------------------------------------------------
  // Fetch stage (prefetch_SRRs)

  /** The command log of the fetch loop. */
  function PrefetchLog(ids: seq<string>): (log: seq<Command>)
    ensures |log| == |ids|
    ensures forall i :: 0 <= i < |ids| ==> log[i] == PrefetchArgs(ids[i])
  {
    if ids == [] then [] else [PrefetchArgs(ids[0])] + PrefetchLog(ids[1..])
  }

  /** The archive prefetch leaves for one accession. */
  function ArchivePaths(home: string, id: string): set<string> {
    {Join(home, id), Join(Join(home, id), id + ".sra")}
  }

  /** The paths after the fetch loop, when the downloads of `fetched`
      succeed and the others fail. */
  function AfterPrefetch(paths: set<string>, ids: seq<string>, fetched: set<string>, home: string): (p: set<string>)
    ensures paths <= p
    decreases |ids|
  {
    if ids == [] then paths
    else AfterPrefetch(if ids[0] in fetched then paths + ArchivePaths(home, ids[0]) else paths, ids[1..], fetched, home)
  }

  /** The registry after the fetch loop: `SRR_dir = <home>/<id>` for every
      accession it was given, whatever the download did. */
  function SetSrrDirs(loc: Locations, ids: seq<string>, home: string): (l: Locations)
    requires loc.Valid() && AllIn(ids, loc)
    ensures l.Valid() && l.keys == loc.keys && l.records.Keys == loc.records.Keys
    decreases |ids|
  {
    if ids == [] then loc
    else SetSrrDirs(loc.SetField(ids[0], SrrDir, Join(home, ids[0])), ids[1..], home)
  }

  lemma {:induction false} SetSrrDirsEffect(loc: Locations, ids: seq<string>, home: string, x: string)
    requires loc.Valid() && AllIn(ids, loc) && x in loc.records
    ensures SetSrrDirs(loc, ids, home).records[x]
         == if x in ids then loc.records[x][SrrDir := Join(home, x)] else loc.records[x]
    decreases |ids|
  {
    if ids != [] {
      SetSrrDirsEffect(loc.SetField(ids[0], SrrDir, Join(home, ids[0])), ids[1..], home, x);
      assert x in ids <==> x == ids[0] || x in ids[1..];
    }
  }

  /** The fetch loop, one turn at a time: a turn sets one more folder... */
  lemma {:induction false} SetSrrDirsAppend(loc: Locations, ids: seq<string>, x: string, home: string)
    requires loc.Valid() && AllIn(ids, loc) && x in loc.records
    ensures AllIn(ids + [x], loc)
    ensures SetSrrDirs(loc, ids + [x], home) == SetSrrDirs(loc, ids, home).SetField(x, SrrDir, Join(home, x))
    decreases |ids|
  {
    if ids == [] {
      assert ids + [x] == [x];
      assert [x][1..] == [];
    } else {
      assert (ids + [x])[1..] == ids[1..] + [x];
      SetSrrDirsAppend(loc.SetField(ids[0], SrrDir, Join(home, ids[0])), ids[1..], x, home);
    }
  }

  /** ...and adds the archive of one more download. */
  lemma {:induction false} AfterPrefetchAppend(paths: set<string>, ids: seq<string>, x: string, fetched: set<string>, home: string)
    ensures AfterPrefetch(paths, ids + [x], fetched, home)
         == AfterPrefetch(paths, ids, fetched, home) + (if x in fetched then ArchivePaths(home, x) else {})
    decreases |ids|
  {
    if ids == [] {
      assert ids + [x] == [x];
      assert [x][1..] == [];
    } else {
      assert (ids + [x])[1..] == ids[1..] + [x];
      AfterPrefetchAppend(if ids[0] in fetched then paths + ArchivePaths(home, ids[0]) else paths, ids[1..], x, fetched, home);
    }
  }

  /** After the presence check and the fetch loop every listed accession has
      `SRR_dir == <home>/<id>`, present or downloaded, and the download's
      outcome plays no part; other records are untouched. */
  lemma PrefetchSetsEveryDir(loc: Locations, ids: seq<string>, paths: set<string>, home: string, x: string)
    requires loc.Valid() && AllIn(ids, loc) && x in loc.records
    ensures var marked := MarkPresent(loc, ids, paths, home);
      SetSrrDirs(marked, NeedsPrefetch(ids, paths, home), home).records[x]
      == if x in ids then loc.records[x][SrrDir := Join(home, x)] else loc.records[x]
  {
    var marked := MarkPresent(loc, ids, paths, home);
    MarkPresentEffect(loc, ids, paths, home, x);
    SetSrrDirsEffect(marked, NeedsPrefetch(ids, paths, home), home, x);
    NeedsPrefetchMember(ids, paths, home, x);
  }

  /** When every download succeeds, every listed accession is present
      afterwards: a second presence check finds nothing left to fetch. */
  lemma {:induction false} PrefetchMakesPresent(paths: set<string>, ids: seq<string>, fetched: set<string>, home: string, x: string)
    requires forall i :: 0 <= i < |ids| ==> ids[i] in fetched
    requires x in ids
    ensures Present(AfterPrefetch(paths, ids, fetched, home), home, x)
    decreases |ids|
  {
    var next := paths + ArchivePaths(home, ids[0]);
    if x != ids[0] {
      PrefetchMakesPresent(next, ids[1..], fetched, home, x);
    } else {
      assert Present(next, home, x);
    }
  }

  lemma RecheckAfterPrefetch(paths: set<string>, ids: seq<string>, home: string)
    ensures var need := NeedsPrefetch(ids, paths, home);
      NeedsPrefetch(ids, AfterPrefetch(paths, need, (set y | y in need), home), home) == []
  {
    var need := NeedsPrefetch(ids, paths, home);
    var after := AfterPrefetch(paths, need, (set y | y in need), home);
    forall x | x in ids ensures Present(after, home, x) {
      NeedsPrefetchMember(ids, paths, home, x);
      if x in need {
        PrefetchMakesPresent(paths, need, (set y | y in need), home, x);
      }
    }
    NoneNeeded(ids, after, home);
  }

  lemma {:induction false} NoneNeeded(ids: seq<string>, paths: set<string>, home: string)
    requires forall x :: x in ids ==> Present(paths, home, x)
    ensures NeedsPrefetch(ids, paths, home) == []
  {
    if ids != [] {
      assert ids[0] in ids;
      NoneNeeded(ids[1..], paths, home);
    }
  }

  // ---------------------------------------------------------------------
  // The three stages on the whole session

  /** Opening and reading the list file; None stands for a file that cannot
      be opened. */
  function ReadList(listFile: Option<string>, accListPath: string): Result<seq<string>> {
    if listFile.None? then Err(FileNotFound(accListPath))
    else Ok(ParseAccessions(SplitLines(listFile.value)))
  }

  /** The session after _get_SRRs_list has read `ids`. */
  function Loaded(s: Session, ids: seq<string>): (t: Session)
    requires s.Valid()
    ensures t.Valid()
  {
    Session(Some(ids), ResetRecords(s.loc, ids))
  }

  /** The session with its list read: as it is when the list was read
      before, reloaded from the file otherwise. */
  function ListOrLoad(s: Session, listFile: Option<string>, accListPath: string): (r: Result<Session>)
    requires s.Valid()
    ensures r.Ok? ==> r.value.Valid() && r.value.srrList.Some?
  {
    if s.srrList.Some? then Ok(s)
    else match ReadList(listFile, accListPath)
      case Err(e) => Err(e)
      case Ok(ids) => Ok(Loaded(s, ids))
  }

  /** _check_local_file: the session afterwards and the accessions to fetch. */
  function CheckLocal(s: Session, listFile: Option<string>, accListPath: string,
                      paths: set<string>, home: string): (r: Result<(Session, seq<string>)>)
    requires s.Valid()
    ensures r.Ok? ==> r.value.0.Valid() && r.value.0.srrList.Some? && AllIn(r.value.1, r.value.0.loc)
  {
    match ListOrLoad(s, listFile, accListPath)
    case Err(e) => Err(e)
    case Ok(t) =>
      var ids := t.srrList.value;
      var need := NeedsPrefetch(ids, paths, home);
      var marked := MarkPresent(t.loc, ids, paths, home);
      assert AllIn(need, marked) by {
        forall i | 0 <= i < |need| ensures need[i] in marked.records {
          var j :| 0 <= j < |ids| && ids[j] == need[i];
        }
      }
      Ok((Session(t.srrList, marked), need))
  }

  /** prefetch_SRRs: one `prefetch` per accession to fetch, each followed by
      recording its folder, whatever the download did. */
  function Prefetch(s: Session, listFile: Option<string>, accListPath: string,
                    paths: set<string>, home: string, fetched: set<string>): (r: Run)
    requires s.Valid()
    ensures r.s.Valid()
  {
    match CheckLocal(s, listFile, accListPath, paths, home)
    case Err(e) => Run(s, paths, [], Some(e))
    case Ok((t, need)) =>
      Run(Session(t.srrList, SetSrrDirs(t.loc, need, home)), AfterPrefetch(paths, need, fetched, home),
          PrefetchLog(need), None)
  }

  /** The fetch stage fails only when the list has to be read and cannot
      be, and then changes nothing. */
  lemma PrefetchFailure(s: Session, listFile: Option<string>, accListPath: string,
                        paths: set<string>, home: string, fetched: set<string>)
    requires s.Valid()
    ensures var r := Prefetch(s, listFile, accListPath, paths, home, fetched);
      && (r.err.Some? <==> s.srrList.None? && listFile.None?)
      && (r.err.Some? ==> r == Run(s, paths, [], Some(FileNotFound(accListPath))))
  {
  }

  /** Otherwise every listed accession is recorded at `<home>/<id>`, present
      or fetched, and the records of accessions not listed are as they were. */
  lemma PrefetchRecords(s: Session, listFile: Option<string>, accListPath: string,
                        paths: set<string>, home: string, fetched: set<string>, x: string)
    requires s.Valid()
    ensures var r := Prefetch(s, listFile, accListPath, paths, home, fetched);
      r.err.None? ==>
        && r.s.srrList.Some?
        && (x in r.s.srrList.value ==> x in r.s.loc.records && SrrDir in r.s.loc.records[x] && r.s.loc.records[x][SrrDir] == Join(home, x))
        && (x !in r.s.srrList.value && x in s.loc.records ==> r.s.loc.records[x] == s.loc.records[x])
  {
    var r := Prefetch(s, listFile, accListPath, paths, home, fetched);
    if r.err.None? {
      var t := ListOrLoad(s, listFile, accListPath).value;
      PrefetchUnfold(s, listFile, accListPath, paths, home, fetched);
      ListOrLoadRecord(s, listFile, accListPath, x);
      if x in t.loc.records {
        PrefetchSetsEveryDir(t.loc, t.srrList.value, paths, home, x);
      }
    }
  }

  /** A clean fetch stage is the fetch loop run on the checked session. */
  lemma PrefetchUnfold(s: Session, listFile: Option<string>, accListPath: string,
                       paths: set<string>, home: string, fetched: set<string>)
    requires s.Valid()
    ensures var r := Prefetch(s, listFile, accListPath, paths, home, fetched);
      r.err.None? ==>
        && ListOrLoad(s, listFile, accListPath).Ok?
        && var t := ListOrLoad(s, listFile, accListPath).value;
           var ids := t.srrList.value;
           && r.s.srrList == t.srrList
           && r.s.loc == SetSrrDirs(MarkPresent(t.loc, ids, paths, home), NeedsPrefetch(ids, paths, home), home)
  {
  }

  /** With the list read, a listed accession has a record, and an unlisted
      one keeps the record it had. */
  lemma ListOrLoadRecord(s: Session, listFile: Option<string>, accListPath: string, x: string)
    requires s.Valid()
    ensures ListOrLoad(s, listFile, accListPath).Ok? ==>
      var t := ListOrLoad(s, listFile, accListPath).value;
      && (x in t.srrList.value ==> x in t.loc.records)
      && (x !in t.srrList.value && x in s.loc.records ==> x in t.loc.records && t.loc.records[x] == s.loc.records[x])
  {
    if ListOrLoad(s, listFile, accListPath).Ok? {
      var t := ListOrLoad(s, listFile, accListPath).value;
      if s.srrList.None? {
        ResetRecordsEffect(s.loc, t.srrList.value, x);
      }
      if x in t.srrList.value {
        var j :| 0 <= j < |t.srrList.value| && t.srrList.value[j] == x;
      }
    }
  }

  /** The registry's iteration order is only ever extended. */
  lemma PrefetchKeepsOrder(s: Session, listFile: Option<string>, accListPath: string,
                           paths: set<string>, home: string, fetched: set<string>)
    requires s.Valid()
    ensures var r := Prefetch(s, listFile, accListPath, paths, home, fetched);
      |s.loc.keys| <= |r.s.loc.keys| && r.s.loc.keys[..|s.loc.keys|] == s.loc.keys
  {
    var r := Prefetch(s, listFile, accListPath, paths, home, fetched);
    if r.err.None? && s.srrList.None? {
      ResetRecordsKeepsOrder(s.loc, ListOrLoad(s, listFile, accListPath).value.srrList.value);
    }
  }

  /** A listed accession is fetched exactly when it was not present. */
  lemma PrefetchLogged(s: Session, listFile: Option<string>, accListPath: string,
                       paths: set<string>, home: string, fetched: set<string>, x: string)
    requires s.Valid()
    ensures var r := Prefetch(s, listFile, accListPath, paths, home, fetched);
      r.err.None? && x in r.s.srrList.value ==> (PrefetchArgs(x) in r.log <==> !Present(paths, home, x))
  {
    var r := Prefetch(s, listFile, accListPath, paths, home, fetched);
    if r.err.None? {
      var ids := ListOrLoad(s, listFile, accListPath).value.srrList.value;
      assert r.s.srrList == Some(ids);
      PrefetchLogMember(NeedsPrefetch(ids, paths, home), x);
      NeedsPrefetchMember(ids, paths, home, x);
    }
  }

  /** The fetch loop appends one command per turn. */
  lemma {:induction false} PrefetchLogAppend(ids: seq<string>, x: string)
    ensures PrefetchLog(ids + [x]) == PrefetchLog(ids) + [PrefetchArgs(x)]
  {
    if ids == [] {
      assert ids + [x] == [x];
      assert [x][1..] == [];
    } else {
      assert (ids + [x])[1..] == ids[1..] + [x];
      PrefetchLogAppend(ids[1..], x);
    }
  }

  lemma {:induction false} PrefetchLogMember(ids: seq<string>, x: string)
    ensures PrefetchArgs(x) in PrefetchLog(ids) <==> x in ids
  {
    if ids != [] {
      PrefetchLogMember(ids[1..], x);
      assert x in ids <==> x == ids[0] || x in ids[1..];
      assert PrefetchArgs(x) == PrefetchArgs(ids[0]) ==> x == ids[0] by {
        if PrefetchArgs(x) == PrefetchArgs(ids[0]) {
          assert PrefetchArgs(x)[1] == x;
        }
      }
    }
  }
}
