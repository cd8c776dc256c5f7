/** The loop of ScRNAAnalysis.__rename_fastq__ over one directory listing:
    each name is turned into its Cell Ranger name and the file is moved
    there, and the first failure ends the loop with the earlier moves kept. */
module Renaming {
  import opened Outcomes
  import opened Paths
  import opened FastqNames

  /** The paths after the loop, and the exception that ended it early. */
  datatype Renamed = Renamed(paths: set<string>, err: Option<Error>)

  /** `directory + '/' + name`, written with a plain '/' as the loop does. */
  function InDir(dir: string, name: string): string {
    dir + "/" + name
  }

  function RenameAll(paths: set<string>, dir: string, names: seq<string>): Renamed
    decreases |names|
  {
    if names == [] then Renamed(paths, None)
    else match RenameTarget(names[0])
      case Err(e) => Renamed(paths, Some(e))
      case Ok(target) =>
        var src := InDir(dir, names[0]);
        if src !in paths then Renamed(paths, Some(FileNotFound(src)))
        else RenameAll(MovePath(paths, src, InDir(dir, target)), dir, names[1..])
  }

  /** The whole of __rename_fastq__: listing a directory that does not
      exist raises FileNotFoundError before anything is moved. */
  function RenameInDir(paths: set<string>, dir: string, listing: seq<string>): Renamed {
    if dir !in paths then Renamed(paths, Some(FileNotFound(dir))) else RenameAll(paths, dir, listing)
  }

  /** The files the loop moves away. */
  function Sources(dir: string, names: seq<string>): set<string> {
    if names == [] then {} else {InDir(dir, names[0])} + Sources(dir, names[1..])
  }

  /** Every name of the list has a Cell Ranger name. */
  ghost predicate AllRenamable(names: seq<string>) {
    forall i :: 0 <= i < |names| ==> RenameTarget(names[i]).Ok?
  }

  /** The Cell Ranger names, in listing order. */
  function Targets(names: seq<string>): (ts: seq<string>)
    requires AllRenamable(names)
    ensures |ts| == |names|
    ensures forall i :: 0 <= i < |names| ==> ts[i] == RenameTarget(names[i]).value
  {
    if names == [] then [] else [RenameTarget(names[0]).value] + Targets(names[1..])
  }

  /** The files the loop creates. */
  function TargetPaths(dir: string, names: seq<string>): set<string>
    requires AllRenamable(names)
  {
    set i | 0 <= i < |names| :: InDir(dir, RenameTarget(names[i]).value)
  }

  lemma InDirInjective(dir: string, a: string, b: string)
    requires InDir(dir, a) == InDir(dir, b)
    ensures a == b
  {
    assert a == InDir(dir, a)[|dir| + 1..];
    assert b == InDir(dir, b)[|dir| + 1..];
  }

  /** A clean run checked every name: none was refused. */
  lemma {:induction false} RenameAllChecksNames(paths: set<string>, dir: string, names: seq<string>)
    ensures RenameAll(paths, dir, names).err.None? ==> AllRenamable(names)
    decreases |names|
  {
    if names != [] && RenameTarget(names[0]).Ok? {
      var src := InDir(dir, names[0]);
      if src in paths {
        RenameAllChecksNames(MovePath(paths, src, InDir(dir, RenameTarget(names[0]).value)), dir, names[1..]);
        if RenameAll(paths, dir, names).err.None? {
          forall i | 0 <= i < |names| ensures RenameTarget(names[i]).Ok? {
            if i > 0 { assert names[i] == names[1..][i - 1]; }
          }
        }
      }
    }
  }

  /** A name refused by the table ends the loop with an error, whichever
      place it has in the listing. */
  lemma RenameAllStopsAtBadName(paths: set<string>, dir: string, names: seq<string>, k: nat)
    requires k < |names| && RenameTarget(names[k]).Err?
    ensures RenameAll(paths, dir, names).err.Some?
  {
    RenameAllChecksNames(paths, dir, names);
  }

  /** The files are distinct, all present and all named as fastq-dump
      names them: the run succeeds, each file is moved to its Cell Ranger
      name and nothing else changes. */
  lemma {:induction false} RenameAllMovesEveryFile(paths: set<string>, dir: string, names: seq<string>)
    requires AllRenamable(names)
    requires forall i, j :: 0 <= i < j < |names| ==> names[i] != names[j]
    requires forall i :: 0 <= i < |names| ==> InDir(dir, names[i]) in paths
    ensures RenameAll(paths, dir, names) == Renamed((paths - Sources(dir, names)) + TargetPaths(dir, names), None)
    decreases |names|
  {
    if names != [] {
      var rest := names[1..];
      var src, dst := InDir(dir, names[0]), InDir(dir, RenameTarget(names[0]).value);
      var next := MovePath(paths, src, dst);
      RestStillPresent(paths, dir, names);
      RenameAllMovesEveryFile(next, dir, rest);
      FirstTargetNotSource(dir, names);
      TargetPathsCons(dir, names);
      assert (next - Sources(dir, rest)) + TargetPaths(dir, rest)
          == (paths - Sources(dir, names)) + TargetPaths(dir, names);
    }
  }

  /** After the first move the other files are still where they were. */
  lemma RestStillPresent(paths: set<string>, dir: string, names: seq<string>)
    requires names != [] && AllRenamable(names)
    requires forall i, j :: 0 <= i < j < |names| ==> names[i] != names[j]
    requires forall i :: 0 <= i < |names| ==> InDir(dir, names[i]) in paths
    ensures AllRenamable(names[1..])
    ensures var next := MovePath(paths, InDir(dir, names[0]), InDir(dir, RenameTarget(names[0]).value));
      forall i :: 0 <= i < |names| - 1 ==> InDir(dir, names[1..][i]) in next
  {
    var rest := names[1..];
    var t := RenameTarget(names[0]).value;
    var src, dst := InDir(dir, names[0]), InDir(dir, t);
    var next := MovePath(paths, src, dst);
    assert AllRenamable(rest) by {
      forall i | 0 <= i < |rest| ensures RenameTarget(rest[i]).Ok? { assert rest[i] == names[i + 1]; }
    }
    forall i | 0 <= i < |rest| ensures InDir(dir, rest[i]) in next {
      assert rest[i] == names[i + 1];
      if InDir(dir, rest[i]) == src {
        InDirInjective(dir, rest[i], names[0]);
      }
      if InDir(dir, rest[i]) == dst {
        InDirInjective(dir, rest[i], t);
        RenameIsNotRepeated(names[0]);
      }
    }
  }

  /** The first file's new path is none of the later files' old paths. */
  lemma FirstTargetNotSource(dir: string, names: seq<string>)
    requires names != [] && AllRenamable(names)
    ensures InDir(dir, RenameTarget(names[0]).value) !in Sources(dir, names[1..])
  {
    var t := RenameTarget(names[0]).value;
    var rest := names[1..];
    if InDir(dir, t) in Sources(dir, rest) {
      var k := SourceIndex(dir, rest, InDir(dir, t));
      InDirInjective(dir, rest[k], t);
      assert rest[k] == names[k + 1];
      RenameIsNotRepeated(names[0]);
    }
  }

  lemma TargetPathsCons(dir: string, names: seq<string>)
    requires names != [] && AllRenamable(names) && AllRenamable(names[1..])
    ensures TargetPaths(dir, names) == {InDir(dir, RenameTarget(names[0]).value)} + TargetPaths(dir, names[1..])
  {
    var rest := names[1..];
    var dst := InDir(dir, RenameTarget(names[0]).value);
    forall p | p in TargetPaths(dir, names) ensures p in {dst} + TargetPaths(dir, rest) {
      var i :| 0 <= i < |names| && p == InDir(dir, RenameTarget(names[i]).value);
      if i > 0 { assert names[i] == rest[i - 1]; }
    }
    forall p | p in TargetPaths(dir, rest) ensures p in TargetPaths(dir, names) {
      var i :| 0 <= i < |rest| && p == InDir(dir, RenameTarget(rest[i]).value);
      assert rest[i] == names[i + 1];
    }
  }

  lemma {:induction false} SourceIndex(dir: string, names: seq<string>, p: string) returns (k: nat)
    requires p in Sources(dir, names)
    ensures k < |names| && p == InDir(dir, names[k])
  {
    if p == InDir(dir, names[0]) {
      k := 0;
    } else {
      var k' := SourceIndex(dir, names[1..], p);
      k := k' + 1;
    }
  }

  /** Renaming a second time over the new names is refused at once and
      moves nothing: the Cell Ranger names are not fastq-dump names. */
  lemma RenameTwiceRefused(paths: set<string>, dir: string, names: seq<string>)
    requires names != [] && AllRenamable(names)
    ensures RenameAll(paths, dir, Targets(names)).paths == paths
    ensures RenameAll(paths, dir, Targets(names)).err.Some?
  {
    RenameIsNotRepeated(names[0]);
  }
}
