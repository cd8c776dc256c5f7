/** The part of the filesystem the pipeline touches: the set of paths that
    exist. The os calls it makes become methods that change that set. */
module FileSystem {
  import opened Outcomes
  import opened Paths

  class Disk {
    var paths: set<string>

    constructor(initial: set<string>)
      ensures paths == initial
    {
      paths := initial;
    }

    /** os.rename(src, dst): FileNotFoundError when src does not exist,
        otherwise src is gone and dst exists. */
    method Rename(src: string, dst: string) returns (err: Option<Error>)
      modifies this
      ensures src in old(paths) ==> err.None? && paths == MovePath(old(paths), src, dst)
      ensures src !in old(paths) ==> err == Some(FileNotFound(src)) && paths == old(paths)
    {
      if src !in paths {
        return Some(FileNotFound(src));
      }
      paths := MovePath(paths, src, dst);
      return None;
    }

    /** os.chdir(p): FileNotFoundError when p does not exist; the current
        directory itself is not kept, every path being taken as absolute. */
    method ChangeDir(p: string) returns (err: Option<Error>)
      ensures p in paths <==> err.None?
      ensures err.Some? ==> err == Some(FileNotFound(p))
    {
      if p !in paths {
        return Some(FileNotFound(p));
      }
      return None;
    }

    /** What an external tool writes: the given paths now exist. */
    method Create(ps: set<string>)
      modifies this
      ensures paths == old(paths) + ps
    {
      paths := paths + ps;
    }
  }
}
