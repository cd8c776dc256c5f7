/** POSIX path joining as Python's os.path.join does it for two parts. */
module Paths {
  import opened Text

  /** os.path.join(a, b): an absolute b replaces a; otherwise b is appended,
      with a "/" in between unless a is empty or already ends in one. */
  function Join(a: string, b: string): (r: string)
  {
    if StartsWith(b, "/") then b
    else if a == "" || a[|a| - 1] == '/' then a + b
    else a + "/" + b
  }

  /** The joined path ends with the second part, and starts with the first
      unless the second is absolute. */
  lemma JoinShape(a: string, b: string)
    ensures EndsWith(Join(a, b), b)
    ensures !StartsWith(b, "/") ==> StartsWith(Join(a, b), a)
  {
    var r := Join(a, b);
    if !StartsWith(b, "/") {
      assert r[..|a|] == a;
      assert r[|r| - |b|..] == b;
    }
  }

  /** os.path.basename(p): the text after the last "/". */
  function Basename(p: string): (r: string)
    ensures '/' !in r
    ensures EndsWith(p, r)
  {
    if p == "" || p[|p| - 1] == '/' then ""
    else
      assert p == p[..|p| - 1] + [p[|p| - 1]];
      Basename(p[..|p| - 1]) + [p[|p| - 1]]
  }

  lemma {:induction false} BasenameAfterSlash(x: string, b: string)
    requires x == "" || x[|x| - 1] == '/'
    requires '/' !in b
    ensures Basename(x + b) == b
    decreases |b|
  {
    if b == "" {
      assert x + b == x;
    } else {
      var b', c := b[..|b| - 1], b[|b| - 1];
      var p := x + b;
      assert c in b;
      assert p[|p| - 1] == c;
      assert p[..|p| - 1] == x + b';
      assert Basename(p) == Basename(x + b') + [c];
      BasenameAfterSlash(x, b');
      assert b == b' + [c];
    }
  }

  /** Joining a single path component makes it the last component. */
  lemma JoinBasename(a: string, b: string)
    requires '/' !in b
    ensures Basename(Join(a, b)) == b
  {
    if b != "" {
      assert b[0] != '/';
    }
    if a == "" || a[|a| - 1] == '/' {
      BasenameAfterSlash(a, b);
    } else {
      assert a + "/" + b == (a + "/") + b;
      BasenameAfterSlash(a + "/", b);
    }
  }

  /** The effect of os.rename(src, dst) on the set of existing paths, when
      src exists: dst is taken to replace whatever was there. */
  function MovePath(paths: set<string>, src: string, dst: string): (r: set<string>)
    ensures src != dst ==> src !in r
    ensures dst in r && r - {dst} <= paths
    ensures forall p :: p in paths && p != src ==> p in r
  {
    (paths - {src}) + {dst}
  }
}
