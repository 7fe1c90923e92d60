/**
 * An immutable snapshot of the directory tree the importer reads: what
 * `os.listdir`, `os.path.isdir`, `Path.owner`/`Path.group` and reading
 * `job_data.json` would report, and the `os.path` string operations.
 */
module Filesystem {
  import opened Wrappers

  /** An entry of a project directory. `manifest` is the text of `job_data.json` inside it, if any. */
  datatype JobEntry = JobEntry(name: string, isDir: bool, manifest: Option<string>)

  /** An entry of the root location, with its ownership and (for a directory) its own entries. */
  datatype ProjectEntry = ProjectEntry(
    name: string,
    isDir: bool,
    owner: string,
    group: string,
    children: seq<JobEntry>)

  const ManifestName: string := "job_data.json"

  /** `os.path.join(a, b)` on POSIX paths. */
  function PathJoin(a: string, b: string): string {
    if b != [] && b[0] == '/' then b
    else if a == [] || a[|a| - 1] == '/' then a + b
    else a + "/" + b
  }

  /**
   * The joined path ends with `b`; it starts with `a` unless `b` is absolute,
   * in which case it is `b` itself.
   */
  lemma PathJoinShape(a: string, b: string)
    ensures var r := PathJoin(a, b);
      && |b| <= |r| && r[|r| - |b|..] == b
      && ((b == [] || b[0] != '/') ==> a <= r)
      && (b != [] && b[0] == '/' ==> r == b)
  {
  }

  /** `os.path.basename(p)`: what follows the last '/'. */
  function Basename(p: string): (r: string)
    ensures '/' !in r
    ensures |r| <= |p|
  {
    if p == [] || p[|p| - 1] == '/' then [] else Basename(p[..|p| - 1]) + [p[|p| - 1]]
  }

  /** The base name is the end of the path, and it is either the whole path or follows a '/'. */
  lemma {:induction false} BasenameIsLastPart(p: string)
    ensures var r := Basename(p);
      && r == p[|p| - |r|..]
      && (r == p || (|r| < |p| && p[|p| - |r| - 1] == '/'))
    decreases |p|
  {
    if p != [] && p[|p| - 1] != '/' {
      var init := p[..|p| - 1];
      BasenameIsLastPart(init);
      var r0 := Basename(init);
      assert p[|p| - |r0| - 1..] == init[|init| - |r0|..] + [p[|p| - 1]];
      if r0 != init {
        assert p[|p| - |r0| - 2] == init[|init| - |r0| - 1];
      }
    }
  }

  /** A name with no '/' placed after a directory part ending in '/' is the base name. */
  lemma {:induction false} BasenameAfterSlash(dir: string, name: string)
    requires dir == [] || dir[|dir| - 1] == '/'
    requires '/' !in name
    ensures Basename(dir + name) == name
    decreases |name|
  {
    if name == [] {
      assert dir + name == dir;
    } else {
      var init := name[..|name| - 1];
      assert (dir + name)[..|dir + name| - 1] == dir + init;
      BasenameAfterSlash(dir, init);
      assert name == init + [name[|name| - 1]];
    }
  }

  /** The base name of a joined path is the directory entry's own name. */
  lemma BasenameOfJoin(location: string, name: string)
    requires name != [] && '/' !in name
    ensures Basename(PathJoin(location, name)) == name
  {
    if location == [] || location[|location| - 1] == '/' {
      BasenameAfterSlash(location, name);
    } else {
      BasenameAfterSlash(location + "/", name);
      assert location + "/" + name == (location + "/") + name;
    }
  }
}
