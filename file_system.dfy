/**
 * The part of the operating system the server uses: directories holding files, and the
 * path helpers of Go's path and path/filepath packages on the names the server builds.
 */
module FileSystem {
  /** path.Join of a directory and a name. */
  function Join(dir: string, name: string): (p: string)
    ensures |p| == |dir| + 1 + |name|
    ensures p[..|dir|] == dir && p[|dir|] == '/' && p[|dir| + 1..] == name
  {
    dir + "/" + name
  }

  /** Names joined to one directory collide only when they are equal. */
  lemma JoinInjective(dir: string, a: string, b: string)
    requires Join(dir, a) == Join(dir, b)
    ensures a == b
  {
    assert a == Join(dir, a)[|dir| + 1..];
  }

  /** filepath.Ext: the suffix from the last '.' of the final element, or "" when it has none. */
  function Ext(path: string): (r: string)
    ensures |r| <= |path| && r == path[|path| - |r|..]
    ensures r != [] ==> r[0] == '.' && (forall i :: 0 <= i < |r| ==> r[i] != '/')
                        && (forall i :: 1 <= i < |r| ==> r[i] != '.')
  {
    if path == [] || path[|path| - 1] == '/' then ""
    else if path[|path| - 1] == '.' then "."
    else
      var e := Ext(path[..|path| - 1]);
      if e == "" then "" else e + [path[|path| - 1]]
  }

  /** The extension of name.ext, when ext holds no '.' or '/', is ".ext". */
  lemma {:induction false} ExtOfName(base: string, ext: string)
    requires forall i :: 0 <= i < |ext| ==> ext[i] != '.' && ext[i] != '/'
    ensures Ext(base + "." + ext) == "." + ext
  {
    var p := base + "." + ext;
    if ext == [] {
      assert p[|p| - 1] == '.';
    } else {
      var front := ext[..|ext| - 1];
      ExtOfName(base, front);
      assert p[..|p| - 1] == base + "." + front;
      assert "." + ext == ("." + front) + [ext[|ext| - 1]];
    }
  }

  /** filepath.Base on the names the server builds: what follows the last '/'. */
  function Base(path: string): (r: string)
    ensures |r| <= |path| && r == path[|path| - |r|..]
    ensures forall i :: 0 <= i < |r| ==> r[i] != '/'
  {
    if path == [] || path[|path| - 1] == '/' then ""
    else Base(path[..|path| - 1]) + [path[|path| - 1]]
  }

  /** filepath.Dir on the names the server builds: what precedes the last '/'. */
  function Dir(path: string): (r: string)
    ensures |r| < |path| || r == path == ""
    ensures r == path[..|r|]
  {
    if path == [] then ""
    else if path[|path| - 1] == '/' then path[..|path| - 1]
    else Dir(path[..|path| - 1])
  }

  /** Removing a directory that was just added gives back the listing from before. */
  lemma RemoveUndoesAdd(m: map<string, set<string>>, dir: string, names: set<string>)
    requires dir !in m
    ensures m[dir := names] - {dir} == m
  {
    assert (m[dir := names] - {dir}).Keys == m.Keys;
  }

  /** A name without '/' is its own Base. */
  lemma {:induction false} BasePlain(name: string)
    requires forall i :: 0 <= i < |name| ==> name[i] != '/'
    ensures Base(name) == name
  {
    if name != [] {
      BasePlain(name[..|name| - 1]);
      assert name == name[..|name| - 1] + [name[|name| - 1]];
    }
  }

  /** Base of a joined path is the name. */
  lemma {:induction false} BaseOfJoin(dir: string, name: string)
    requires forall i :: 0 <= i < |name| ==> name[i] != '/'
    ensures Base(Join(dir, name)) == name
  {
    var p := Join(dir, name);
    if name == [] {
      assert p[|p| - 1] == '/';
    } else {
      var front := name[..|name| - 1];
      var last := name[|name| - 1];
      assert p == Join(dir, front) + [last];
      BaseOfJoin(dir, front);
      assert Base(p) == Base(Join(dir, front)) + [last];
      assert name == front + [last];
    }
  }

  /** Dir of a joined path is the directory. */
  lemma {:induction false} DirOfJoin(dir: string, name: string)
    requires forall i :: 0 <= i < |name| ==> name[i] != '/'
    ensures Dir(Join(dir, name)) == dir
  {
    var p := Join(dir, name);
    if name == [] {
      assert p[|p| - 1] == '/';
      assert p[..|p| - 1] == dir;
    } else {
      var front := name[..|name| - 1];
      DirOfJoin(dir, front);
      assert p[..|p| - 1] == Join(dir, front);
      assert p[|p| - 1] == name[|name| - 1];
    }
  }

  /** The error text of a failed os.RemoveAll (a stand-in for the operating system's message). */
  const RemoveFailed := "remove failed"

  /** The directories of the data volume and the names of the files in each. */
  class Files {
    var dirs: map<string, set<string>>

    constructor(dirs: map<string, set<string>>)
      ensures this.dirs == dirs
    {
      this.dirs := dirs;
    }

    /** The directory exists and holds a file called name. */
    predicate Has(dir: string, name: string)
      reads this
    {
      dir in dirs && name in dirs[dir]
    }

    /** os.Mkdir: fails when the directory already exists, otherwise creates it empty. */
    method Mkdir(dir: string) returns (ok: bool)
      modifies this
      ensures ok <==> dir !in old(dirs)
      ensures dirs == if ok then old(dirs)[dir := {}] else old(dirs)
    {
      ok := dir !in dirs;
      if ok {
        dirs := dirs[dir := {}];
      }
    }

    /** os.OpenFile of Join(dir, name) with O_CREATE: fails when dir does not exist, otherwise the file exists afterwards. */
    method Create(dir: string, name: string) returns (ok: bool)
      modifies this
      ensures ok <==> dir in old(dirs)
      ensures dirs == if ok then old(dirs)[dir := old(dirs)[dir] + {name}] else old(dirs)
      ensures ok ==> Has(dir, name)
    {
      ok := dir in dirs;
      if ok {
        dirs := dirs[dir := dirs[dir] + {name}];
      }
    }

    /**
     * os.RemoveAll: the directory and everything in it are gone; a missing directory is not an error.
     * fails stands for a disk or permission error, after which the listing is left as it was.
     */
    method RemoveAll(dir: string, fails: bool) returns (ok: bool)
      modifies this
      ensures ok <==> !fails
      ensures dirs == if ok then old(dirs) - {dir} else old(dirs)
    {
      ok := !fails;
      if ok {
        dirs := dirs - {dir};
      }
    }
  }
}
