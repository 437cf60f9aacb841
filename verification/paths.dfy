/**
  * The shell context's path helpers: `normalizePath`, which resolves a typed
  * path against the working directory, and `removeWorkingDir`, which turns a
  * listed file's path back into the text inserted on the command line.
  * `java.io.File` paths are modelled by the Unix rules of the Java runtime:
  * repeated separators collapse, a trailing separator is dropped (except for
  * the root), and a child is joined to its parent with one separator.
  */
module Paths {
  import opened Text

  const Sep: char := '/'

  // ---------------------------------------------------------------------
  // java.io.File paths
  // ---------------------------------------------------------------------

  predicate NoDoubleSep(s: string) {
    forall i :: 0 < i < |s| ==> !(s[i - 1] == Sep && s[i] == Sep)
  }

  /** The form `java.io.File` keeps its path in. */
  predicate Normal(s: string) {
    NoDoubleSep(s) && (|s| > 1 ==> s[|s| - 1] != Sep)
  }

  /** Every run of separators shrinks to one. */
  function Collapse(s: string): (r: string)
    ensures |r| <= |s| && NoDoubleSep(r)
    ensures |s| > 0 ==> |r| > 0 && r[0] == s[0] && r[|r| - 1] == s[|s| - 1]
    decreases |s|
  {
    if |s| < 2 then s
    else if s[|s| - 1] == Sep && s[|s| - 2] == Sep then Collapse(s[..|s| - 1])
    else Collapse(s[..|s| - 1]) + [s[|s| - 1]]
  }

  /** `UnixFileSystem.normalize`. */
  function Normalize(s: string): (r: string)
    ensures Normal(r)
    ensures |s| > 0 ==> |r| > 0 && r[0] == s[0]
  {
    var c := Collapse(s);
    if |c| > 1 && c[|c| - 1] == Sep then c[..|c| - 1] else c
  }

  /** A path already in normal form is left as it is. */
  lemma {:induction false} CollapseNormal(s: string)
    requires NoDoubleSep(s)
    ensures Collapse(s) == s
    decreases |s|
  {
    if |s| >= 2 {
      CollapseNormal(s[..|s| - 1]);
    }
  }

  lemma NormalizeIdempotent(s: string)
    ensures Normalize(Normalize(s)) == Normalize(s)
  {
    CollapseNormal(Normalize(s));
  }

  /** `UnixFileSystem.resolve(parent, child)` for a non-empty parent. */
  function Resolve(parent: string, child: string): string {
    if child == [] then parent
    else if child[0] == Sep then (if parent == [Sep] then child else parent + child)
    else if parent == [Sep] then parent + child
    else parent + [Sep] + child
  }

  /** A `File` built from a path, or from a parent directory and a child. */
  datatype FileRef = FileOf(path: string) | FileIn(dir: string, child: string)

  /** The `path` of a `File`. */
  function PathOf(f: FileRef): string {
    match f
    case FileOf(p) => Normalize(p)
    case FileIn(d, c) => Resolve(d, Normalize(c))
  }

  // ---------------------------------------------------------------------
  // normalizePath
  // ---------------------------------------------------------------------

  /** `normalizePath(path, transformer)`: an absolute path stands alone, any
      other path is taken below the working directory. The decision looks
      at `path`; the `File` is built from `transformer(path)`. */
  function NormalizePath(workingDir: string, path: string, transform: string -> string): (f: FileRef)
    ensures StartsWith(path, [Sep]) <==> f.FileOf?
    ensures f.FileOf? ==> f.path == transform(path)
    ensures f.FileIn? ==> f.dir == workingDir && f.child == transform(path)
  {
    if StartsWith(path, [Sep]) then FileOf(transform(path)) else FileIn(workingDir, transform(path))
  }

  // ---------------------------------------------------------------------
  // removeWorkingDir
  // ---------------------------------------------------------------------

  /** `removeWorkingDir` as written: when the path starts with the working
      directory's text, the next `|root| + 1` characters are cut, whether or
      not the one after the root is a separator; `substring` throws (None)
      when the path is the root itself. */
  function RemoveWorkingDirAsWritten(root: string, path: string): (r: Option<string>)
    ensures r.None? <==> StartsWith(path, root) && |path| == |root|
    ensures r.None? <==> path == root
    ensures r.Some? && StartsWith(path, root) ==> |r.value| + |root| + 1 == |path|
    ensures !StartsWith(path, root) ==> r == Some(path)
  {
    assert path[..|path|] == path;
    if StartsWith(path, root) then
      if |root| + 1 <= |path| then Some(path[|root| + 1..]) else None
    else Some(path)
  }

  /** The text that precedes a child's name in a path under `root`. */
  function DirPrefix(root: string): string {
    if EndsWith(root, Sep) then root else root + [Sep]
  }

  /** `removeWorkingDir` as intended: only a path inside the working
      directory loses the directory and its separator; any other path is
      kept whole. */
  function RemoveWorkingDir(root: string, path: string): (r: string)
    ensures StartsWith(path, DirPrefix(root)) ==> DirPrefix(root) + r == path
    ensures !StartsWith(path, DirPrefix(root)) ==> r == path
  {
    if StartsWith(path, DirPrefix(root)) then
      assert path == path[..|DirPrefix(root)|] + path[|DirPrefix(root)|..];
      path[|DirPrefix(root)|..]
    else path
  }

  /** The paths on which the written code does what was meant: the root has
      no trailing separator (it is not `/`), and the path either lies
      strictly inside it or does not start with its text at all. */
  predicate CutsCleanly(root: string, path: string) {
    !EndsWith(root, Sep) && (StartsWith(path, root + [Sep]) || !StartsWith(path, root))
  }

  /** On those paths the written code agrees with the intended helper. */
  lemma AsWrittenAgreesInside(root: string, path: string)
    requires CutsCleanly(root, path)
    ensures RemoveWorkingDirAsWritten(root, path) == Some(RemoveWorkingDir(root, path))
  {
    if StartsWith(path, root + [Sep]) {
      assert path[..|root|] == (root + [Sep])[..|root|] == root;
    } else {
      assert DirPrefix(root) == root + [Sep];
    }
  }

  /** With the root directory as working directory, the written code cuts
      the separator and the first letter of every entry's name. */
  lemma AsWrittenAtRoot(name: string)
    requires |name| > 0
    ensures RemoveWorkingDirAsWritten([Sep], [Sep] + name) == Some(name[1..])
    ensures RemoveWorkingDir([Sep], [Sep] + name) == name
  {
    var path := [Sep] + name;
    assert path[..1] == [Sep];
    assert path[2..] == name[1..];
    assert path[1..] == name;
  }

  /** `/system` under the root directory is inserted as `ystem`. */
  lemma AsWrittenAtRootExample()
    ensures RemoveWorkingDirAsWritten("/", "/system") == Some("ystem")
  {
    AsWrittenAtRoot("system");
    assert [Sep] + "system" == "/system";
    assert "system"[1..] == "ystem";
  }

  /** A sibling directory whose name extends the working directory's loses
      the wrong characters and becomes an absolute path elsewhere: the
      inserted text names another file. */
  lemma AsWrittenSibling()
    ensures RemoveWorkingDirAsWritten("/sdcard", "/sdcardX/y") == Some("/y")
    ensures RemoveWorkingDir("/sdcard", "/sdcardX/y") == "/sdcardX/y"
    ensures PathOf(NormalizePath("/sdcard", "/y", s => s)) == "/y" != "/sdcardX/y"
  {
    CollapseNormal("/y");
    assert "/sdcardX/y"[7] != "/sdcard/"[7];
    assert !StartsWith("/sdcardX/y", DirPrefix("/sdcard"));
    assert "/sdcardX/y"[8..] == "/y";
  }

  /** The working directory itself makes the written code throw. */
  lemma AsWrittenRoot()
    ensures RemoveWorkingDirAsWritten("/sdcard", "/sdcard").None?
    ensures RemoveWorkingDir("/sdcard", "/sdcard") == "/sdcard"
  {
    assert "/sdcard"[..7] == "/sdcard";
  }

  /** Round trip: the text inserted for a file inside the working directory
      resolves, through `normalizePath`, back to that same file. */
  lemma RemoveThenResolve(root: string, path: string)
    requires Normal(root) && Normal(path) && |root| > 0 && root[0] == Sep
    requires StartsWith(path, DirPrefix(root)) && |path| > |DirPrefix(root)|
    ensures PathOf(NormalizePath(root, RemoveWorkingDir(root, path), s => s)) == path
  {
    var p := DirPrefix(root);
    var r := RemoveWorkingDir(root, path);
    assert p + r == path;
    assert p[|p| - 1] == Sep;
    assert r[0] == path[|p|];
    assert r[0] != Sep by { assert path[|p| - 1] == Sep; }
    assert !StartsWith(r, [Sep]);
    assert NoDoubleSep(r) by {
      forall i | 0 < i < |r| ensures !(r[i - 1] == Sep && r[i] == Sep) {
        assert r[i - 1] == path[|p| + i - 1] && r[i] == path[|p| + i];
      }
    }
    CollapseNormal(r);
    assert r[|r| - 1] == path[|path| - 1];
    assert Normalize(r) == r;
    if root == [Sep] {
      assert p == root;
    } else {
      assert !EndsWith(root, Sep);
    }
  }
}
