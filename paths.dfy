/**
 * The parts of Rust's std::path that the program relies on, for
 * '/'-separated paths held as strings: `file_name`, `extension` and `join`.
 */
module Paths {
  import opened Wrappers

  type Path = string

  /** The index of the last occurrence of `c` in `s`. */
  function LastIndexOf(s: string, c: char): (r: Option<nat>)
    ensures r.Some? ==> r.value < |s| && s[r.value] == c
    ensures r.Some? ==> forall k :: r.value < k < |s| ==> s[k] != c
    ensures r.None? ==> forall k :: 0 <= k < |s| ==> s[k] != c
    decreases |s|
  {
    if s == [] then None
    else if s[|s| - 1] == c then Some(|s| - 1)
    else LastIndexOf(s[..|s| - 1], c)
  }

  /** The pieces of `s` between separators, empty pieces included. */
  function Segments(s: string): (r: seq<string>)
    ensures |r| >= 1
    ensures forall k :: 0 <= k < |r| ==> '/' !in r[k]
    decreases |s|
  {
    match LastIndexOf(s, '/')
    case None => [s]
    case Some(k) => Segments(s[..k]) + [s[k + 1..]]
  }

  /**
   * The pieces that `Path::components` reports as names or `..`: empty
   * pieces (repeated or trailing separators) and `.` pieces are dropped.
   */
  function Components(segments: seq<string>): (r: seq<string>)
    ensures forall k :: 0 <= k < |r| ==> r[k] in segments && r[k] != "" && r[k] != "."
  {
    if segments == [] then []
    else
      var last := segments[|segments| - 1];
      var rest := Components(segments[..|segments| - 1]);
      if last == "" || last == "." then rest else rest + [last]
  }

  /** A name that `Path::file_name` can return: one normal component. */
  predicate IsNormalName(n: string) {
    n != "" && n != "." && n != ".." && '/' !in n
  }

  /**
   * `Path::file_name`: the last component of `p`, or None when the path
   * is empty, is a root, or ends in `..`.
   */
  function FileName(p: Path): (r: Option<string>)
    ensures r.Some? ==> IsNormalName(r.value)
  {
    var cs := Components(Segments(p));
    if cs == [] || cs[|cs| - 1] == ".." then None
    else
      assert forall k :: 0 <= k < |cs| ==> '/' !in cs[k];
      Some(cs[|cs| - 1])
  }

  /**
   * `Path::extension`: the text after the last `.` of the file name; None
   * when there is no file name, no dot, or the only dot is a leading one.
   */
  function Extension(p: Path): (r: Option<string>)
    ensures r.Some? <==>
      FileName(p).Some? && exists k :: 0 < k < |FileName(p).value| && FileName(p).value[k] == '.'
    ensures r.Some? ==>
      var n := FileName(p).value;
      && |r.value| < |n| - 1
      && n == n[..|n| - |r.value| - 1] + "." + r.value
      && '.' !in r.value
  {
    match FileName(p)
    case None => None
    case Some(n) =>
      match LastIndexOf(n, '.')
      case None => None
      case Some(k) =>
        if k == 0 then None
        else
          assert n == n[..k] + "." + n[k + 1..];
          Some(n[k + 1..])
  }

  /**
   * `PathBuf::join`: an absolute `name` replaces `dir`; otherwise a
   * separator is inserted unless `dir` is empty or already ends with one.
   */
  function Join(dir: Path, name: string): Path {
    if name != [] && name[0] == '/' then name
    else if dir != [] && dir[|dir| - 1] != '/' then dir + "/" + name
    else dir + name
  }

  /** A normal name written after a separator (or alone) is the file name of the whole path. */
  lemma FileNameAfterSeparator(q: string, name: string)
    requires IsNormalName(name)
    requires q == [] || q[|q| - 1] == '/'
    ensures FileName(q + name) == Some(name)
  {
    var s := q + name;
    if q == [] {
      assert s == name;
      assert LastIndexOf(s, '/') == None;
      assert Segments(s) == [name];
      assert Components([name]) == Components([]) + [name];
    } else {
      var k := |q| - 1;
      assert s[k] == '/';
      assert forall j :: k < j < |s| ==> s[j] == name[j - |q|];
      assert LastIndexOf(s, '/') == Some(k);
      assert s[..k] == q[..k] && s[k + 1..] == name;
      var segs := Segments(s);
      assert segs == Segments(q[..k]) + [name];
      assert segs[..|segs| - 1] == Segments(q[..k]);
      assert Components(segs) == Components(Segments(q[..k])) + [name];
    }
  }

  /**
   * The path `dir.join(name)` of a normal name has `name` as its file name;
   * a separator is put between them exactly when `dir` is not empty and
   * does not already end in one.
   */
  lemma JoinFileName(dir: Path, name: string)
    requires IsNormalName(name)
    ensures FileName(Join(dir, name)) == Some(name)
    ensures dir != [] && dir[|dir| - 1] != '/' ==> Join(dir, name) == dir + "/" + name
    ensures dir == [] || dir[|dir| - 1] == '/' ==> Join(dir, name) == dir + name
  {
    if dir != [] && dir[|dir| - 1] != '/' {
      assert dir + "/" + name == (dir + "/") + name;
      FileNameAfterSeparator(dir + "/", name);
    } else {
      FileNameAfterSeparator(dir, name);
    }
  }

  /**
   * A file named `stem.ext` (after an optional directory part) has
   * extension `ext`, provided the stem is not empty and `ext` has no dot.
   */
  lemma ExtensionOfName(q: string, stem: string, ext: string)
    requires q == [] || q[|q| - 1] == '/'
    requires IsNormalName(stem + "." + ext)
    requires stem != [] && '.' !in ext
    ensures Extension(q + (stem + "." + ext)) == Some(ext)
  {
    var n := stem + "." + ext;
    FileNameAfterSeparator(q, n);
    assert n[|stem|] == '.';
    assert forall j :: |stem| < j < |n| ==> n[j] == ext[j - |stem| - 1];
    assert LastIndexOf(n, '.') == Some(|stem|);
    assert n[|stem| + 1..] == ext;
  }
}
