/**
 * The parts of Rust's `std::path::Path` the dashboard uses on
 * '/'-separated paths: the final component, its extension and stem (split
 * at the last '.', where a leading '.' starts no extension), and joining.
 */
module Paths {
  import opened Wrappers
  import opened Text

  /** `path` without trailing '/' and trailing "." components, which
      `Path::components` skips everywhere but at the start. */
  function DropTrailingCurDirs(path: string): (r: string)
    ensures |r| <= |path|
    decreases |path|
  {
    var t := TrimEnd(path, '/');
    if |t| >= 2 && t[|t| - 2] == '/' && t[|t| - 1] == '.' then DropTrailingCurDirs(t[..|t| - 1]) else t
  }

  /** The last component, ignoring trailing '/' and trailing "."
      components; None when there is none or it is "." or "..". */
  function FileName(path: string): (r: Option<string>)
    ensures r.Some? ==> |r.value| > 0 && '/' !in r.value && r.value != ".." && r.value != "."
  {
    var last := AfterLast(DropTrailingCurDirs(path), '/');
    if last == "" || last == "." || last == ".." then None else Some(last)
  }

  /** A "." component at the end names the same file as the path before it. */
  lemma FileNameIgnoresCurDir(path: string)
    ensures FileName(path + "/.") == FileName(path)
  {
    var p := path + "/.";
    var q := p[..|p| - 1];
    assert q == path + "/" && q[..|q| - 1] == path;
    assert TrimEnd(p, '/') == p;
    assert TrimEnd(q, '/') == TrimEnd(path, '/');
    assert DropTrailingCurDirs(p) == DropTrailingCurDirs(q);
    assert DropTrailingCurDirs(q) == DropTrailingCurDirs(path);
  }

  /** "." and the root name no file. */
  lemma FileNameOfCurDir()
    ensures FileName(".") == None && FileName("/.") == None
  {
    var dot := ".";
    assert TrimEnd(dot, '/') == dot;
    assert DropTrailingCurDirs(dot) == dot;
    assert AfterLast(dot[..0], '/') == "";
    assert AfterLast(dot, '/') == dot;
    var empty := "";
    assert DropTrailingCurDirs(empty) == empty;
    assert FileName(empty) == None;
    FileNameIgnoresCurDir(empty);
    assert empty + "/." == "/.";
  }

  /** A plain name is its own file name, also with "/." after it. */
  lemma FileNameOfPlainName(name: string)
    requires name != "" && '/' !in name && name != "." && name != ".."
    ensures FileName(name) == Some(name) && FileName(name + "/.") == Some(name)
  {
    assert TrimEnd(name, '/') == name;
    AfterLastIsSuffix(name, '/');
    assert AfterLast(name, '/') == name;
    FileNameIgnoresCurDir(name);
  }

  lemma FileNameAfterCurDir()
    ensures FileName("x/.") == Some("x")
  {
    FileNameOfPlainName("x");
    assert "x" + "/." == "x/.";
  }

  /** The index of the last '.' in `name`, if any. */
  function LastDot(name: string): (r: Option<nat>)
    ensures r.Some? ==> (r.value < |name| && name[r.value] == '.'
      && forall j :: r.value < j < |name| ==> name[j] != '.')
    ensures r.None? ==> '.' !in name
    decreases |name|
  {
    if |name| == 0 then None
    else if name[|name| - 1] == '.' then Some(|name| - 1)
    else LastDot(name[..|name| - 1])
  }

  /** A file name split into stem and extension: the extension is what
      follows the last '.', unless nothing precedes that '.'. */
  function SplitName(name: string): (r: (string, Option<string>))
    ensures r.1.None? ==> r.0 == name
    ensures r.1.Some? ==> r.0 + "." + r.1.value == name && |r.0| > 0 && '.' !in r.1.value
  {
    if name == ".." then (name, None)
    else match LastDot(name)
      case None => (name, None)
      case Some(i) =>
        if i == 0 then (name, None)
        else
          assert name[..i] + "." + name[i + 1..] == name by {
            assert name == name[..i] + [name[i]] + name[i + 1..];
          }
          (name[..i], Some(name[i + 1..]))
  }

  function Extension(path: string): Option<string> {
    match FileName(path)
    case None => None
    case Some(n) => SplitName(n).1
  }

  function FileStem(path: string): Option<string> {
    match FileName(path)
    case None => None
    case Some(n) => Some(SplitName(n).0)
  }

  /** `name` under `dir`; an absolute `name` replaces `dir`. */
  function PathJoin(dir: string, name: string): string {
    if |name| > 0 && name[0] == '/' then name
    else if |dir| == 0 || dir[|dir| - 1] == '/' then dir + name
    else dir + "/" + name
  }

  /** A path with a `.jsonl` extension has a final component that is a
      non-empty stem, a dot and `jsonl`. */
  lemma ExtensionShape(path: string, ext: string)
    requires Extension(path) == Some(ext)
    ensures FileName(path).Some? && FileStem(path).Some?
    ensures FileStem(path).value + "." + ext == FileName(path).value
    ensures |FileStem(path).value| > 0
  {
  }

  /** Joining a relative name to a directory that does not end in '/' puts
      exactly one '/' between them, and the name is the final component. */
  lemma JoinFileName(dir: string, name: string)
    requires |dir| > 0 && dir[|dir| - 1] != '/'
    requires |name| > 0 && '/' !in name && name != ".." && name != "."
    ensures PathJoin(dir, name) == dir + "/" + name
    ensures FileName(PathJoin(dir, name)) == Some(name)
  {
    var p := dir + "/" + name;
    assert name[0] != '/' by { assert name[0] in name; }
    assert TrimEnd(p, '/') == p by {
      assert p[|p| - 1] == name[|name| - 1];
      assert name[|name| - 1] in name;
    }
    if |name| == 1 {
      assert name[0] != '.' && p[|p| - 1] == name[0];
    }
    assert DropTrailingCurDirs(p) == p;
    AfterLastSuffix(dir, name);
  }

  lemma {:induction false} AfterLastSuffix(dir: string, name: string)
    requires '/' !in name
    ensures AfterLast(dir + "/" + name, '/') == name
    decreases |name|
  {
    var p := dir + "/" + name;
    if |name| == 0 {
      assert p[|p| - 1] == '/';
    } else {
      assert p[..|p| - 1] == dir + "/" + name[..|name| - 1];
      var init := name[..|name| - 1];
      assert '/' !in init by {
        forall j | 0 <= j < |init| ensures init[j] != '/' {
          assert init[j] == name[j] && name[j] in name;
        }
      }
      assert p[|p| - 1] == name[|name| - 1] && name[|name| - 1] in name;
      AfterLastSuffix(dir, name[..|name| - 1]);
      assert name[..|name| - 1] + [name[|name| - 1]] == name;
    }
  }

  /** `name` is a non-empty stem, a '.', and `ext`. */
  predicate HasExtension(name: string, ext: string) {
    |name| > |ext| + 1 && name[|name| - |ext|..] == ext && name[|name| - |ext| - 1] == '.'
  }

  lemma {:induction false} LastDotAt(name: string, i: nat)
    requires i < |name| && name[i] == '.'
    requires forall j :: i < j < |name| ==> name[j] != '.'
    ensures LastDot(name) == Some(i)
    decreases |name|
  {
    if i < |name| - 1 {
      LastDotAt(name[..|name| - 1], i);
    }
  }

  /** The suffix test agrees with the extension Rust's `Path::extension`
      reports, for any extension without a '.'. */
  lemma HasExtensionIff(name: string, ext: string)
    requires |ext| > 0 && '.' !in ext
    ensures HasExtension(name, ext) <==> SplitName(name).1 == Some(ext)
  {
    if HasExtension(name, ext) {
      var i := |name| - |ext| - 1;
      forall j | i < j < |name| ensures name[j] != '.' {
        assert name[j] == name[|name| - |ext|..][j - i - 1];
      }
      LastDotAt(name, i);
      assert name[i + 1..] == ext;
      assert name != "..";
    }
    if SplitName(name).1 == Some(ext) {
      var stem := SplitName(name).0;
      assert stem + "." + ext == name;
      assert name[|name| - |ext|..] == ext;
      assert name[|name| - |ext| - 1] == (stem + "." + ext)[|stem|];
    }
  }
}
