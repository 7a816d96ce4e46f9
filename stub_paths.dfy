/**
 * The slice of `pathlib.PurePosixPath` that turns a domain-model stub's
 * location into the dotted module it is imported from.
 */
module StubPaths {
  import opened Wrappers
  import opened Text

  /** A path: whether it starts at `/`, and its non-empty components, none holding a `/`. */
  datatype Path = Path(absolute: bool, parts: seq<string>)

  predicate ValidPath(p: Path) {
    forall k :: 0 <= k < |p.parts| ==> p.parts[k] != "" && '/' !in p.parts[k]
  }

  /** `name.rfind(c)`, with `|name|` standing for -1. */
  function LastIndexOf(s: string, c: char): (i: nat)
    ensures i <= |s|
    ensures i < |s| ==> s[i] == c && forall k :: i < k < |s| ==> s[k] != c
    ensures i == |s| ==> c !in s
  {
    if s == [] then 0
    else if s[|s| - 1] == c then |s| - 1
    else
      var j := LastIndexOf(s[..|s| - 1], c);
      if j == |s| - 1 then |s| else j
  }

  /** `PurePath.suffix`: from the last dot, unless that dot leads the name or ends it. */
  function Suffix(name: string): (r: string)
    ensures r == "" || (|r| <= |name| && r[0] == '.' && |r| >= 2 && r == name[|name| - |r|..])
  {
    var i := LastIndexOf(name, '.');
    if 0 < i < |name| - 1 then name[i..] else ""
  }

  /** A name with its suffix cut off. */
  function Stem(name: string): (r: string)
    ensures r + Suffix(name) == name
  {
    name[..|name| - |Suffix(name)|]
  }

  /** `p.relative_to(root)`; `None` is the `ValueError` of a path outside `root`. */
  function RelativeTo(p: Path, root: Path): (r: Option<Path>)
    ensures r.Some? <==> p.absolute == root.absolute && |root.parts| <= |p.parts| && p.parts[..|root.parts|] == root.parts
    ensures r.Some? ==> !r.value.absolute && root.parts + r.value.parts == p.parts
  {
    if p.absolute == root.absolute && |root.parts| <= |p.parts| && p.parts[..|root.parts|] == root.parts then
      assert root.parts + p.parts[|root.parts|..] == p.parts;
      Some(Path(false, p.parts[|root.parts|..]))
    else None
  }

  /** `p.with_suffix("")`; a path with an empty name (`.` or `/`) raises `ValueError`. */
  function WithoutSuffix(p: Path): (r: Result<Path, string>)
    ensures r.Failure? <==> p.parts == []
    ensures r.Success? ==> r.value.absolute == p.absolute && |r.value.parts| == |p.parts|
                           && r.value.parts[..|p.parts| - 1] == p.parts[..|p.parts| - 1]
                           && r.value.parts[|p.parts| - 1] + Suffix(p.parts[|p.parts| - 1]) == p.parts[|p.parts| - 1]
  {
    if p.parts == [] then Failure("has an empty name")
    else
      var n := |p.parts|;
      Success(Path(p.absolute, p.parts[..n - 1] + [Stem(p.parts[n - 1])]))
  }

  /** `p.as_posix()` */
  function AsPosix(p: Path): string {
    if p.absolute then "/" + Join(p.parts, "/")
    else if p.parts == [] then "."
    else Join(p.parts, "/")
  }

  /** `s.replace(a, b)` for single characters. */
  function ReplaceChar(s: string, a: char, b: char): (r: string)
    ensures |r| == |s|
    ensures forall k :: 0 <= k < |s| ==> r[k] == if s[k] == a then b else s[k]
  {
    if s == [] then [] else [if s[0] == a then b else s[0]] + ReplaceChar(s[1..], a, b)
  }

  lemma ReplaceCharAppend(s: string, t: string, a: char, b: char)
    ensures ReplaceChar(s + t, a, b) == ReplaceChar(s, a, b) + ReplaceChar(t, a, b)
  {
    var l := ReplaceChar(s + t, a, b);
    var r := ReplaceChar(s, a, b) + ReplaceChar(t, a, b);
    assert |l| == |r|;
    forall k | 0 <= k < |l| ensures l[k] == r[k] {
      if k < |s| {
        assert (s + t)[k] == s[k];
      } else {
        assert (s + t)[k] == t[k - |s|];
      }
    }
  }

  /** Replacing the separator of a join of separator-free parts is joining with the new separator. */
  lemma {:induction false} ReplaceJoin(parts: seq<string>, a: char, b: char)
    requires forall k :: 0 <= k < |parts| ==> a !in parts[k]
    ensures ReplaceChar(Join(parts, [a]), a, b) == Join(parts, [b])
  {
    if |parts| == 1 {
      assert ReplaceChar(parts[0], a, b) == parts[0];
    } else if |parts| > 1 {
      ReplaceJoin(parts[1..], a, b);
      ReplaceCharAppend(parts[0] + [a], Join(parts[1..], [a]), a, b);
      ReplaceCharAppend(parts[0], [a], a, b);
      assert ReplaceChar(parts[0], a, b) == parts[0];
      assert ReplaceChar([a], a, b) == [b];
    }
  }

  const DomainPackage: string := "nexosapi.domain."

  /**
   * `_module_path_for_stub(stub_path)`: `""` when no root is set; otherwise
   * the path relative to the root (or the path itself when it lies
   * outside), without its suffix, with `/` turned into `.`, behind
   * `nexosapi.domain.`. A stub equal to the root raises `ValueError`.
   */
  function ModulePathForStub(stub: Path, root: Option<Path>): (r: Result<string, string>)
    ensures root.None? ==> r == Success("")
    ensures root.Some? && r.Success? ==> StartsWith(r.value, DomainPackage)
    ensures root.Some? && RelativeTo(stub, root.value) == Some(Path(false, [])) ==> r.Failure?
  {
    if root.None? then Success("")
    else
      var relative := match RelativeTo(stub, root.value) case Some(q) => q case None => stub;
      match WithoutSuffix(relative)
      case Failure(e) => Failure(e)
      case Success(q) => Success(DomainPackage + ReplaceChar(AsPosix(q), '/', '.'))
  }

  /** A `<name>.pyi` file, with no dot in `name`, has the stem `name`. */
  lemma StemOfStubFile(name: string)
    requires name != "" && '.' !in name
    ensures Stem(name + ".pyi") == name
  {
    var file := name + ".pyi";
    assert file[|name|] == '.';
    forall k | |name| < k < |file| ensures file[k] != '.' {
      assert file[k] == ".pyi"[k - |name|];
    }
    forall k | 0 <= k < |name| ensures file[k] != '.' {
      assert file[k] == name[k];
    }
    var i := LastIndexOf(file, '.');
    assert i == |name|;
    assert file[|name|..] == ".pyi";
    assert file[..|name|] == name;
  }

  /** The stub's location relative to the root, without the suffix. */
  lemma ModuleFileOfNestedStub(root: Path, dirs: seq<string>, name: string)
    requires name != "" && '.' !in name
    ensures var stub := Path(root.absolute, root.parts + dirs + [name + ".pyi"]);
            RelativeTo(stub, root).Some?
            && WithoutSuffix(RelativeTo(stub, root).value) == Success(Path(false, dirs + [name]))
  {
    var stub := Path(root.absolute, root.parts + dirs + [name + ".pyi"]);
    assert stub.parts[..|root.parts|] == root.parts;
    var rel := RelativeTo(stub, root).value;
    assert rel.parts == dirs + [name + ".pyi"] by {
      assert root.parts + rel.parts == root.parts + (dirs + [name + ".pyi"]);
    }
    StemOfStubFile(name);
    assert rel.parts[..|rel.parts| - 1] == dirs;
  }

  /**
   * A stub `<root>/<dirs>/<name>.pyi` lives in module
   * `nexosapi.domain.<dirs>.<name>`, the directories joined by dots.
   */
  lemma ModulePathOfNestedStub(root: Path, dirs: seq<string>, name: string)
    requires ValidPath(Path(false, dirs))
    requires name != "" && '.' !in name && '/' !in name
    ensures ModulePathForStub(Path(root.absolute, root.parts + dirs + [name + ".pyi"]), Some(root))
            == Success(DomainPackage + Join(dirs + [name], "."))
  {
    ModuleFileOfNestedStub(root, dirs, name);
    var q := dirs + [name];
    forall k | 0 <= k < |q| ensures '/' !in q[k] {
      if k < |dirs| {
        assert q[k] == dirs[k];
      }
    }
    ReplaceJoin(q, '/', '.');
    assert AsPosix(Path(false, q)) == Join(q, "/");
  }
}
