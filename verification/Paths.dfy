/**
  Paths as the component lists `Path::components()` yields, the two path rewriters of the resource
  code, and what `PathBuf::push`, `join` and `strip_prefix` do to component lists.
 */
module Paths {
  import opened Wrappers

  datatype Component = Prefix(disk: string) | RootDir | CurDir | ParentDir | Normal(name: string)

  type Path = seq<Component>

  /** The shape `components()` guarantees: a prefix first, then the root, `.` only in front. */
  predicate WellFormed(p: Path) {
    && (forall i :: 0 <= i < |p| && p[i].Prefix? ==> i == 0)
    && (forall i :: 0 <= i < |p| && (p[i].RootDir? || p[i].CurDir?) ==> i == 0 || (i == 1 && p[0].Prefix?))
  }

  /** Only ordinary names: no root, no prefix, no `.` and no `..`. */
  predicate Contained(p: Path) {
    forall i :: 0 <= i < |p| ==> p[i].Normal?
  }

  function Push(dest: Path, c: Component): Path {
    if c.RootDir? then [RootDir] else dest + [c]
  }

  function Join(dest: Path, p: Path): Path {
    if p != [] && p[0].RootDir? then p else dest + p
  }

  function StripPrefix(p: Path, prefix: Path): Option<Path> {
    if prefix <= p then Some(p[|prefix|..]) else None
  }

  function FileName(p: Path): Option<string> {
    if p != [] && p[|p| - 1].Normal? then Some(p[|p| - 1].name) else None
  }

  // ---- resource_relpath ----

  const ROOT_NAME := "_root_"
  const UP_NAME := "_up_"

  function RelComponent(c: Component): Path {
    match c
    case Prefix(_) => []
    case RootDir => [Normal(ROOT_NAME)]
    case CurDir => []
    case ParentDir => [Normal(UP_NAME)]
    case Normal(_) => [c]
  }

  function RelPath(p: Path): (r: Path)
    ensures Contained(r)
  {
    if p == [] then [] else RelComponent(p[0]) + RelPath(p[1..])
  }

  lemma {:induction false} RelPathConcat(p: Path, q: Path)
    ensures RelPath(p + q) == RelPath(p) + RelPath(q)
  {
    if p == [] {
      assert p + q == q;
    } else {
      assert (p + q)[1..] == p[1..] + q;
      RelPathConcat(p[1..], q);
    }
  }

  lemma {:induction false} RelPathOfNames(p: Path)
    requires Contained(p)
    ensures RelPath(p) == p
  {
    if p != [] {
      RelPathOfNames(p[1..]);
      assert p == [p[0]] + p[1..];
    }
  }

  method ResourceRelpath(path: Path) returns (dest: Path)
    ensures dest == RelPath(path)
  {
    dest := [];
    for i := 0 to |path|
      invariant dest == RelPath(path[..i])
    {
      match path[i] {
        case Prefix(_) =>
        case RootDir => dest := dest + [Normal(ROOT_NAME)];
        case CurDir =>
        case ParentDir => dest := dest + [Normal(UP_NAME)];
        case Normal(name) => dest := dest + [Normal(name)];
      }
      assert path[..i + 1] == path[..i] + [path[i]];
      RelPathConcat(path[..i], [path[i]]);
      assert RelPath([path[i]]) == RelComponent(path[i]) by { assert [path[i]][1..] == []; }
    }
    assert path[..|path|] == path;
  }

  /** Component by component: the root and `..` become ordinary names, names stay. */
  lemma {:induction false} RelPathAt(p: Path, i: nat)
    requires (forall k :: 0 <= k < |p| ==> !p[k].Prefix? && !p[k].CurDir?) && i < |p|
    ensures |RelPath(p)| == |p|
    ensures RelPath(p)[i] == match p[i]
                             case RootDir => Normal("_root_")
                             case ParentDir => Normal("_up_")
                             case _ => p[i]
  {
    if |p| == 1 {
      assert p[1..] == [];
    } else {
      RelPathAt(p[1..], if i > 0 then i - 1 else 0);
    }
  }

  /** Reads the two reserved names back. */
  function Unrel(p: Path): Path {
    if p == [] then [] else
      [if p[0] == Normal(ROOT_NAME) then RootDir else if p[0] == Normal(UP_NAME) then ParentDir else p[0]] + Unrel(p[1..])
  }

  predicate Reversible(p: Path) {
    forall i :: 0 <= i < |p| ==>
      !p[i].Prefix? && !p[i].CurDir? && p[i] != Normal(ROOT_NAME) && p[i] != Normal(UP_NAME)
  }

  /** A relative target tells its source path exactly when that path uses no prefix, `.` or reserved name. */
  lemma {:induction false} UnrelInvertsIff(p: Path)
    ensures Unrel(RelPath(p)) == p <==> Reversible(p)
    ensures |Unrel(RelPath(p))| <= |p|
  {
    if p != [] {
      var rest := p[1..];
      UnrelInvertsIff(rest);
      assert p == [p[0]] + rest;
      if p[0].Prefix? || p[0].CurDir? {
        assert RelPath(p) == RelPath(rest);
      } else {
        var c := RelComponent(p[0])[0];
        assert RelPath(p) == [c] + RelPath(rest);
        assert RelPath(p)[1..] == RelPath(rest);
        var d := if c == Normal(ROOT_NAME) then RootDir else if c == Normal(UP_NAME) then ParentDir else c;
        assert Unrel(RelPath(p)) == [d] + Unrel(RelPath(rest));
        assert forall q: Path :: ([d] + q)[1..] == q;
        if Unrel(RelPath(p)) == p { assert ([d] + Unrel(RelPath(rest)))[1..] == p[1..] && p[0] == d; }
        assert d == p[0] <==> p[0] != Normal(ROOT_NAME) && p[0] != Normal(UP_NAME);
        assert Reversible(p) <==> p[0] != Normal(ROOT_NAME) && p[0] != Normal(UP_NAME) && Reversible(rest) by {
          if Reversible(p) {
            assert forall i :: 0 <= i < |rest| ==> rest[i] == p[i + 1];
          }
        }
      }
    }
  }

  /** Hence distinct such paths get distinct relative targets. */
  lemma RelPathInjective(p: Path, q: Path)
    requires Reversible(p) && Reversible(q) && RelPath(p) == RelPath(q)
    ensures p == q
  {
    UnrelInvertsIff(p);
    UnrelInvertsIff(q);
  }

  // ---- normalize ----

  function NormalizeFrom(dest: Path, p: Path): Path
    decreases |p|
  {
    if p == [] then dest
    else NormalizeFrom(if p[0].Prefix? || p[0].CurDir? then dest else Push(dest, p[0]), p[1..])
  }

  function Normalize(p: Path): Path {
    NormalizeFrom([], p)
  }

  method NormalizePath(path: Path) returns (dest: Path)
    ensures dest == Normalize(path)
  {
    dest := [];
    var i := 0;
    while i < |path|
      invariant 0 <= i <= |path|
      invariant NormalizeFrom(dest, path[i..]) == Normalize(path)
    {
      var c := path[i];
      assert path[i..][0] == c && path[i..][1..] == path[i + 1..];
      match c {
        case Prefix(_) =>
        case CurDir =>
        case RootDir => dest := [RootDir];
        case ParentDir => dest := dest + [ParentDir];
        case Normal(name) => dest := dest + [Normal(name)];
      }
      i := i + 1;
    }
  }

  lemma {:induction false} NormalizeTail(dest: Path, p: Path)
    requires forall i :: 0 <= i < |p| ==> p[i].ParentDir? || p[i].Normal?
    ensures NormalizeFrom(dest, p) == dest + p
    decreases |p|
  {
    if p == [] {
      assert dest + p == dest;
    } else {
      NormalizeTail(dest + [p[0]], p[1..]);
      assert dest + [p[0]] + p[1..] == dest + p;
    }
  }

  /** Normalizing drops a leading prefix and a leading `.` and nothing else. */
  lemma NormalizeDrops(p: Path)
    requires WellFormed(p)
    ensures var k := if p != [] && p[0].Prefix? then 1 else 0;
            var j := if |p| > k && p[k].CurDir? then k + 1 else k;
            Normalize(p) == p[j..]
  {
    var k := if p != [] && p[0].Prefix? then 1 else 0;
    if k == 1 { assert NormalizeFrom([], p) == NormalizeFrom([], p[1..]); }
    var q := p[k..];
    if q == [] {
    } else if q[0].CurDir? {
      NormalizeTail([], q[1..]);
      assert [] + q[1..] == q[1..];
      assert q[1..] == p[k + 1..];
    } else if q[0].RootDir? {
      NormalizeTail([RootDir], q[1..]);
      assert [RootDir] + q[1..] == q;
    } else {
      NormalizeTail([], q);
      assert [] + q == q;
    }
  }

  /** Neither a prefix nor a leading `.`: the pattern text already is its normal form. */
  predicate Plain(p: Path) {
    p == [] || (!p[0].Prefix? && !p[0].CurDir?)
  }

  lemma PlainIsNormal(p: Path)
    requires WellFormed(p)
    ensures Plain(p) <==> Normalize(p) == p
    ensures Normalize(p) != [] ==> !Normalize(p)[0].Prefix? && !Normalize(p)[0].CurDir?
    ensures forall i :: 1 <= i < |Normalize(p)| ==> Normalize(p)[i].ParentDir? || Normalize(p)[i].Normal?
  {
    NormalizeDrops(p);
  }
}
