/**
  Where resources end up: targets stay inside the resource directory, files of one walked directory
  do not collide, and the order in which patterns are visited cannot change what is bundled.
 */
module ResourceTargets {
  import opened Wrappers
  import opened Paths
  import opened Resources

  /** A walk of `p` finds `p` followed by ordinary names. */
  ghost predicate WalksDescend(w: World) {
    forall p, i :: p in w.walks && 0 <= i < |w.walks[p]| && w.walks[p][i].Found? ==> Below(p, w.walks[p][i].path)
  }

  predicate Below(p: Path, q: Path) {
    p <= q && Contained(q[|p|..])
  }

  // ---- what every yielded resource is called ----

  function LastOf(path: Path): Component
    requires path != []
  {
    path[|path| - 1]
  }

  /** A globbed file of a map pattern keeps its own name, directly below the destination. */
  lemma GlobTarget(pattern: Path, dest: Path, path: Path)
    requires FileName(path).Some?
    ensures Target(Globbing, pattern, Some(RelPath(dest)), path) == RelPath(dest) + [LastOf(path)]
  {
  }

  /** A single file lands exactly on a destination that is not empty, and keeps its name under an empty one. */
  lemma SingleTarget(pattern: Path, dest: Path, path: Path)
    requires FileName(path).Some?
    ensures Target(Single, pattern, Some(RelPath(dest)), path) == if RelPath(dest) != [] then RelPath(dest) else [LastOf(path)]
  {
  }

  /** Globbed files of different names get different targets. */
  lemma GlobTargetsDistinct(pattern: Path, dest: Path, a: Path, b: Path)
    requires FileName(a).Some? && FileName(b).Some? && LastOf(a) != LastOf(b)
    ensures Target(Globbing, pattern, Some(RelPath(dest)), a) != Target(Globbing, pattern, Some(RelPath(dest)), b)
  {
    GlobTarget(pattern, dest, a);
    GlobTarget(pattern, dest, b);
    PrefixCancel(RelPath(dest), [LastOf(a)], [LastOf(b)]);
  }

  /** The file a pattern entry stands for: it exists and is no directory. */
  predicate IsFile(w: World, path: Path) {
    w.Exists(path) && !w.IsDir(path)
  }

  /** The entries of a glob or a walk that lead to this file. */
  ghost predicate LeadsTo(es: seq<Entry>, path: Path) {
    exists i :: 0 <= i < |es| && es[i].Found? && Normalize(es[i].path) == path
  }

  /** The pattern finds the file, with this name below the bundle's resource directory. */
  ghost predicate Finds(w: World, allowWalk: bool, p: Pattern, path: Path, target: Path)
    requires w.Valid()
  {
    && path != [] && IsFile(w, path)
    && if '*' in p.text then
         && w.Glob(p.text).Matches? && LeadsTo(w.Glob(p.text).entries, path)
         && target == (if p.dest.Some? then RelPath(p.dest.value) + [LastOf(path)] else RelPath(path))
       else if !w.IsDir(Normalize(p.path)) then
         && path == Normalize(p.path)
         && target == (if p.dest.None? then RelPath(path)
                       else if RelPath(p.dest.value) != [] then RelPath(p.dest.value) else [LastOf(path)])
       else
         && allowWalk && LeadsTo(w.Walk(Normalize(p.path)), path)
         && target == (if p.dest.Some? then Target(Walking, p.path, RelDest(p), path) else RelPath(path))
  }

  lemma {:induction false} EntriesFind(w: World, mode: Mode, pattern: Path, dest: Option<Path>, es: seq<Entry>, path: Path, target: Path)
    requires w.Valid()
    ensures Resource(path, target) in EntriesItems(w, mode, pattern, dest, es) <==>
              IsFile(w, path) && LeadsTo(es, path) && target == Target(mode, pattern, dest, path)
  {
    if es != [] {
      var first, rest := EntryItems(w, mode, pattern, dest, es[0]), es[1..];
      EntriesFind(w, mode, pattern, dest, rest, path, target);
      assert LeadsTo(es, path) <==> (es[0].Found? && Normalize(es[0].path) == path) || LeadsTo(rest, path) by {
        LeadsToCons(es, path);
      }
      assert Resource(path, target) in first <==>
             es[0].Found? && Normalize(es[0].path) == path && IsFile(w, path) && target == Target(mode, pattern, dest, path);
    }
  }

  lemma LeadsToCons(es: seq<Entry>, path: Path)
    requires es != []
    ensures LeadsTo(es, path) <==> (es[0].Found? && Normalize(es[0].path) == path) || LeadsTo(es[1..], path)
  {
    if i :| 0 <= i < |es[1..]| && es[1..][i].Found? && Normalize(es[1..][i].path) == path { assert es[i + 1] == es[1..][i]; }
    if i :| 1 <= i < |es| && es[i].Found? && Normalize(es[i].path) == path { assert es[1..][i - 1] == es[i]; }
  }

  lemma FileHasName(w: World, path: Path)
    requires w.Valid() && IsFile(w, path)
    ensures FileName(path).Some? && path != []
  {
  }

  lemma PatternFinds(w: World, allowWalk: bool, p: Pattern, path: Path, target: Path)
    requires w.Valid()
    ensures Resource(path, target) in PatternItems(w, allowWalk, p) <==> Finds(w, allowWalk, p, path, target)
  {
    if IsFile(w, path) {
      FileHasName(w, path);
      if p.dest.Some? {
        GlobTarget(p.path, p.dest.value, path);
        SingleTarget(p.path, p.dest.value, path);
      }
    }
    var q := Normalize(p.path);
    if IsGlob(p) {
      var g := w.Glob(p.text);
      if g.Matches? { EntriesFind(w, Globbing, p.path, RelDest(p), g.entries, path, target); }
    } else if w.IsDir(q) {
      EntriesFind(w, Walking, p.path, RelDest(p), w.Walk(q), path, target);
    }
  }

  /** The one error a pattern has on its own, or the errors of its entries. */
  ghost predicate Fails(w: World, allowWalk: bool, p: Pattern, item: Item)
    requires w.Valid()
  {
    var q := Normalize(p.path);
    if '*' in p.text then
      match w.Glob(p.text)
      case BadPattern(code) => item == PatternError(code)
      case Matches(es) =>
        || (es == [] && item == GlobPathNotFound(p.text))
        || (item.GlobError? && Broken(item.code) in es)
        || (item.ResourcePathNotFound? && LeadsTo(es, item.missing) && !w.Exists(item.missing))
    else if !w.IsDir(q) then item == ResourcePathNotFound(q) && !w.Exists(q)
    else if !allowWalk then item == NotAllowedToWalkDir(q)
    else || (item.WalkError? && Broken(item.code) in w.Walk(q))
         || (item.ResourcePathNotFound? && LeadsTo(w.Walk(q), item.missing) && !w.Exists(item.missing))
  }

  lemma {:induction false} EntriesFail(w: World, mode: Mode, pattern: Path, dest: Option<Path>, es: seq<Entry>, item: Item)
    requires w.Valid() && !item.Resource? && !mode.Single?
    ensures item in EntriesItems(w, mode, pattern, dest, es) <==>
              || (mode.Globbing? && item.GlobError? && Broken(item.code) in es)
              || (mode.Walking? && item.WalkError? && Broken(item.code) in es)
              || (item.ResourcePathNotFound? && LeadsTo(es, item.missing) && !w.Exists(item.missing))
  {
    if es != [] {
      EntriesFail(w, mode, pattern, dest, es[1..], item);
      if item.ResourcePathNotFound? { LeadsToCons(es, item.missing); }
      assert forall e :: e in es <==> e == es[0] || e in es[1..];
    }
  }

  lemma PatternFails(w: World, allowWalk: bool, p: Pattern, item: Item)
    requires w.Valid() && !item.Resource?
    ensures item in PatternItems(w, allowWalk, p) <==> Fails(w, allowWalk, p, item)
  {
    var q := Normalize(p.path);
    if IsGlob(p) {
      var g := w.Glob(p.text);
      if g.Matches? { EntriesFail(w, Globbing, p.path, RelDest(p), g.entries, item); }
    } else if w.IsDir(q) {
      EntriesFail(w, Walking, p.path, RelDest(p), w.Walk(q), item);
    }
  }

  /** The errors yielded are exactly those of the patterns, apart from the `GlobPathNotFound` of a trailing directory-only glob. */
  lemma {:induction false} FlatFails(w: World, allowWalk: bool, ps: seq<Pattern>, item: Item)
    requires w.Valid() && !item.Resource? && !item.GlobPathNotFound?
    ensures item in Flat(w, allowWalk, ps) <==> exists i :: 0 <= i < |ps| && Fails(w, allowWalk, ps[i], item)
  {
    if ps != [] {
      FlatFails(w, allowWalk, ps[1..], item);
      PatternFails(w, allowWalk, ps[0], item);
      assert item in Flat(w, allowWalk, ps) <==> item in PatternItems(w, allowWalk, ps[0]) || item in Flat(w, allowWalk, ps[1..]);
      if i :| 0 <= i < |ps[1..]| && Fails(w, allowWalk, ps[1..][i], item) { assert ps[i + 1] == ps[1..][i]; }
      if i :| 1 <= i < |ps| && Fails(w, allowWalk, ps[i], item) { assert ps[1..][i - 1] == ps[i]; }
    }
  }

  /**
    The resources the iterator yields are exactly the files its patterns find, under exactly these names:
    nothing found is left out, and nothing else is yielded.
   */
  lemma {:induction false} FlatFinds(w: World, allowWalk: bool, ps: seq<Pattern>, path: Path, target: Path)
    requires w.Valid()
    ensures Resource(path, target) in Flat(w, allowWalk, ps) <==> exists i :: 0 <= i < |ps| && Finds(w, allowWalk, ps[i], path, target)
  {
    if ps != [] {
      FlatFinds(w, allowWalk, ps[1..], path, target);
      PatternFinds(w, allowWalk, ps[0], path, target);
      assert Resource(path, target) in Flat(w, allowWalk, ps) <==>
             Resource(path, target) in PatternItems(w, allowWalk, ps[0]) || Resource(path, target) in Flat(w, allowWalk, ps[1..]);
      if i :| 0 <= i < |ps[1..]| && Finds(w, allowWalk, ps[1..][i], path, target) { assert ps[i + 1] == ps[1..][i]; }
      if i :| 1 <= i < |ps| && Finds(w, allowWalk, ps[i], path, target) { assert ps[1..][i - 1] == ps[i]; }
    }
  }

  // ---- containment ----

  /** Outside a walk, every target is made of ordinary names only. */
  lemma FlatTargetsContained(mode: Mode, pattern: Path, dest: Option<Path>, path: Path)
    requires FileName(path).Some? && !mode.Walking?
    ensures Contained(Target(mode, pattern, if dest.Some? then Some(RelPath(dest.value)) else None, path))
  {
  }

  /** What a walked file of a map pattern is called below the destination. */
  lemma WalkTarget(pattern: Path, dest: Path, path: Path)
    requires WellFormed(pattern) && FileName(path).Some? && Below(Normalize(pattern), path)
    ensures Target(Walking, pattern, Some(dest), path) ==
              if Plain(pattern) then dest + path[|Normalize(pattern)|..]
              else if path[0].RootDir? then path else dest + path
  {
    PlainIsNormal(pattern);
    var q := Normalize(pattern);
    if Plain(pattern) {
      var rest := path[|pattern|..];
      assert rest != [] ==> rest[0].Normal?;
    } else {
      assert path != [] ==> path[0] == if q != [] then q[0] else path[|q|..][0];
      assert path != [] ==> !path[0].Prefix? && !path[0].CurDir?;
    }
  }

  /**
    For a walked directory of a map pattern the target stays inside the resource directory exactly if
    the pattern has no prefix and no leading `.`, or names a directory below the current one anyway.
   */
  lemma WalkTargetContainedIff(pattern: Path, dest: Path, path: Path)
    requires WellFormed(pattern) && FileName(path).Some? && Below(Normalize(pattern), path)
    ensures Contained(Target(Walking, pattern, Some(RelPath(dest)), path)) <==> Plain(pattern) || Contained(Normalize(pattern))
  {
    var d, q := RelPath(dest), Normalize(pattern);
    PlainIsNormal(pattern);
    WalkTarget(pattern, d, path);
    var rest := path[|q|..];
    assert path == q + rest;
    if Plain(pattern) {
      assert Contained(d + rest);
    } else if q != [] && q[0].RootDir? {
      assert path[0].RootDir? && !Contained(path);
    } else {
      assert path == [] || !path[0].RootDir?;
      var t := d + path;
      if Contained(q) {
        assert Contained(t);
      } else {
        var i :| 0 <= i < |q| && !q[i].Normal?;
        assert t[|d| + i] == q[i];
      }
    }
  }

  /** Every resource of a list pattern, and of a map pattern that is plain, stays inside. */
  lemma {:induction false} EntriesContained(w: World, p: Pattern, mode: Mode, root: Path, es: seq<Entry>, k: nat)
    requires w.Valid() && WellFormed(p.path) && (p.dest.None? || Plain(p.path) || !mode.Walking?)
    requires mode.Walking? ==> root == Normalize(p.path)
    requires mode.Walking? ==> forall i :: 0 <= i < |es| && es[i].Found? ==> WellFormed(es[i].path) && Below(root, es[i].path)
    requires var items := EntriesItems(w, mode, p.path, RelDest(p), es); k < |items| && items[k].Resource?
    ensures Contained(EntriesItems(w, mode, p.path, RelDest(p), es)[k].target)
  {
    var first := EntryItems(w, mode, p.path, RelDest(p), es[0]);
    if k < |first| {
      var q := Normalize(es[0].path);
      if p.dest.None? {
      } else if mode.Walking? {
        PlainIsNormal(p.path);
        WalkedIsNormal(root, es[0].path);
        WalkTargetContainedIff(p.path, p.dest.value, q);
      } else {
        FlatTargetsContained(mode, p.path, p.dest, q);
      }
    } else {
      EntriesContained(w, p, mode, root, es[1..], k - |first|);
    }
  }

  /** Below a normal root the walk delivers normal paths. */
  lemma WalkedIsNormal(root: Path, path: Path)
    requires WellFormed(path) && Below(root, path)
    requires root == [] || (!root[0].Prefix? && !root[0].CurDir?)
    ensures Normalize(path) == path
  {
    PlainIsNormal(path);
    if root == [] && path != [] { assert path[|root|..][0] == path[0]; }
  }

  ghost predicate Safe(p: Pattern) {
    WellFormed(p.path) && (p.dest.None? || Plain(p.path))
  }

  ghost predicate WalksWellFormed(w: World) {
    forall p, i :: p in w.walks && 0 <= i < |w.walks[p]| && w.walks[p][i].Found? ==> WellFormed(w.walks[p][i].path)
  }

  lemma PatternContained(w: World, allowWalk: bool, p: Pattern, k: nat)
    requires w.Valid() && WalksDescend(w) && WalksWellFormed(w) && Safe(p)
    requires k < |PatternItems(w, allowWalk, p)| && PatternItems(w, allowWalk, p)[k].Resource?
    ensures Contained(PatternItems(w, allowWalk, p)[k].target)
  {
    var q := Normalize(p.path);
    PlainIsNormal(p.path);
    if IsGlob(p) {
      EntriesContained(w, p, Globbing, [], w.Glob(p.text).entries, k);
    } else if w.IsDir(q) {
      EntriesContained(w, p, Walking, q, w.Walk(q), k);
    } else {
      if p.dest.Some? { FlatTargetsContained(Single, p.path, p.dest, q); }
    }
  }

  /** Nothing the iterator yields for safe patterns escapes the resource directory. */
  lemma {:induction false} AllTargetsContained(w: World, allowWalk: bool, ps: seq<Pattern>, k: nat)
    requires w.Valid() && WalksDescend(w) && WalksWellFormed(w)
    requires forall i :: 0 <= i < |ps| ==> Safe(ps[i])
    requires k < |Flat(w, allowWalk, ps)| && Flat(w, allowWalk, ps)[k].Resource?
    ensures Contained(Flat(w, allowWalk, ps)[k].target)
  {
    var here, rest := PatternItems(w, allowWalk, ps[0]), Flat(w, allowWalk, ps[1..]);
    if DirOnly(w, ps[0]) && rest == [] {
    } else if k < |here| {
      PatternContained(w, allowWalk, ps[0], k);
    } else {
      AllTargetsContained(w, allowWalk, ps[1..], k - |here|);
    }
  }

  /** A map pattern that starts with `.` and climbs does escape. */
  lemma DotPatternEscapes()
    ensures var pattern := [CurDir, ParentDir, Normal("assets")];
            var file := [ParentDir, Normal("assets"), Normal("a.txt")];
            Target(Walking, pattern, Some([Normal("res")]), file)
              == [Normal("res"), ParentDir, Normal("assets"), Normal("a.txt")]
  {
    var pattern := [CurDir, ParentDir, Normal("assets")];
    var file := [ParentDir, Normal("assets"), Normal("a.txt")];
    assert pattern[0] != file[0];
    assert StripPrefix(file, pattern) == None;
  }

  // ---- no collisions inside one walked directory ----

  lemma ListTargetsDistinct(q: Path, a: Path, b: Path)
    requires Below(q, a) && Below(q, b) && a != b
    ensures RelPath(a) != RelPath(b)
  {
    var x, y := a[|q|..], b[|q|..];
    assert a == q + x && b == q + y;
    RelPathConcat(q, x);
    RelPathConcat(q, y);
    RelPathOfNames(x);
    RelPathOfNames(y);
    PrefixCancel(RelPath(q), x, y);
  }

  lemma MapTargetsDistinct(pattern: Path, d: Path, a: Path, b: Path)
    requires WellFormed(pattern) && FileName(a).Some? && FileName(b).Some? && a != b
    requires Below(Normalize(pattern), a) && Below(Normalize(pattern), b)
    ensures Target(Walking, pattern, Some(d), a) != Target(Walking, pattern, Some(d), b)
  {
    var q := Normalize(pattern);
    var x, y := a[|q|..], b[|q|..];
    assert a == q + x && b == q + y;
    WalkTarget(pattern, d, a);
    WalkTarget(pattern, d, b);
    if Plain(pattern) {
      PrefixCancel(d, x, y);
    } else {
      PrefixCancel(d, a, b);
      SameRoot(q, x, y);
    }
  }

  /** Two names below one directory are both rooted or both not. */
  lemma SameRoot(q: Path, x: Path, y: Path)
    requires Contained(x) && Contained(y)
    ensures (q + x != [] && (q + x)[0].RootDir?) <==> (q + y != [] && (q + y)[0].RootDir?)
  {
    if q == [] {
      assert q + x == x && q + y == y;
    }
  }

  /** Two different files of one walk get different targets, for list and map patterns alike. */
  lemma WalkTargetsDistinct(p: Pattern, a: Path, b: Path)
    requires WellFormed(p.path) && FileName(a).Some? && FileName(b).Some? && a != b
    requires Below(Normalize(p.path), a) && Below(Normalize(p.path), b)
    ensures Target(Walking, p.path, RelDest(p), a) != Target(Walking, p.path, RelDest(p), b)
  {
    match p.dest
    case None => ListTargetsDistinct(Normalize(p.path), a, b);
    case Some(dest) => MapTargetsDistinct(p.path, RelPath(dest), a, b);
  }

  lemma PrefixCancel(d: Path, x: Path, y: Path)
    requires x != y
    ensures d + x != d + y
  {
    assert (d + x)[|d|..] == x && (d + y)[|d|..] == y;
  }

  // ---- the order of patterns ----

  function Bundled(items: seq<Item>): seq<Item> {
    if items == [] then []
    else Kept(items[0]) + Bundled(items[1..])
  }

  function Kept(item: Item): seq<Item> {
    if item.Resource? then [item] else []
  }

  lemma {:induction false} BundledConcat(a: seq<Item>, b: seq<Item>)
    ensures Bundled(a + b) == Bundled(a) + Bundled(b)
  {
    if a == [] {
      assert a + b == b;
    } else {
      assert (a + b)[0] == a[0] && (a + b)[1..] == a[1..] + b;
      BundledConcat(a[1..], b);
      var here, tail, rest := Kept(a[0]), Bundled(a[1..]), Bundled(b);
      assert here + (tail + rest) == here + tail + rest;
    }
  }

  lemma {:induction false} FlatBundled(w: World, allowWalk: bool, ps: seq<Pattern>)
    requires w.Valid()
    ensures Bundled(Flat(w, allowWalk, ps)) == Bundled(Simple(w, allowWalk, ps))
  {
    if ps != [] {
      FlatBundled(w, allowWalk, ps[1..]);
      var here := PatternItems(w, allowWalk, ps[0]);
      BundledConcat(here, Flat(w, allowWalk, ps[1..]));
      BundledConcat(here, Simple(w, allowWalk, ps[1..]));
      if DirOnly(w, ps[0]) && Flat(w, allowWalk, ps[1..]) == [] {
        assert [GlobPathNotFound(ps[0].text)][1..] == [];
      }
    }
  }

  ghost function Bundle(w: World, allowWalk: bool, ps: seq<Pattern>): multiset<Item>
    requires w.Valid()
  {
    if ps == [] then multiset{}
    else Share(w, allowWalk, ps[0]) + Bundle(w, allowWalk, ps[1..])
  }

  lemma {:induction false} BundleIsSimple(w: World, allowWalk: bool, ps: seq<Pattern>)
    requires w.Valid()
    ensures multiset(Bundled(Simple(w, allowWalk, ps))) == Bundle(w, allowWalk, ps)
  {
    if ps != [] {
      BundleIsSimple(w, allowWalk, ps[1..]);
      BundledConcat(PatternItems(w, allowWalk, ps[0]), Simple(w, allowWalk, ps[1..]));
    }
  }

  ghost function Share(w: World, allowWalk: bool, p: Pattern): multiset<Item>
    requires w.Valid()
  {
    multiset(Bundled(PatternItems(w, allowWalk, p)))
  }

  lemma {:induction false} BundleConcat(w: World, allowWalk: bool, ps: seq<Pattern>, qs: seq<Pattern>)
    requires w.Valid()
    ensures Bundle(w, allowWalk, ps + qs) == Bundle(w, allowWalk, ps) + Bundle(w, allowWalk, qs)
  {
    if ps == [] {
      assert ps + qs == qs;
    } else {
      assert (ps + qs)[0] == ps[0] && (ps + qs)[1..] == ps[1..] + qs;
      BundleConcat(w, allowWalk, ps[1..], qs);
    }
  }

  lemma BundleRemove(w: World, allowWalk: bool, ps: seq<Pattern>, k: nat)
    requires w.Valid() && k < |ps|
    ensures Bundle(w, allowWalk, ps) == Share(w, allowWalk, ps[k]) + Bundle(w, allowWalk, ps[..k] + ps[k + 1..])
  {
    var before, after := ps[..k], ps[k..];
    assert ps == before + after && after[0] == ps[k] && after[1..] == ps[k + 1..];
    BundleConcat(w, allowWalk, before, after);
    BundleConcat(w, allowWalk, before, after[1..]);
  }

  /**
    The resources yielded do not depend on the order of the patterns (a map is visited in no fixed
    order); by the location of the quirk, only one trailing error can come and go.
   */
  lemma {:induction false} OrderDoesNotMatter(w: World, allowWalk: bool, ps: seq<Pattern>, qs: seq<Pattern>)
    requires w.Valid() && multiset(ps) == multiset(qs)
    ensures multiset(Bundled(Flat(w, allowWalk, ps))) == multiset(Bundled(Flat(w, allowWalk, qs)))
  {
    FlatBundled(w, allowWalk, ps);
    FlatBundled(w, allowWalk, qs);
    BundleIsSimple(w, allowWalk, ps);
    BundleIsSimple(w, allowWalk, qs);
    BundleOrder(w, allowWalk, ps, qs);
  }

  lemma SplitsOff(ps: seq<Pattern>, k: nat)
    requires k < |ps|
    ensures multiset(ps) == multiset(ps[..k] + ps[k + 1..]) + multiset{ps[k]}
  {
    assert ps == ps[..k] + [ps[k]] + ps[k + 1..];
  }

  lemma CancelOne(a: multiset<Pattern>, b: multiset<Pattern>, p: Pattern)
    requires a + multiset{p} == b + multiset{p}
    ensures a == b
  {
    assert a == (a + multiset{p}) - multiset{p};
    assert b == (b + multiset{p}) - multiset{p};
  }

  lemma SameWithout(ps: seq<Pattern>, qs: seq<Pattern>, k: nat)
    requires multiset(ps) == multiset(qs) && ps != [] && k < |qs| && qs[k] == ps[0]
    ensures multiset(ps[1..]) == multiset(qs[..k] + qs[k + 1..])
  {
    SplitsOff(qs, k);
    assert ps == [ps[0]] + ps[1..];
    CancelOne(multiset(ps[1..]), multiset(qs[..k] + qs[k + 1..]), ps[0]);
  }

  lemma {:induction false} BundleOrder(w: World, allowWalk: bool, ps: seq<Pattern>, qs: seq<Pattern>)
    requires w.Valid() && multiset(ps) == multiset(qs)
    ensures Bundle(w, allowWalk, ps) == Bundle(w, allowWalk, qs)
    decreases |ps|
  {
    if ps == [] {
      assert |multiset(qs)| == |multiset(ps)| == 0;
    } else {
      assert ps[0] in multiset(qs);
      var k :| 0 <= k < |qs| && qs[k] == ps[0];
      var shorter := qs[..k] + qs[k + 1..];
      SameWithout(ps, qs, k);
      BundleOrder(w, allowWalk, ps[1..], shorter);
      BundleRemove(w, allowWalk, qs, k);
    }
  }
}
