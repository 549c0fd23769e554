/**
  `ResourcePathsIter`: a stateful iterator over patterns, glob matches and directory walks, proved to
  yield exactly a flat specification; and where the resources it yields are bundled to.
 */
module Resources {
  import opened Wrappers
  import opened Paths

  // ---- the file system, as the iterator can observe it ----

  datatype Entry = Found(path: Path) | Broken(code: nat)

  datatype GlobResult = Matches(entries: seq<Entry>) | BadPattern(code: nat)

  datatype World = World(
    dirs: set<Path>,
    files: set<Path>,
    walks: map<Path, seq<Entry>>,
    globs: map<string, GlobResult>)
  {
    predicate IsDir(p: Path) { p in dirs }

    predicate Exists(p: Path) { p in dirs || p in files }

    /** What a directory walk of `p` delivers, the directory itself first. */
    function Walk(p: Path): seq<Entry> { if p in walks then walks[p] else [] }

    function Glob(text: string): GlobResult { if text in globs then globs[text] else Matches([]) }

    /** Whatever exists and is no directory has a file name. */
    ghost predicate Valid() {
      forall p :: p in files && p !in dirs ==> FileName(p).Some?
    }
  }

  /** A pattern text with its components; `dest` is present for map patterns only. */
  datatype Pattern = Pattern(text: string, path: Path, dest: Option<Path>)

  datatype Item =
    | Resource(path: Path, target: Path)
    | ResourcePathNotFound(missing: Path)
    | NotAllowedToWalkDir(dir: Path)
    | GlobPathNotFound(text: string)
    | WalkError(code: nat)
    | GlobError(code: nat)
    | PatternError(code: nat)

  datatype Mode = Single | Globbing | Walking

  // ---- resource_from_path ----

  function Target(mode: Mode, pattern: Path, dest: Option<Path>, path: Path): Path
    requires FileName(path).Some?
  {
    match dest
    case None => RelPath(path)
    case Some(d) =>
      if mode.Walking? then
        var rest := StripPrefix(path, pattern);
        Join(d, if rest.Some? then rest.value else path)
      else if d == [] then [Normal(FileName(path).value)]
      else if mode.Globbing? then Join(d, [Normal(FileName(path).value)])
      else d
  }

  function FileItem(w: World, mode: Mode, pattern: Path, dest: Option<Path>, path: Path): Item
    requires w.Valid() && !w.IsDir(path)
  {
    if !w.Exists(path) then ResourcePathNotFound(path)
    else Resource(path, Target(mode, pattern, dest, path))
  }

  // ---- the flat specification ----

  function EntryItems(w: World, mode: Mode, pattern: Path, dest: Option<Path>, e: Entry): seq<Item>
    requires w.Valid()
  {
    match e
    case Broken(code) => [if mode.Walking? then WalkError(code) else GlobError(code)]
    case Found(p) =>
      var q := Normalize(p);
      if w.IsDir(q) then [] else [FileItem(w, mode, pattern, dest, q)]
  }

  function EntriesItems(w: World, mode: Mode, pattern: Path, dest: Option<Path>, es: seq<Entry>): seq<Item>
    requires w.Valid()
  {
    if es == [] then [] else EntryItems(w, mode, pattern, dest, es[0]) + EntriesItems(w, mode, pattern, dest, es[1..])
  }

  function RelDest(p: Pattern): Option<Path> {
    if p.dest.Some? then Some(RelPath(p.dest.value)) else None
  }

  predicate IsGlob(p: Pattern) { '*' in p.text }

  function PathItems(w: World, allowWalk: bool, pattern: Path, dest: Option<Path>, q: Path): seq<Item>
    requires w.Valid()
  {
    if !w.IsDir(q) then [FileItem(w, Single, pattern, dest, q)]
    else if !allowWalk then [NotAllowedToWalkDir(q)]
    else EntriesItems(w, Walking, pattern, dest, w.Walk(q))
  }

  /** What one pattern contributes on its own: one error, one resource, or all non-directory entries in order. */
  function PatternItems(w: World, allowWalk: bool, p: Pattern): seq<Item>
    requires w.Valid()
  {
    if !IsGlob(p) then PathItems(w, allowWalk, p.path, RelDest(p), Normalize(p.path))
    else match w.Glob(p.text)
      case BadPattern(code) => [PatternError(code)]
      case Matches(es) =>
        if es == [] then [GlobPathNotFound(p.text)] else EntriesItems(w, Globbing, p.path, RelDest(p), es)
  }

  /** A glob that matches something, but only directories. */
  predicate DirOnly(w: World, p: Pattern)
    requires w.Valid()
  {
    && IsGlob(p)
    && var g := w.Glob(p.text);
       g.Matches? && g.entries != [] && EntriesItems(w, Globbing, p.path, RelDest(p), g.entries) == []
  }

  /** The items still to come from a list of patterns, as the nested calls of the iterator produce them. */
  function Flat(w: World, allowWalk: bool, ps: seq<Pattern>): seq<Item>
    requires w.Valid()
  {
    if ps == [] then [] else
      var rest := Flat(w, allowWalk, ps[1..]);
      if DirOnly(w, ps[0]) && rest == [] then [GlobPathNotFound(ps[0].text)]
      else PatternItems(w, allowWalk, ps[0]) + rest
  }

  // ---- the quirk, located ----

  function Simple(w: World, allowWalk: bool, ps: seq<Pattern>): seq<Item>
    requires w.Valid()
  {
    if ps == [] then [] else PatternItems(w, allowWalk, ps[0]) + Simple(w, allowWalk, ps[1..])
  }

  /** Pattern `i` is the last directory-only glob and nothing after it yields anything. */
  ghost predicate Trailing(w: World, allowWalk: bool, ps: seq<Pattern>, i: nat)
    requires w.Valid() && i < |ps|
  {
    && DirOnly(w, ps[i])
    && (forall j :: i < j < |ps| ==> !DirOnly(w, ps[j]))
    && Simple(w, allowWalk, ps[i + 1..]) == []
  }

  /** What `Trailing` adds to the plain concatenation. */
  ghost predicate Quirk(w: World, allowWalk: bool, ps: seq<Pattern>)
    requires w.Valid()
  {
    && ((forall i :: 0 <= i < |ps| ==> !Trailing(w, allowWalk, ps, i)) ==>
          Flat(w, allowWalk, ps) == Simple(w, allowWalk, ps))
    && (forall i :: 0 <= i < |ps| && Trailing(w, allowWalk, ps, i) ==>
          Flat(w, allowWalk, ps) == Simple(w, allowWalk, ps) + [GlobPathNotFound(ps[i].text)])
  }

  lemma TrailingShift(w: World, allowWalk: bool, ps: seq<Pattern>, i: nat)
    requires w.Valid() && 1 <= i < |ps|
    ensures Trailing(w, allowWalk, ps, i) <==> Trailing(w, allowWalk, ps[1..], i - 1)
  {
    var rest := ps[1..];
    assert ps[i + 1..] == rest[i..];
    if Trailing(w, allowWalk, ps, i) {
      assert forall j :: i - 1 < j < |rest| ==> rest[j] == ps[j + 1];
    }
    if Trailing(w, allowWalk, rest, i - 1) {
      assert forall j :: i < j < |ps| ==> ps[j] == rest[j - 1];
    }
  }

  /** A glob that trails in the rest trails in the whole, and it is the only one that does. */
  lemma TrailingLater(w: World, allowWalk: bool, ps: seq<Pattern>, j: nat)
    requires w.Valid() && j + 1 < |ps| && Trailing(w, allowWalk, ps[1..], j)
    ensures Trailing(w, allowWalk, ps, j + 1)
    ensures forall i :: 0 <= i < |ps| && Trailing(w, allowWalk, ps, i) ==> i == j + 1
  {
    TrailingShift(w, allowWalk, ps, j + 1);
  }

  lemma Append3(a: seq<Item>, b: seq<Item>, c: seq<Item>)
    ensures a + (b + c) == a + b + c
  {
  }

  /** Something follows, so the first pattern adds just its own items. */
  lemma FlatLater(w: World, allowWalk: bool, ps: seq<Pattern>, extra: Item)
    requires w.Valid() && ps != [] && Flat(w, allowWalk, ps[1..]) == Simple(w, allowWalk, ps[1..]) + [extra]
    ensures Flat(w, allowWalk, ps) == Simple(w, allowWalk, ps) + [extra]
  {
    Append3(PatternItems(w, allowWalk, ps[0]), Simple(w, allowWalk, ps[1..]), [extra]);
  }

  lemma QuirkLater(w: World, allowWalk: bool, ps: seq<Pattern>, j: nat)
    requires w.Valid() && j + 1 < |ps| && Trailing(w, allowWalk, ps[1..], j) && Quirk(w, allowWalk, ps[1..])
    ensures Quirk(w, allowWalk, ps)
  {
    TrailingLater(w, allowWalk, ps, j);
    assert ps[1..][j] == ps[j + 1];
    FlatLater(w, allowWalk, ps, GlobPathNotFound(ps[j + 1].text));
  }

  lemma QuirkHere(w: World, allowWalk: bool, ps: seq<Pattern>)
    requires w.Valid() && ps != [] && Quirk(w, allowWalk, ps[1..])
    requires forall j :: 0 <= j < |ps[1..]| ==> !Trailing(w, allowWalk, ps[1..], j)
    ensures Quirk(w, allowWalk, ps)
  {
    var rest := ps[1..];
    forall i | 1 <= i < |ps| ensures !Trailing(w, allowWalk, ps, i) { TrailingShift(w, allowWalk, ps, i); }
    if DirOnly(w, ps[0]) && Simple(w, allowWalk, rest) == [] {
      NoLaterDirOnly(w, allowWalk, rest);
      assert forall k :: 0 < k < |ps| ==> ps[k] == rest[k - 1];
      assert Trailing(w, allowWalk, ps, 0);
    }
  }

  /**
    The iterator yields the plain concatenation, except that exactly when some directory-only glob is
    followed by nothing at all it appends one `GlobPathNotFound` for the last such glob.
   */
  lemma {:induction false} FlatIsSimplePlusQuirk(w: World, allowWalk: bool, ps: seq<Pattern>)
    requires w.Valid()
    ensures (forall i :: 0 <= i < |ps| ==> !Trailing(w, allowWalk, ps, i)) ==>
              Flat(w, allowWalk, ps) == Simple(w, allowWalk, ps)
    ensures forall i :: 0 <= i < |ps| && Trailing(w, allowWalk, ps, i) ==>
              Flat(w, allowWalk, ps) == Simple(w, allowWalk, ps) + [GlobPathNotFound(ps[i].text)]
  {
    if ps != [] {
      FlatIsSimplePlusQuirk(w, allowWalk, ps[1..]);
      assert Quirk(w, allowWalk, ps[1..]);
      if j :| 0 <= j < |ps[1..]| && Trailing(w, allowWalk, ps[1..], j) {
        QuirkLater(w, allowWalk, ps, j);
      } else {
        QuirkHere(w, allowWalk, ps);
      }
    }
  }

  const DEMO_DIR: Path := [Normal("img")]

  /** A file system with one directory `img` and one file `a.txt`. */
  const DEMO_WORLD: World :=
    World({DEMO_DIR}, {[Normal("a.txt")]}, map[], map["im*" := Matches([Found(DEMO_DIR)])])

  const DEMO_GLOB: Pattern := Pattern("im*", [Normal("im*")], None)

  const DEMO_FILE: Pattern := Pattern("a.txt", [Normal("a.txt")], None)

  lemma DemoItems()
    ensures DEMO_WORLD.Valid() && DirOnly(DEMO_WORLD, DEMO_GLOB) && !IsGlob(DEMO_FILE)
    ensures PatternItems(DEMO_WORLD, true, DEMO_GLOB) == []
    ensures PatternItems(DEMO_WORLD, true, DEMO_FILE) == [Resource([Normal("a.txt")], [Normal("a.txt")])]
  {
    var file := [Normal("a.txt")];
    assert WellFormed(DEMO_DIR) && WellFormed(file);
    NormalizeDrops(DEMO_DIR);
    NormalizeDrops(file);
    RelPathOfNames(file);
    assert DEMO_DIR[0..] == DEMO_DIR && file[0..] == file && [Found(DEMO_DIR)][1..] == [];
    assert DEMO_GLOB.text[2] == '*';
    assert DEMO_DIR != file by { assert DEMO_DIR[0] != file[0]; }
  }

  /** The same two patterns in two orders: with the directory-only glob last an error appears. */
  lemma TrailingGlobErrs()
    ensures DEMO_WORLD.Valid() && Trailing(DEMO_WORLD, true, [DEMO_FILE, DEMO_GLOB], 1)
    ensures Flat(DEMO_WORLD, true, [DEMO_FILE, DEMO_GLOB])
            == PatternItems(DEMO_WORLD, true, DEMO_FILE) + [GlobPathNotFound("im*")]
    ensures Flat(DEMO_WORLD, true, [DEMO_GLOB, DEMO_FILE]) == PatternItems(DEMO_WORLD, true, DEMO_FILE)
  {
    DemoItems();
    var a, b := [DEMO_FILE, DEMO_GLOB], [DEMO_GLOB, DEMO_FILE];
    assert a[1..] == [DEMO_GLOB] && a[2..] == [] && b[1..] == [DEMO_FILE];
    assert [DEMO_GLOB][1..] == [] && [DEMO_FILE][1..] == [];
    assert Flat(DEMO_WORLD, true, []) == [] && Simple(DEMO_WORLD, true, []) == [];
    assert Flat(DEMO_WORLD, true, [DEMO_GLOB]) == [GlobPathNotFound("im*")];
    assert Flat(DEMO_WORLD, true, [DEMO_FILE]) == PatternItems(DEMO_WORLD, true, DEMO_FILE);
  }

  /** If nothing is yielded and no glob trails, there is no directory-only glob at all. */
  lemma {:induction false} NoLaterDirOnly(w: World, allowWalk: bool, ps: seq<Pattern>)
    requires w.Valid() && Simple(w, allowWalk, ps) == []
    requires forall i :: 0 <= i < |ps| ==> !Trailing(w, allowWalk, ps, i)
    ensures forall i :: 0 <= i < |ps| ==> !DirOnly(w, ps[i])
  {
    if i :| 0 <= i < |ps| && DirOnly(w, ps[i]) {
      LastDirOnly(w, allowWalk, ps, i);
    }
  }

  lemma {:induction false} LastDirOnly(w: World, allowWalk: bool, ps: seq<Pattern>, i: nat)
    requires w.Valid() && Simple(w, allowWalk, ps) == [] && i < |ps| && DirOnly(w, ps[i])
    ensures exists j :: 0 <= j < |ps| && Trailing(w, allowWalk, ps, j)
    decreases |ps| - i
  {
    if j :| i < j < |ps| && DirOnly(w, ps[j]) {
      LastDirOnly(w, allowWalk, ps, j);
    } else {
      SimpleSuffix(w, allowWalk, ps, i + 1);
      assert Trailing(w, allowWalk, ps, i);
    }
  }

  lemma {:induction false} SimpleSuffix(w: World, allowWalk: bool, ps: seq<Pattern>, k: nat)
    requires w.Valid() && k <= |ps| && Simple(w, allowWalk, ps) == []
    ensures Simple(w, allowWalk, ps[k..]) == []
  {
    if k > 0 {
      assert ps[k..] == ps[1..][k - 1..];
      SimpleSuffix(w, allowWalk, ps[1..], k - 1);
    } else {
      assert ps[0..] == ps;
    }
  }

  // ---- what an iterator state will still yield ----

  /** The mutable part of the iterator. */
  datatype Cursor = Cursor(
    patterns: seq<Pattern>,
    path: Option<Path>,
    pattern: Path,
    dest: Option<Path>,
    walk: Option<seq<Entry>>,
    glob: Option<seq<Entry>>)
  {
    function Mode(): Mode {
      if walk.Some? then Walking else if glob.Some? then Globbing else Single
    }
  }

  function CurrentItems(w: World, allowWalk: bool, c: Cursor): seq<Item>
    requires w.Valid()
  {
    if c.path.None? then []
    else if c.walk.None? && c.glob.None? then PathItems(w, allowWalk, c.pattern, c.dest, c.path.value)
    else if w.IsDir(c.path.value) then []
    else [FileItem(w, c.Mode(), c.pattern, c.dest, c.path.value)]
  }

  function ActiveItems(w: World, c: Cursor): seq<Item>
    requires w.Valid()
  {
    if c.walk.Some? then EntriesItems(w, Walking, c.pattern, c.dest, c.walk.value)
    else if c.glob.Some? then EntriesItems(w, Globbing, c.pattern, c.dest, c.glob.value)
    else []
  }

  /** The pending path first, then the active walk or glob, then the patterns not looked at yet. */
  function Remaining(w: World, allowWalk: bool, c: Cursor): seq<Item>
    requires w.Valid()
  {
    CurrentItems(w, allowWalk, c) + (ActiveItems(w, c) + Flat(w, allowWalk, c.patterns))
  }

  lemma Regroup(here: seq<Item>, tail: seq<Item>, flat: seq<Item>)
    ensures [] + ((here + tail) + flat) == here + (tail + flat)
    ensures here + ([] + (tail + flat)) == here + (tail + flat)
  {
    assert (here + tail) + flat == here + (tail + flat);
  }

  lemma Nothing(flat: seq<Item>)
    ensures [] + flat == flat
  {
  }

  /** A directory is skipped under a glob, refused or walked otherwise. */
  lemma EnterDir(w: World, allowWalk: bool, c: Cursor)
    requires w.Valid() && c.path.Some? && w.IsDir(c.path.value) && !(c.walk.Some? && c.glob.Some?)
    ensures var rest := c.(path := None);
            if c.walk.Some? || c.glob.Some? then Remaining(w, allowWalk, c) == Remaining(w, allowWalk, rest)
            else if !allowWalk then Remaining(w, allowWalk, c) == [NotAllowedToWalkDir(c.path.value)] + Remaining(w, allowWalk, rest)
            else Remaining(w, allowWalk, c) == Remaining(w, allowWalk, rest.(walk := Some(w.Walk(c.path.value))))
  {
    var rest := c.(path := None);
    if c.walk.None? && c.glob.None? {
      var flat := Flat(w, allowWalk, c.patterns);
      Nothing(flat);
      var open := rest.(walk := Some(w.Walk(c.path.value)));
      assert Remaining(w, allowWalk, rest) == [] + ([] + flat);
      assert Remaining(w, allowWalk, open) == [] + (ActiveItems(w, open) + flat);
      Nothing(ActiveItems(w, open) + flat);
    }
  }

  lemma TakeFile(w: World, allowWalk: bool, c: Cursor)
    requires w.Valid() && c.path.Some? && !w.IsDir(c.path.value)
    ensures Remaining(w, allowWalk, c)
            == [FileItem(w, c.Mode(), c.pattern, c.dest, c.path.value)] + Remaining(w, allowWalk, c.(path := None))
  {
    Nothing(ActiveItems(w, c) + Flat(w, allowWalk, c.patterns));
  }

  lemma EndWalk(w: World, allowWalk: bool, c: Cursor)
    requires w.Valid() && c.path.None? && c.walk == Some([]) && c.glob.None?
    ensures Remaining(w, allowWalk, c) == Remaining(w, allowWalk, c.(walk := None))
  {
  }

  lemma PopGlob(w: World, allowWalk: bool, c: Cursor)
    requires w.Valid() && c.path.None? && c.walk.None? && c.glob.Some? && c.glob.value != []
    ensures var e := c.glob.value[0];
            var c' := c.(glob := Some(c.glob.value[1..]));
            && (e.Broken? ==> Remaining(w, allowWalk, c) == [GlobError(e.code)] + Remaining(w, allowWalk, c'))
            && (e.Found? ==> Remaining(w, allowWalk, c) == Remaining(w, allowWalk, c'.(path := Some(Normalize(e.path)))))
  {
    var e := c.glob.value[0];
    var c' := c.(glob := Some(c.glob.value[1..]));
    var tail := EntriesItems(w, Globbing, c.pattern, c.dest, c.glob.value[1..]);
    var flat := Flat(w, allowWalk, c.patterns);
    var here := EntryItems(w, Globbing, c.pattern, c.dest, e);
    Regroup(here, tail, flat);
    assert ActiveItems(w, c) == here + tail && CurrentItems(w, allowWalk, c) == [];
    if e.Broken? {
      assert here == [GlobError(e.code)];
      assert CurrentItems(w, allowWalk, c') == [] && ActiveItems(w, c') == tail;
    } else {
      var c'' := c'.(path := Some(Normalize(e.path)));
      assert CurrentItems(w, allowWalk, c'') == here && ActiveItems(w, c'') == tail;
    }
  }

  lemma PopWalk(w: World, allowWalk: bool, c: Cursor)
    requires w.Valid() && c.path.None? && c.walk.Some? && c.walk.value != []
    ensures var e := c.walk.value[0];
            var c' := c.(walk := Some(c.walk.value[1..]));
            && (e.Broken? ==> Remaining(w, allowWalk, c) == [WalkError(e.code)] + Remaining(w, allowWalk, c'))
            && (e.Found? ==> Remaining(w, allowWalk, c) == Remaining(w, allowWalk, c'.(path := Some(Normalize(e.path)))))
  {
    var e := c.walk.value[0];
    var c' := c.(walk := Some(c.walk.value[1..]));
    var tail := EntriesItems(w, Walking, c.pattern, c.dest, c.walk.value[1..]);
    var flat := Flat(w, allowWalk, c.patterns);
    var here := EntryItems(w, Walking, c.pattern, c.dest, e);
    Regroup(here, tail, flat);
    assert ActiveItems(w, c) == here + tail && CurrentItems(w, allowWalk, c) == [];
    if e.Broken? {
      assert here == [WalkError(e.code)];
      assert CurrentItems(w, allowWalk, c') == [] && ActiveItems(w, c') == tail;
    } else {
      var c'' := c'.(path := Some(Normalize(e.path)));
      assert CurrentItems(w, allowWalk, c'') == here && ActiveItems(w, c'') == tail;
    }
  }

  /** Taking up the next pattern, a glob. */
  lemma PopGlobPattern(w: World, allowWalk: bool, ps: seq<Pattern>, current: Path, es: seq<Entry>)
    requires w.Valid() && ps != [] && IsGlob(ps[0]) && w.Glob(ps[0].text) == Matches(es)
    requires ps[0].dest.Some? ==> current == ps[0].path
    ensures var c := Cursor(ps[1..], None, current, RelDest(ps[0]), None, Some(es));
            var missing := GlobPathNotFound(ps[0].text);
            var rest := Flat(w, allowWalk, ps[1..]);
            && (es == [] ==> Flat(w, allowWalk, ps) == [missing] + rest)
            && (es != [] && Remaining(w, allowWalk, c) == [] ==> Flat(w, allowWalk, ps) == [missing])
            && (es != [] && Remaining(w, allowWalk, c) != [] ==> Flat(w, allowWalk, ps) == Remaining(w, allowWalk, c))
  {
    PatternMatters(w, Globbing, ps[0], current, es);
    var items := EntriesItems(w, Globbing, ps[0].path, RelDest(ps[0]), es);
    var rest := Flat(w, allowWalk, ps[1..]);
    assert [] + (items + rest) == items + rest;
  }

  /** Taking up the next pattern, a single path. */
  lemma PopPathPattern(w: World, allowWalk: bool, ps: seq<Pattern>, current: Path)
    requires w.Valid() && ps != [] && !IsGlob(ps[0])
    requires ps[0].dest.Some? ==> current == ps[0].path
    ensures var c := Cursor(ps[1..], Some(Normalize(ps[0].path)), current, RelDest(ps[0]), None, None);
            Flat(w, allowWalk, ps) == Remaining(w, allowWalk, c)
  {
    var q := Normalize(ps[0].path);
    PatternMattersPath(w, allowWalk, ps[0], current, q);
    var rest := Flat(w, allowWalk, ps[1..]);
    assert [] + rest == rest;
  }

  // ---- the iterator ----

  class ResourcePathsIter {
    const world: World
    const allowWalk: bool
    var patterns: seq<Pattern>
    var currentPath: Option<Path>
    var currentPattern: Path
    var currentDest: Option<Path>
    var walkIter: Option<seq<Entry>>
    var globIter: Option<seq<Entry>>

    ghost predicate Valid()
      reads this
    {
      && world.Valid()
      && !(walkIter.Some? && globIter.Some?)
      && (walkIter.Some? ==> allowWalk)
    }

    /** Between two calls of `Next` no path is pending. */
    ghost predicate Resting()
      reads this
    {
      Valid() && currentPath.None?
    }

    ghost predicate Exhausted()
      reads this
    {
      Resting() && walkIter.None? && globIter.None? && patterns == []
    }

    function View(): Cursor
      reads this
    {
      Cursor(patterns, currentPath, currentPattern, currentDest, walkIter, globIter)
    }

    /** Everything the iterator will still yield. */
    ghost function ToCome(): seq<Item>
      requires Valid()
      reads this
    {
      Remaining(world, allowWalk, View())
    }

    // The lexicographic measure: patterns left, a path that may open a walk, entries left.

    ghost function MayWalk(): nat
      reads this
    {
      if currentPath.Some? && walkIter.None? && globIter.None? then 1 else 0
    }

    ghost function EntriesLeft(): nat
      reads this
    {
      (if walkIter.Some? then |walkIter.value| else 0)
      + (if globIter.Some? then |globIter.value| else 0)
      + (if currentPath.Some? then 1 else 0)
    }

    constructor (world: World, patterns: seq<Pattern>, allowWalk: bool)
      requires world.Valid()
      ensures Resting() && this.world == world && this.allowWalk == allowWalk
      ensures ToCome() == Flat(world, allowWalk, patterns)
    {
      this.world, this.patterns, this.allowWalk := world, patterns, allowWalk;
      currentPath, currentPattern, currentDest := None, [], None;
      walkIter, globIter := None, None;
      new;
      assert ToCome() == [] + ([] + Flat(world, allowWalk, patterns));
    }

    /** The head of what remains is returned; at the end nothing remains. */
    ghost predicate Yields(before: seq<Item>, r: Option<Item>)
      requires Resting()
      reads this
    {
      match r
      case None => before == [] && Exhausted()
      case Some(item) => before == [item] + ToCome()
    }

    method NextGlobIter() returns (r: Option<Item>)
      requires Resting() && globIter.Some?
      modifies this
      ensures Resting()
      ensures if old(globIter) == Some([]) then r.None? && unchanged(this) else Yields(old(ToCome()), r)
      decreases |patterns|, MayWalk(), EntriesLeft(), 2
    {
      if globIter.value == [] {
        return None;
      }
      PopGlob(world, allowWalk, View());
      var entry, rest := globIter.value[0], globIter.value[1..];
      globIter := Some(rest);
      if entry.Broken? {
        return Some(GlobError(entry.code));
      }
      var path := NormalizePath(entry.path);
      currentPath := Some(path);
      r := NextCurrentPath();
    }

    method NextWalkIter() returns (r: Option<Item>)
      requires Resting() && walkIter.Some?
      modifies this
      ensures Resting()
      ensures if old(walkIter) == Some([]) then r.None? && unchanged(this) else Yields(old(ToCome()), r)
      decreases |patterns|, MayWalk(), EntriesLeft(), 2
    {
      if walkIter.value == [] {
        return None;
      }
      PopWalk(world, allowWalk, View());
      var entry, rest := walkIter.value[0], walkIter.value[1..];
      walkIter := Some(rest);
      if entry.Broken? {
        return Some(WalkError(entry.code));
      }
      var path := NormalizePath(entry.path);
      currentPath := Some(path);
      r := NextCurrentPath();
    }

    method ResourceFromPath(path: Path) returns (item: Item)
      requires Valid() && !world.IsDir(path)
      ensures item == FileItem(world, View().Mode(), currentPattern, currentDest, path)
    {
      if !world.Exists(path) {
        return ResourcePathNotFound(path);
      }
      var target: Path;
      match currentDest {
        case Some(dest) =>
          if walkIter.Some? {
            var rest := StripPrefix(path, currentPattern);
            target := Join(dest, if rest.Some? then rest.value else path);
          } else if |dest| == 0 {
            target := [Normal(FileName(path).value)];
          } else if globIter.Some? {
            target := Join(dest, [Normal(FileName(path).value)]);
          } else {
            target := dest;
          }
        case None =>
          target := ResourceRelpath(path);
      }
      item := Resource(path, target);
    }

    method NextCurrentPath() returns (r: Option<Item>)
      requires Valid() && currentPath.Some?
      modifies this
      ensures Resting() && Yields(old(ToCome()), r)
      decreases |patterns|, MayWalk(), EntriesLeft(), 1
    {
      ghost var start := View();
      var path := currentPath.value;
      currentPath := None;
      if world.IsDir(path) {
        EnterDir(world, allowWalk, start);
        if globIter.Some? {
          r := Next();
          return;
        }
        if !allowWalk {
          return Some(NotAllowedToWalkDir(path));
        }
        if walkIter.None? {
          walkIter := Some(world.Walk(path));
        }
        r := NextWalkIter();
        if r.None? {
          if walkIter.Some? { EndWalk(world, allowWalk, View()); }
          walkIter := None;
          r := Next();
        }
      } else {
        TakeFile(world, allowWalk, start);
        var item := ResourceFromPath(path);
        r := Some(item);
      }
    }

    method NextPattern() returns (r: Option<Item>)
      requires Resting() && walkIter.None? && globIter.None?
      modifies this
      ensures Resting() && Yields(old(ToCome()), r)
      decreases |patterns|, MayWalk(), EntriesLeft(), 3
    {
      assert ToCome() == [] + ([] + Flat(world, allowWalk, patterns)) == Flat(world, allowWalk, patterns);
      currentPattern, currentDest, currentPath := [], None, None;
      if patterns == [] {
        return None;
      }
      var pattern := patterns[0];
      patterns := patterns[1..];
      if pattern.dest.Some? {
        var dest := ResourceRelpath(pattern.dest.value);
        currentPattern, currentDest := pattern.path, Some(dest);
      }
      if '*' in pattern.text {
        r := NextGlobPattern(pattern, old(patterns));
      } else {
        var path := NormalizePath(pattern.path);
        currentPath := Some(path);
        PopPathPattern(world, allowWalk, old(patterns), currentPattern);
        r := NextCurrentPath();
      }
    }

    /** The glob arm of `next_pattern`. */
    method NextGlobPattern(pattern: Pattern, ghost all: seq<Pattern>) returns (r: Option<Item>)
      requires Resting() && walkIter.None? && globIter.None?
      requires all == [pattern] + patterns && IsGlob(pattern)
      requires currentDest == RelDest(pattern) && (pattern.dest.Some? ==> currentPattern == pattern.path)
      modifies this
      ensures Resting() && r.Some? && Yields(Flat(world, allowWalk, all), r)
      decreases |patterns|, 1, 0, 0
    {
      assert all[1..] == patterns;
      assert ToCome() == [] + ([] + Flat(world, allowWalk, patterns)) == Flat(world, allowWalk, patterns);
      var g := world.Glob(pattern.text);
      if g.BadPattern? {
        return Some(PatternError(g.code));
      }
      PopGlobPattern(world, allowWalk, all, currentPattern, g.entries);
      globIter := Some(g.entries);
      r := NextGlobIter();
      if r.None? {
        globIter := None;
        r := Some(GlobPathNotFound(pattern.text));
        assert ToCome() == [] + ([] + Flat(world, allowWalk, patterns)) == Flat(world, allowWalk, patterns);
      }
    }

    /** `Iterator::next`. */
    method Next() returns (r: Option<Item>)
      requires Valid()
      modifies this
      ensures Resting() && Yields(old(ToCome()), r)
      decreases |patterns|, MayWalk(), EntriesLeft(), 4
    {
      if currentPath.Some? {
        r := NextCurrentPath();
        return;
      }
      if walkIter.Some? {
        r := NextWalkIter();
        if r.Some? {
          return;
        }
        walkIter := None;
      }
      if globIter.Some? {
        r := NextGlobIter();
        if r.Some? {
          return;
        }
        globIter := None;
      }
      r := NextPattern();
    }

    /** Draining the iterator gives the flat specification, and draining ends. */
    method Collect() returns (items: seq<Item>)
      requires Resting()
      modifies this
      ensures items == old(ToCome()) && Exhausted()
    {
      items := [];
      ghost var all := ToCome();
      while true
        invariant Resting() && items + ToCome() == all
        decreases |ToCome()|
      {
        ghost var before := ToCome();
        var r := Next();
        if r.None? {
          return;
        }
        items := items + [r.value];
      }
    }
  }

  /** The pattern components matter only for map patterns. */
  lemma {:induction false} PatternMatters(w: World, mode: Mode, p: Pattern, current: Path, es: seq<Entry>)
    requires w.Valid() && (p.dest.Some? ==> current == p.path)
    ensures EntriesItems(w, mode, current, RelDest(p), es) == EntriesItems(w, mode, p.path, RelDest(p), es)
  {
    if es != [] {
      PatternMatters(w, mode, p, current, es[1..]);
    }
  }

  lemma PatternMattersPath(w: World, allowWalk: bool, p: Pattern, current: Path, q: Path)
    requires w.Valid() && (p.dest.Some? ==> current == p.path)
    ensures PathItems(w, allowWalk, current, RelDest(p), q) == PathItems(w, allowWalk, p.path, RelDest(p), q)
  {
    PatternMatters(w, Walking, p, current, w.Walk(q));
  }
}
