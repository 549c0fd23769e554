/**
  Content security policies: the printer and the parser of directive maps, and the two source list
  representations (one string, or a list).
 */
module Csp {
  import opened Text

  datatype Sources = Inline(text: string) | List(items: seq<string>)

  function ToVec(s: Sources): seq<string> {
    match s
    case Inline(text) => Split(text, ' ')
    case List(items) => items
  }

  datatype Directive = Directive(name: string, sources: Sources)

  // ---- printing ----

  function PrintDirective(d: Directive): string {
    d.name + " " + Join(ToVec(d.sources), " ")
  }

  function PrintAll(ds: seq<Directive>): seq<string> {
    if ds == [] then [] else [PrintDirective(ds[0])] + PrintAll(ds[1..])
  }

  function Print(ds: seq<Directive>): string {
    Join(PrintAll(ds), "; ")
  }

  lemma {:induction false} PrintAllSnoc(ds: seq<Directive>, d: Directive)
    ensures PrintAll(ds + [d]) == PrintAll(ds) + [PrintDirective(d)]
  {
    if ds == [] {
      assert ds + [d] == [d] && [d][1..] == [];
    } else {
      assert (ds + [d])[0] == ds[0] && (ds + [d])[1..] == ds[1..] + [d];
      PrintAllSnoc(ds[1..], d);
    }
  }

  lemma {:induction false} JoinSnoc(parts: seq<string>, p: string, sep: string)
    ensures Join(parts + [p], sep) == if parts == [] then p else Join(parts, sep) + sep + p
  {
    if parts == [] {
      assert parts + [p] == [p];
    } else {
      var all := parts + [p];
      assert all[0] == parts[0] && all[1..] == parts[1..] + [p];
      JoinSnoc(parts[1..], p, sep);
      if |parts| > 1 {
        JoinRegroup(parts[0], sep, Join(parts[1..], sep), p);
      }
    }
  }

  lemma JoinRegroup(head: string, sep: string, middle: string, last: string)
    ensures head + sep + (middle + sep + last) == head + sep + middle + sep + last
  {
  }

  lemma PrintSnoc(ds: seq<Directive>, d: Directive)
    ensures Print(ds + [d]) == if ds == [] then PrintDirective(d) else Print(ds) + "; " + PrintDirective(d)
  {
    PrintAllSnoc(ds, d);
    PrintLength(ds);
    JoinSnoc(PrintAll(ds), PrintDirective(d), "; ");
  }

  lemma {:induction false} PrintLength(ds: seq<Directive>)
    ensures |PrintAll(ds)| == |ds|
  {
    if ds != [] { PrintLength(ds[1..]); }
  }

  /** `Display`: the directives in iteration order, with `; ` between them. */
  method Display(ds: seq<Directive>) returns (out: string)
    ensures out == Print(ds)
  {
    out := "";
    var i := 0;
    while i < |ds|
      invariant 0 <= i <= |ds|
      invariant out == if 0 < i < |ds| then Print(ds[..i]) + "; " else Print(ds[..i])
    {
      var d := ds[i];
      assert ds[..i + 1] == ds[..i] + [d];
      PrintSnoc(ds[..i], d);
      out := out + (d.name + " " + Join(ToVec(d.sources), " "));
      i := i + 1;
      if i != |ds| {
        out := out + "; ";
      }
    }
    assert ds[..|ds|] == ds;
  }

  // ---- parsing ----

  type DirectiveMap = map<string, Sources>

  function ParseDirective(text: string): Directive {
    var tokens := Split(Trim(text), ' ');
    Directive(tokens[0], List(tokens[1..]))
  }

  function ParseTexts(texts: seq<string>): DirectiveMap {
    if texts == [] then map[] else
      var d := ParseDirective(texts[|texts| - 1]);
      ParseTexts(texts[..|texts| - 1])[d.name := d.sources]
  }

  function Parse(policy: string): DirectiveMap {
    ParseTexts(Split(policy, ';'))
  }

  method ParsePolicy(policy: string) returns (m: DirectiveMap)
    ensures m == Parse(policy)
  {
    m := map[];
    var texts := Split(policy, ';');
    for i := 0 to |texts|
      invariant m == ParseTexts(texts[..i])
    {
      var tokens := Split(Trim(texts[i]), ' ');
      m := m[tokens[0] := List(tokens[1..])];
      assert texts[..i + 1][..i] == texts[..i];
    }
    assert texts[..|texts|] == texts;
  }

  /** The last directive of a name wins. */
  lemma {:induction false} LastDirectiveWins(texts: seq<string>, i: nat)
    requires i < |texts|
    requires forall j :: i < j < |texts| ==> ParseDirective(texts[j]).name != ParseDirective(texts[i]).name
    ensures var d := ParseDirective(texts[i]); d.name in ParseTexts(texts) && ParseTexts(texts)[d.name] == d.sources
  {
    var n := |texts| - 1;
    if i < n {
      LastDirectiveWins(texts[..n], i);
    }
  }

  // ---- print, then parse ----

  /** Non-empty, without white space and without `;`. */
  predicate CleanText(s: string) {
    s != [] && forall i :: 0 <= i < |s| ==> !IsSpace(s[i]) && s[i] != ';'
  }

  predicate Clean(d: Directive) {
    CleanText(d.name) && forall i :: 0 <= i < |ToVec(d.sources)| ==> CleanText(ToVec(d.sources)[i])
  }

  lemma {:induction false} JoinShape(parts: seq<string>)
    requires parts != [] && forall i :: 0 <= i < |parts| ==> CleanText(parts[i])
    ensures var s := Join(parts, " ");
            s != [] && !IsSpace(s[0]) && !IsSpace(s[|s| - 1]) && ';' !in s
  {
    if |parts| > 1 {
      JoinShape(parts[1..]);
      var rest := Join(parts[1..], " ");
      var s := parts[0] + " " + rest;
      assert s[0] == parts[0][0] && s[|s| - 1] == rest[|rest| - 1];
    }
  }

  lemma JoinCons(a: string, parts: seq<string>)
    requires parts != []
    ensures Join([a] + parts, " ") == a + " " + Join(parts, " ")
  {
    assert ([a] + parts)[1..] == parts;
  }

  /** One printed directive, possibly after the blank that follows a `;`, parses back. */
  lemma DirectiveRoundTrip(d: Directive, blank: bool)
    requires Clean(d)
    ensures ParseDirective((if blank then " " else "") + PrintDirective(d)) == Directive(d.name, List(ToVec(d.sources)))
    ensures ';' !in PrintDirective(d)
  {
    var sources := ToVec(d.sources);
    var tokens := [d.name] + sources;
    var text := Join(tokens, " ");
    JoinShape(tokens);
    if sources == [] {
      assert tokens == [d.name] && text == d.name;
      assert PrintDirective(d) == text + " ";
      TrimAround(text, blank, true);
      assert (if blank then " " else "") + PrintDirective(d) == (if blank then " " else "") + text + " ";
    } else {
      JoinCons(d.name, sources);
      assert PrintDirective(d) == text;
      TrimAround(text, blank, false);
      assert (if blank then " " else "") + PrintDirective(d) == (if blank then " " else "") + text + "";
    }
    SplitJoin(tokens, ' ');
    assert tokens[1..] == sources;
  }

  /** The printed policy falls apart at its semicolons into the printed directives. */
  function Pieces(ds: seq<Directive>, first: bool): seq<string> {
    if ds == [] then []
    else [(if first then "" else " ") + PrintDirective(ds[0])] + Pieces(ds[1..], false)
  }

  lemma PrintCons(d: Directive, ds: seq<Directive>, blank: string)
    requires ds != []
    ensures blank + Print([d] + ds) == (blank + PrintDirective(d)) + [';'] + (" " + Print(ds))
  {
    PrintLength(ds);
    var all := PrintAll([d] + ds);
    assert ([d] + ds)[1..] == ds;
    assert all == [PrintDirective(d)] + PrintAll(ds) && all[1..] == PrintAll(ds);
  }

  lemma {:induction false} PrintSplits(ds: seq<Directive>, first: bool)
    requires ds != [] && forall i :: 0 <= i < |ds| ==> Clean(ds[i])
    ensures Split((if first then "" else " ") + Print(ds), ';') == Pieces(ds, first)
  {
    var blank := if first then "" else " ";
    DirectiveRoundTrip(ds[0], !first);
    var head, rest := blank + PrintDirective(ds[0]), ds[1..];
    if rest == [] {
      PrintLength(ds);
      assert Print(ds) == PrintDirective(ds[0]);
      SplitNone(head, ';');
    } else {
      PrintSplits(rest, false);
      PrintCons(ds[0], rest, blank);
      assert ds == [ds[0]] + rest;
      SplitFirst(head, ';', " " + Print(rest));
    }
  }

  ghost predicate Distinct(ds: seq<Directive>) {
    forall i, j :: 0 <= i < j < |ds| ==> ds[i].name != ds[j].name
  }

  /** The map a directive list stands for, with every source list spelled out. */
  ghost function AsMap(ds: seq<Directive>): DirectiveMap {
    if ds == [] then map[]
    else AsMap(ds[..|ds| - 1])[ds[|ds| - 1].name := List(ToVec(ds[|ds| - 1].sources))]
  }

  lemma {:induction false} PiecesAt(ds: seq<Directive>, first: bool, i: nat)
    requires i < |ds|
    ensures |Pieces(ds, first)| == |ds|
    ensures Pieces(ds, first)[i] == (if first && i == 0 then "" else " ") + PrintDirective(ds[i])
  {
    if |ds| > 1 { PiecesAt(ds[1..], false, if i > 0 then i - 1 else 0); }
  }

  lemma {:induction false} ParsePieces(ds: seq<Directive>, texts: seq<string>)
    requires |texts| == |ds|
    requires forall i :: 0 <= i < |ds| ==> ParseDirective(texts[i]) == Directive(ds[i].name, List(ToVec(ds[i].sources)))
    ensures ParseTexts(texts) == AsMap(ds)
  {
    if ds != [] {
      ParsePieces(ds[..|ds| - 1], texts[..|ds| - 1]);
    }
  }

  /**
    Printing a directive map in any iteration order and parsing the text gives the map back, empty
    source lists included, exactly when the map is not empty.
   */
  lemma PrintParseIff(ds: seq<Directive>)
    requires forall i :: 0 <= i < |ds| ==> Clean(ds[i])
    ensures Parse(Print(ds)) == AsMap(ds) <==> ds != []
  {
    if ds == [] {
      EmptyPolicy();
    } else {
      PrintSplits(ds, true);
      assert "" + Print(ds) == Print(ds);
      PiecesAt(ds, true, 0);
      forall i | 0 <= i < |ds|
        ensures ParseDirective(Pieces(ds, true)[i]) == Directive(ds[i].name, List(ToVec(ds[i].sources)))
      {
        PiecesAt(ds, true, i);
        DirectiveRoundTrip(ds[i], i > 0);
      }
      ParsePieces(ds, Pieces(ds, true));
    }
  }

  /** The empty text parses to one nameless directive. */
  lemma EmptyPolicy()
    ensures Parse("") == map["" := List([])] && Parse("") != map[]
  {
    assert Split("", ';') == [""] && Trim("") == "" && Split("", ' ') == [""];
    assert [""][1..] == [] && [""][..0] == [];
    var texts := [""];
    assert ParseDirective(texts[0]) == Directive("", List([]));
    assert ParseTexts(texts) == map["" := List([])];
    assert "" in Parse("");
  }

  /** The order in which the map is visited does not matter. */
  lemma {:induction false} AsMapLookup(ds: seq<Directive>, i: nat)
    requires i < |ds| && Distinct(ds)
    ensures ds[i].name in AsMap(ds) && AsMap(ds)[ds[i].name] == List(ToVec(ds[i].sources))
  {
    var n := |ds| - 1;
    if i < n { AsMapLookup(ds[..n], i); }
  }

  lemma {:induction false} AsMapKeys(ds: seq<Directive>, name: string)
    ensures name in AsMap(ds) <==> exists i :: 0 <= i < |ds| && ds[i].name == name
  {
    if ds != [] {
      var n := |ds| - 1;
      AsMapKeys(ds[..n], name);
      if i :| 0 <= i < n && ds[i].name == name { assert ds[..n][i].name == name; }
    }
  }

  lemma AnyOrder(ds: seq<Directive>, es: seq<Directive>)
    requires Distinct(ds) && Distinct(es) && (forall d :: d in ds <==> d in es)
    ensures AsMap(ds) == AsMap(es)
  {
    forall name ensures name in AsMap(ds) <==> name in AsMap(es) {
      AsMapKeys(ds, name);
      AsMapKeys(es, name);
      if i :| 0 <= i < |ds| && ds[i].name == name {
        assert ds[i] in es;
        var j :| 0 <= j < |es| && es[j] == ds[i];
        assert es[j].name == name;
      }
      if i :| 0 <= i < |es| && es[i].name == name {
        assert es[i] in ds;
        var j :| 0 <= j < |ds| && ds[j] == es[i];
        assert ds[j].name == name;
      }
    }
    forall name | name in AsMap(ds) ensures AsMap(ds)[name] == AsMap(es)[name] {
      AsMapKeys(ds, name);
      var i :| 0 <= i < |ds| && ds[i].name == name;
      assert ds[i] in es;
      var j :| 0 <= j < |es| && es[j] == ds[i];
      AsMapLookup(ds, i);
      AsMapLookup(es, j);
    }
  }

  // ---- source lists: the string form against the list form ----

  function Push(s: Sources, source: string): Sources {
    match s
    case Inline(text) => Inline(text + " " + source)
    case List(items) => List(items + [source])
  }

  lemma {:induction false} SplitPush(text: string, source: string)
    ensures Split(text + " " + source, ' ') == Split(text, ' ') + Split(source, ' ')
    decreases |text|
  {
    if ' ' in text {
      var a, b := FirstSeparator(text, ' ');
      SplitPush(b, source);
      SplitFirst(a, ' ', b);
      var tail := b + " " + source;
      SplitFirst(a, ' ', tail);
      assert text + " " + source == a + [' '] + tail;
      SplitAppend(a, Split(b, ' '), Split(source, ' '));
    } else {
      SplitNone(text, ' ');
      SplitFirst(text, ' ', source);
    }
  }

  lemma SplitAppend(a: string, x: seq<string>, y: seq<string>)
    ensures [a] + (x + y) == [a] + x + y
  {
  }

  /** A push appends exactly its source to the converted vector if the source is space-free or the list form is used. */
  lemma PushAppendsIff(s: Sources, source: string)
    ensures ToVec(Push(s, source)) == ToVec(s) + [source] <==> s.List? || ' ' !in source
  {
    if s.Inline? {
      SplitPush(s.text, source);
      if ' ' in source {
        PieceCount(source);
      } else {
        SplitNone(source, ' ');
      }
    }
  }

  function PushAll(s: Sources, more: seq<string>): Sources {
    if more == [] then s else Push(PushAll(s, more[..|more| - 1]), more[|more| - 1])
  }

  lemma PushLength(s: Sources, source: string)
    ensures |ToVec(Push(s, source))| >= |ToVec(s)| + 1
    ensures s.Inline? && ' ' in source ==> |ToVec(Push(s, source))| >= |ToVec(s)| + 2
  {
    if s.Inline? {
      SplitPush(s.text, source);
      if ' ' in source { PieceCount(source); }
    }
  }

  predicate SpaceFree(sources: seq<string>) {
    forall i :: 0 <= i < |sources| ==> ' ' !in sources[i]
  }

  lemma SpaceFreeSnoc(init: seq<string>, last: string, all: seq<string>)
    requires all == init + [last]
    ensures SpaceFree(all) <==> SpaceFree(init) && ' ' !in last
  {
    assert all[|init|] == last && forall i :: 0 <= i < |init| ==> all[i] == init[i];
  }

  lemma {:induction false} PushAllKind(s: Sources, more: seq<string>)
    ensures PushAll(s, more).List? <==> s.List?
  {
    if more != [] { PushAllKind(s, more[..|more| - 1]); }
  }

  lemma {:induction false} PushAllLength(s: Sources, more: seq<string>)
    ensures |ToVec(PushAll(s, more))| >= |ToVec(s)| + |more|
    ensures s.Inline? && !SpaceFree(more) ==> |ToVec(PushAll(s, more))| > |ToVec(s)| + |more|
  {
    if more != [] {
      var n := |more| - 1;
      PushAllLength(s, more[..n]);
      PushAllKind(s, more[..n]);
      PushLength(PushAll(s, more[..n]), more[n]);
      SpaceFreeSnoc(more[..n], more[n], more);
    }
  }

  lemma {:induction false} PushAllAppends(s: Sources, more: seq<string>)
    requires s.List? || SpaceFree(more)
    ensures ToVec(PushAll(s, more)) == ToVec(s) + more
  {
    if more != [] {
      var n := |more| - 1;
      PushAllAppends(s, more[..n]);
      PushAllKind(s, more[..n]);
      PushAppendsIff(PushAll(s, more[..n]), more[n]);
      SnocOnto(ToVec(s), more, n);
    }
  }

  lemma SnocOnto(a: seq<string>, more: seq<string>, n: nat)
    requires |more| == n + 1
    ensures a + more[..n] + [more[n]] == a + more
  {
  }

  lemma ExtendAppendsIff(s: Sources, more: seq<string>)
    ensures PushAll(s, more).List? <==> s.List?
    ensures ToVec(PushAll(s, more)) == ToVec(s) + more <==> s.List? || SpaceFree(more)
  {
    PushAllKind(s, more);
    PushAllLength(s, more);
    if s.List? || SpaceFree(more) { PushAllAppends(s, more); }
  }

  lemma PieceCount(s: string)
    requires ' ' in s
    ensures |Split(s, ' ')| >= 2
  {
    var a, b := FirstSeparator(s, ' ');
    SplitFirst(a, ' ', b);
  }

  class DirectiveSources {
    var sources: Sources

    constructor (sources: Sources)
      ensures this.sources == sources
    {
      this.sources := sources;
    }

    method PushSource(source: string)
      modifies this
      ensures sources == Push(old(sources), source)
      ensures ' ' !in source ==> ToVec(sources) == ToVec(old(sources)) + [source]
    {
      PushAppendsIff(sources, source);
      match sources {
        case Inline(text) => sources := Inline(text + " " + source);
        case List(items) => sources := List(items + [source]);
      }
    }

    /** Extending appends exactly the new sources, in order, in either representation, if none has a space. */
    method Extend(more: seq<string>)
      modifies this
      ensures sources == PushAll(old(sources), more)
      ensures ToVec(sources) == ToVec(old(sources)) + more
              <==> old(sources).List? || SpaceFree(more)
    {
      for i := 0 to |more|
        invariant sources == PushAll(old(sources), more[..i])
      {
        PushSource(more[i]);
        assert more[..i + 1][..i] == more[..i];
      }
      assert more[..|more|] == more;
      ExtendAppendsIff(old(sources), more);
    }
  }

  // ---- contains ----

  predicate OccursAt(t: string, p: nat, u: string) {
    p + |u| <= |t| && t[p..p + |u|] == u
  }

  predicate Occurs(t: string, u: string) {
    exists p :: 0 <= p <= |t| && OccursAt(t, p, u)
  }

  predicate Contains(s: Sources, source: string) {
    match s
    case Inline(text) => Occurs(text, source + [' ']) || Occurs(text, [' '] + source)
    case List(items) => source in items
  }

  predicate Suffix(x: string, s: string) {
    |x| <= |s| && s[|s| - |x|..] == x
  }

  /** The pieces an inline `contains` looks at: a suffix of any but the last, a prefix of any but the first. */
  ghost predicate SuffixOfInner(x: string, parts: seq<string>) {
    exists i :: 0 <= i < |parts| - 1 && Suffix(x, parts[i])
  }

  ghost predicate PrefixOfLater(x: string, parts: seq<string>) {
    exists i :: 1 <= i < |parts| && x <= parts[i]
  }

  lemma OccursIn(t: string, p: nat, u: string)
    requires OccursAt(t, p, u)
    ensures Occurs(t, u)
  {
  }

  lemma OccursHas(t: string, p: nat, u: string, k: nat)
    requires OccursAt(t, p, u) && k < |u|
    ensures u[k] in t
  {
    assert u[k] == t[p..p + |u|][k] == t[p + k];
  }

  /** An occurrence at one place is one at every place where the text reads the same. */
  lemma OccursThere(t: string, p: nat, v: string, q: nat, u: string)
    requires OccursAt(t, p, u) && q + |u| <= |v|
    requires v[q..q + |u|] == t[p..p + |u|]
    ensures Occurs(v, u)
  {
    OccursIn(v, q, u);
  }

  lemma OccursLater(a: string, b: string, u: string)
    requires Occurs(b, u)
    ensures Occurs(a + [' '] + b, u)
  {
    var p :| 0 <= p <= |b| && OccursAt(b, p, u);
    var q := |a| + 1 + p;
    assert (a + [' '] + b)[q..q + |u|] == b[p..p + |u|];
    OccursThere(b, p, a + [' '] + b, q, u);
  }

  /** Where the text `x` and a space can occur in a piece, a space and a rest. */
  lemma SpaceAfterAt(a: string, b: string, x: string, p: nat)
    requires ' ' !in a && ' ' !in x && OccursAt(a + [' '] + b, p, x + [' '])
    ensures Suffix(x, a) || Occurs(b, x + [' '])
  {
    var t, u, k := a + [' '] + b, x + [' '], |a|;
    var w := t[p..p + |u|];
    assert w[|x|] == t[p + |x|] == ' ';
    assert p + |x| >= k;
    if p + |x| == k {
      assert a[p..] == w[..|x|] == x;
    } else {
      assert forall j :: p <= j < p + |x| ==> t[j] == w[j - p] == x[j - p];
      assert t[k] == ' ' && p > k;
      assert t[k + 1..] == b;
      assert t[k + 1..][p - k - 1..p - k - 1 + |u|] == w;
      OccursThere(t, p, b, p - k - 1, u);
    }
  }

  lemma SpaceAfter(a: string, b: string, x: string)
    requires ' ' !in a && ' ' !in x
    ensures Occurs(a + [' '] + b, x + [' ']) <==> Suffix(x, a) || Occurs(b, x + [' '])
  {
    var t, u := a + [' '] + b, x + [' '];
    if p :| 0 <= p <= |t| && OccursAt(t, p, u) {
      SpaceAfterAt(a, b, x, p);
    }
    if Suffix(x, a) {
      var p := |a| - |x|;
      assert t[p..p + |u|] == a[p..] + [' '];
      OccursIn(t, p, u);
    }
    if Occurs(b, u) { OccursLater(a, b, u); }
  }

  lemma {:induction false} BeforeSpace(t: string, x: string)
    requires ' ' !in x
    ensures Occurs(t, x + [' ']) <==> SuffixOfInner(x, Split(t, ' '))
    decreases |t|
  {
    if ' ' in t {
      var a, b := FirstSeparator(t, ' ');
      SplitFirst(a, ' ', b);
      BeforeSpace(b, x);
      SpaceAfter(a, b, x);
      InnerCons(x, a, Split(b, ' '));
    } else {
      SplitNone(t, ' ');
      if p :| 0 <= p <= |t| && OccursAt(t, p, x + [' ']) {
        OccursHas(t, p, x + [' '], |x|);
      }
    }
  }

  lemma InnerCons(x: string, a: string, rest: seq<string>)
    requires rest != []
    ensures SuffixOfInner(x, [a] + rest) <==> Suffix(x, a) || SuffixOfInner(x, rest)
  {
    var parts := [a] + rest;
    if i :| 0 <= i < |rest| - 1 && Suffix(x, rest[i]) { assert parts[i + 1] == rest[i]; }
    if Suffix(x, a) { assert parts[0] == a; }
  }

  lemma PrefixOfFirst(b: string, x: string)
    requires ' ' !in x
    ensures x <= b <==> x <= Split(b, ' ')[0]
  {
    if ' ' in b {
      var a, c := FirstSeparator(b, ' ');
      SplitFirst(a, ' ', c);
      assert Split(b, ' ')[0] == a && b[|a|] == ' ';
      assert x <= b ==> |x| <= |a|;
    } else {
      SplitNone(b, ' ');
    }
  }

  lemma SpaceBeforeAt(a: string, b: string, x: string, p: nat)
    requires ' ' !in a && OccursAt(a + [' '] + b, p, [' '] + x)
    ensures x <= b || Occurs(b, [' '] + x)
  {
    var t, u, k := a + [' '] + b, [' '] + x, |a|;
    var w := t[p..p + |u|];
    assert w[0] == t[p] == ' ';
    assert p >= k;
    if p == k {
      assert b[..|x|] == w[1..] == x;
    } else {
      assert b[p - k - 1..p - k - 1 + |u|] == w;
      OccursThere(t, p, b, p - k - 1, u);
    }
  }

  lemma SpaceBefore(a: string, b: string, x: string)
    requires ' ' !in a
    ensures Occurs(a + [' '] + b, [' '] + x) <==> x <= b || Occurs(b, [' '] + x)
  {
    var t, u, k := a + [' '] + b, [' '] + x, |a|;
    if p :| 0 <= p <= |t| && OccursAt(t, p, u) {
      SpaceBeforeAt(a, b, x, p);
    }
    if x <= b {
      assert t[k..k + |u|] == [' '] + b[..|x|];
      OccursIn(t, k, u);
    }
    if Occurs(b, u) { OccursLater(a, b, u); }
  }

  lemma LaterCons(x: string, a: string, rest: seq<string>)
    requires rest != []
    ensures PrefixOfLater(x, [a] + rest) <==> x <= rest[0] || PrefixOfLater(x, rest)
  {
    var parts := [a] + rest;
    if i :| 0 <= i < |rest| && x <= rest[i] { assert parts[i + 1] == rest[i]; }
    if x <= rest[0] { assert parts[1] == rest[0]; }
  }

  lemma {:induction false} AfterSpace(t: string, x: string)
    requires ' ' !in x
    ensures Occurs(t, [' '] + x) <==> PrefixOfLater(x, Split(t, ' '))
    decreases |t|
  {
    if ' ' in t {
      var a, b := FirstSeparator(t, ' ');
      SplitFirst(a, ' ', b);
      AfterSpace(b, x);
      SpaceBefore(a, b, x);
      PrefixOfFirst(b, x);
      LaterCons(x, a, Split(b, ' '));
    } else {
      SplitNone(t, ' ');
      if p :| 0 <= p <= |t| && OccursAt(t, p, [' '] + x) {
        OccursHas(t, p, [' '] + x, 0);
      }
    }
  }

  /**
    Exactly what an inline `contains` tests, for a space-free source: not membership, but whether the
    source ends a piece that is not the last or starts a piece that is not the first.
   */
  lemma InlineContainsIff(text: string, source: string)
    requires ' ' !in source
    ensures Contains(Inline(text), source)
            <==> SuffixOfInner(source, Split(text, ' ')) || PrefixOfLater(source, Split(text, ' '))
  {
    BeforeSpace(text, source);
    AfterSpace(text, source);
  }

  /** With at least two pieces every element is found; a single element never is. */
  lemma InlineContainsMembers(text: string, source: string)
    requires ' ' !in source && source in Split(text, ' ')
    ensures Contains(Inline(text), source) <==> |Split(text, ' ')| >= 2
  {
    InlineContainsIff(text, source);
    var parts := Split(text, ' ');
    var i :| 0 <= i < |parts| && parts[i] == source;
    if |parts| >= 2 {
      if i == 0 { assert Suffix(source, parts[0]); } else { assert source <= parts[i]; }
    }
  }

  /** In the list form `contains` is membership; a push adds exactly its source to what is contained. */
  lemma ListContainsIff(items: seq<string>, source: string, x: string)
    ensures Contains(List(items), x) <==> exists i :: 0 <= i < |items| && items[i] == x
    ensures Contains(Push(List(items), source), x) <==> x == source || Contains(List(items), x)
  {
    assert forall y :: y in items + [source] <==> y == source || y in items;
  }

  /** What was pushed is contained, and no later push makes a contained source disappear. */
  lemma PushContains(s: Sources, source: string, other: string)
    ensures Contains(Push(s, source), source)
    ensures Contains(s, other) ==> Contains(Push(s, source), other)
  {
    match s
    case List(items) =>
      assert (items + [source])[|items|] == source;
    case Inline(text) =>
      var t, u := text + " " + source, [' '] + source;
      assert t == text + u;
      assert t[|text|..|text| + |u|] == u;
      OccursIn(t, |text|, u);
      OccursKept(text, u, other + [' ']);
      OccursKept(text, u, [' '] + other);
  }

  lemma OccursKept(t: string, more: string, u: string)
    ensures Occurs(t, u) ==> Occurs(t + more, u)
  {
    if p :| 0 <= p <= |t| && OccursAt(t, p, u) {
      assert (t + more)[p..p + |u|] == t[p..p + |u|];
      OccursIn(t + more, p, u);
    }
  }
}
