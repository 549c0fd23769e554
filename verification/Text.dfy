/** Splitting, joining and trimming of strings. */
module Text {

  /** `str::split` on one character: always at least one piece. */
  function Split(s: string, c: char): (r: seq<string>)
    ensures r != []
  {
    if s == [] then [[]]
    else if s[0] == c then [[]] + Split(s[1..], c)
    else
      var r := Split(s[1..], c);
      [[s[0]] + r[0]] + r[1..]
  }

  function Join(parts: seq<string>, sep: string): string {
    if parts == [] then []
    else if |parts| == 1 then parts[0]
    else parts[0] + sep + Join(parts[1..], sep)
  }

  lemma {:induction false} SplitNone(s: string, c: char)
    requires c !in s
    ensures Split(s, c) == [s]
  {
    if s != [] {
      SplitNone(s[1..], c);
      assert [s[0]] + s[1..] == s;
    }
  }

  /** A separator after a piece without it splits that piece off. */
  lemma {:induction false} SplitFirst(a: string, c: char, b: string)
    requires c !in a
    ensures Split(a + [c] + b, c) == [a] + Split(b, c)
  {
    if a == [] {
      assert a + [c] + b == [c] + b && ([c] + b)[1..] == b;
    } else {
      var s := a + [c] + b;
      assert s[0] == a[0] && s[1..] == a[1..] + [c] + b;
      SplitFirst(a[1..], c, b);
      assert [a[0]] + a[1..] == a;
    }
  }

  lemma {:induction false} SplitJoin(parts: seq<string>, c: char)
    requires parts != [] && forall i :: 0 <= i < |parts| ==> c !in parts[i]
    ensures Split(Join(parts, [c]), c) == parts
  {
    if |parts| == 1 {
      SplitNone(parts[0], c);
    } else {
      SplitJoin(parts[1..], c);
      SplitFirst(parts[0], c, Join(parts[1..], [c]));
      assert parts == [parts[0]] + parts[1..];
    }
  }

  /** Either there is no separator, or the string is a piece, a separator and a rest. */
  lemma {:induction false} FirstSeparator(s: string, c: char) returns (a: string, b: string)
    requires c in s
    ensures s == a + [c] + b && c !in a
  {
    if s[0] == c {
      a, b := [], s[1..];
      assert s == [c] + s[1..];
    } else {
      var a', b' := FirstSeparator(s[1..], c);
      a, b := [s[0]] + a', b';
      assert s == [s[0]] + s[1..];
    }
  }

  // ---- trimming ----

  /** The Unicode white space characters. */
  predicate IsSpace(c: char) {
    var n := c as int;
    || 0x09 <= n <= 0x0D || n == 0x20 || n == 0x85 || n == 0xA0 || n == 0x1680
    || 0x2000 <= n <= 0x200A || n == 0x2028 || n == 0x2029 || n == 0x202F || n == 0x205F || n == 0x3000
  }

  function TrimStart(s: string): string {
    if s != [] && IsSpace(s[0]) then TrimStart(s[1..]) else s
  }

  function TrimEnd(s: string): string {
    if s != [] && IsSpace(s[|s| - 1]) then TrimEnd(s[..|s| - 1]) else s
  }

  function Trim(s: string): string {
    TrimEnd(TrimStart(s))
  }

  lemma TrimEndAfter(t: string, after: bool)
    requires t != [] && !IsSpace(t[|t| - 1])
    ensures TrimEnd(t + (if after then " " else "")) == t
  {
    assert TrimEnd(t) == t;
    if after {
      var s := t + " ";
      assert s[|s| - 1] == ' ' && s[..|s| - 1] == t;
    } else {
      assert t + "" == t;
    }
  }

  lemma TrimStartBefore(s: string, before: bool)
    requires s != [] && !IsSpace(s[0])
    ensures TrimStart((if before then " " else "") + s) == s
  {
    assert TrimStart(s) == s;
    if before {
      assert (" " + s)[0] == ' ' && (" " + s)[1..] == s;
    } else {
      assert "" + s == s;
    }
  }

  /** Text between non-spaces survives trimming of the spaces around it. */
  lemma TrimAround(t: string, before: bool, after: bool)
    requires t != [] && !IsSpace(t[0]) && !IsSpace(t[|t| - 1])
    ensures Trim((if before then " " else "") + t + (if after then " " else "")) == t
  {
    var s := t + (if after then " " else "");
    assert (if before then " " else "") + s == (if before then " " else "") + t + (if after then " " else "");
    TrimStartBefore(s, before);
    TrimEndAfter(t, after);
  }

  /** Trimming cuts spaces off the two ends and nothing else, and stops only at text. */
  lemma {:induction false} TrimEndMeans(s: string)
    ensures TrimEnd(s) <= s && (forall i :: |TrimEnd(s)| <= i < |s| ==> IsSpace(s[i]))
    ensures TrimEnd(s) != [] ==> !IsSpace(TrimEnd(s)[|TrimEnd(s)| - 1])
  {
    if s != [] && IsSpace(s[|s| - 1]) { TrimEndMeans(s[..|s| - 1]); }
  }

  lemma {:induction false} TrimStartMeans(s: string)
    ensures |TrimStart(s)| <= |s| && s[|s| - |TrimStart(s)|..] == TrimStart(s)
    ensures forall i :: 0 <= i < |s| - |TrimStart(s)| ==> IsSpace(s[i])
    ensures TrimStart(s) != [] ==> !IsSpace(TrimStart(s)[0])
  {
    if s != [] && IsSpace(s[0]) {
      var rest := s[1..];
      TrimStartMeans(rest);
      assert s[|s| - |TrimStart(s)|..] == rest[|rest| - |TrimStart(rest)|..];
      assert forall i :: 1 <= i < |s| - |TrimStart(s)| ==> s[i] == rest[i - 1];
    }
  }

  /** Tabs, line ends and no-break spaces are cut off like blanks; inner blanks stay. */
  lemma TrimDemo(s: string)
    requires s == "\t\ra b\U{00a0}\n"
    ensures Trim(s) == "a b"
  {
    var t := "a b\U{00a0}\n";
    assert s[1..] == "\ra b\U{00a0}\n" && s[1..][1..] == t;
    assert TrimStart(t) == t && TrimStart(s[1..]) == t;
    var u := "a b\U{00a0}";
    assert t[..|t| - 1] == u && u[..|u| - 1] == "a b";
    assert TrimEnd("a b") == "a b" && TrimEnd(u) == "a b";
  }
}
