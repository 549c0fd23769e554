/**
  `read_line` over a buffered reader that hands out its bytes in chunks, may be interrupted, may
  fail, and signals the end of input by an empty chunk.
 */
module ReadLine {
  import opened Wrappers

  newtype byte = x: int | 0 <= x < 256

  const LF: byte := 10
  const CR: byte := 13

  /** What one call of `fill_buf` on an empty buffer brings. */
  datatype Fill = Chunk(bytes: seq<byte>) | Interrupted | Failed(code: int)

  datatype Outcome = Ok(read: nat) | Err(code: int)

  /** `memchr`: the first place of a byte. */
  function Find(c: byte, s: seq<byte>): (r: Option<nat>)
    ensures r.None? ==> c !in s
    ensures r.Some? ==> r.value < |s| && s[r.value] == c && c !in s[..r.value]
  {
    if s == [] then None
    else if s[0] == c then Some(0)
    else
      match Find(c, s[1..])
      case None => None
      case Some(i) =>
        assert s[..i + 1] == [s[0]] + s[1..][..i];
        Some(i + 1)
  }

  /** The length of the part of a chunk that completes the line, if any does. */
  function LineEnd(chunk: seq<byte>): (r: Option<nat>)
    ensures r.None? ==> LF !in chunk && CR !in chunk
    ensures r.Some? ==> 0 < r.value <= |chunk| && chunk[r.value - 1] in {LF, CR} && LF !in chunk[..r.value - 1]
  {
    match Find(LF, chunk)
    case Some(i) => Some(i + 1)
    case None =>
      match Find(CR, chunk)
      case Some(i) => Some(i + 1)
      case None => None
  }

  // ---- the stream a reader stands for ----

  /** The bytes up to the next end of input or failure. */
  ghost function Stream(buffered: seq<byte>, script: seq<Fill>): seq<byte>
    decreases |script|
  {
    if script == [] then buffered else
      match script[0]
      case Chunk(c) => if c == [] then buffered else buffered + Stream(c, script[1..])
      case Interrupted => buffered + Stream([], script[1..])
      case Failed(_) => buffered
  }

  /** The failure in which that stream ends, if it does. */
  ghost function Failure(script: seq<Fill>): Option<int> {
    if script == [] then None else
      match script[0]
      case Chunk(c) => if c == [] then None else Failure(script[1..])
      case Interrupted => Failure(script[1..])
      case Failed(code) => Some(code)
  }

  /** The line a call takes off the reader. */
  ghost function Line(buffered: seq<byte>, script: seq<Fill>): seq<byte>
    decreases |script|, |buffered|
  {
    if buffered != [] then
      match LineEnd(buffered)
      case Some(end) => buffered[..end]
      case None => buffered + Line([], script)
    else if script == [] then []
    else
      match script[0]
      case Chunk(c) => if c == [] then [] else Line(c, script[1..])
      case Interrupted => Line([], script[1..])
      case Failed(_) => []
  }

  ghost predicate Terminated(line: seq<byte>) {
    line != [] && line[|line| - 1] in {LF, CR}
  }

  lemma StreamBuffered(buffered: seq<byte>, script: seq<Fill>)
    ensures Stream(buffered, script) == buffered + Stream([], script)
  {
  }

  /** A line is a prefix of the stream, has no newline before its last byte, and is cut short only by a terminator. */
  lemma {:induction false} LineShape(buffered: seq<byte>, script: seq<Fill>)
    ensures Line(buffered, script) <= Stream(buffered, script)
    ensures var line := Line(buffered, script); line != [] ==> LF !in line[..|line| - 1]
    ensures !Terminated(Line(buffered, script)) ==> Line(buffered, script) == Stream(buffered, script)
    decreases |script|, |buffered|
  {
    if buffered != [] {
      StreamBuffered(buffered, script);
      if LineEnd(buffered).None? {
        LineShape([], script);
        var rest := Line([], script);
        var line := buffered + rest;
        if rest != [] { assert line[..|line| - 1] == buffered + rest[..|rest| - 1]; }
      }
    } else if script != [] {
      match script[0]
      case Chunk(c) => if c != [] { LineShape(c, script[1..]); }
      case Interrupted => LineShape([], script[1..]);
      case Failed(_) =>
    }
  }

  // ---- the reader and the call ----

  /** What `fill_buf` returns and how much of the script it uses up. */
  ghost predicate Filled(b: seq<byte>, script: seq<Fill>, fill: Fill, script': seq<Fill>) {
    if b != [] || script == [] then fill == Chunk(b) && script' == script
    else fill == script[0] && script' == script[1..]
  }

  class Reader {
    var buffered: seq<byte>
    var script: seq<Fill>

    constructor (script: seq<Fill>)
      ensures this.buffered == [] && this.script == script
    {
      this.buffered, this.script := [], script;
    }

    /** `fill_buf`: the buffered bytes, refilled if there are none. */
    method FillBuf() returns (fill: Fill)
      modifies this
      ensures Filled(old(buffered), old(script), fill, script)
      ensures buffered == if fill.Chunk? then fill.bytes else []
    {
      if buffered != [] || script == [] {
        fill := Chunk(buffered);
      } else {
        fill := script[0];
        script := script[1..];
        if fill.Chunk? { buffered := fill.bytes; }
      }
    }

    method Consume(used: nat)
      requires used <= |buffered|
      modifies this`buffered
      ensures buffered == old(buffered)[used..]
    {
      buffered := buffered[used..];
    }
  }

  class ByteVec {
    var bytes: seq<byte>
  }

  /** Between two fills: what was taken is unterminated, and the reader holds the rest of line and stream. */
  ghost predicate Ahead(line: seq<byte>, stream: seq<byte>, taken: seq<byte>, lineLeft: seq<byte>, streamLeft: seq<byte>) {
    line == taken + lineLeft && stream == taken + streamLeft && LF !in taken && CR !in taken
  }

  lemma AheadNone(line: seq<byte>, stream: seq<byte>, taken: seq<byte>)
    requires Ahead(line, stream, taken, [], [])
    ensures taken == line == stream && !Terminated(line)
  {
    assert taken == line;
  }

  lemma AheadMore(line: seq<byte>, stream: seq<byte>, taken: seq<byte>, piece: seq<byte>, lineLeft: seq<byte>, streamLeft: seq<byte>)
    requires Ahead(line, stream, taken, piece + lineLeft, piece + streamLeft)
    requires LF !in piece && CR !in piece
    ensures Ahead(line, stream, taken + piece, lineLeft, streamLeft)
  {
    assert taken + (piece + lineLeft) == taken + piece + lineLeft;
    assert taken + (piece + streamLeft) == taken + piece + streamLeft;
  }

  lemma AheadEnd(line: seq<byte>, stream: seq<byte>, taken: seq<byte>, b: seq<byte>, end: nat, streamLeft: seq<byte>)
    requires end <= |b| && Terminated(b[..end])
    requires Ahead(line, stream, taken, b[..end], b + streamLeft)
    ensures line == taken + b[..end] && Terminated(line) && stream == line + (b[end..] + streamLeft)
  {
    assert b == b[..end] + b[end..];
    assert line[|line| - 1] == b[..end][end - 1];
    assert taken + (b[..end] + b[end..] + streamLeft) == taken + b[..end] + (b[end..] + streamLeft);
  }

  ghost predicate AheadOf(line: seq<byte>, stream: seq<byte>, failure: Option<int>, taken: seq<byte>, b: seq<byte>, script: seq<Fill>) {
    Ahead(line, stream, taken, Line(b, script), Stream(b, script)) && failure == Failure(script)
  }

  /** A refill does not change what the reader stands for; an empty chunk or a failure is met only at its end. */
  lemma FillAhead(line: seq<byte>, stream: seq<byte>, failure: Option<int>, taken: seq<byte>,
                  b: seq<byte>, script: seq<Fill>, fill: Fill, script': seq<Fill>)
    requires AheadOf(line, stream, failure, taken, b, script) && Filled(b, script, fill, script')
    ensures fill.Interrupted? ==> AheadOf(line, stream, failure, taken, [], script') && |script'| < |script|
    ensures fill.Failed? ==> taken == line == stream && !Terminated(line) && failure == Some(fill.code)
    ensures fill == Chunk([]) ==> taken == line == stream && !Terminated(line) && failure == None
    ensures fill.Chunk? && fill.bytes != [] ==>
              AheadOf(line, stream, failure, taken, fill.bytes, script') && (b == fill.bytes || |script'| < |script|)
  {
    if b == [] && script != [] {
      var c := if script[0].Chunk? then script[0].bytes else [];
      assert [] + Stream(c, script[1..]) == Stream(c, script[1..]);
    }
    if fill.Failed? || fill == Chunk([]) { AheadNone(line, stream, taken); }
  }

  /** Taking a chunk's share of the line completes the line, or leaves the rest of it in the reader. */
  lemma TakeAhead(line: seq<byte>, stream: seq<byte>, failure: Option<int>, taken: seq<byte>, b: seq<byte>, script: seq<Fill>)
    requires b != [] && AheadOf(line, stream, failure, taken, b, script)
    ensures match LineEnd(b)
            case None => AheadOf(line, stream, failure, taken + b, [], script)
            case Some(end) => line == taken + b[..end] && Terminated(line) && stream == line + Stream(b[end..], script)
  {
    StreamBuffered(b, script);
    match LineEnd(b)
    case None =>
      AheadMore(line, stream, taken, b, Line([], script), Stream([], script));
    case Some(end) =>
      StreamBuffered(b[end..], script);
      AheadEnd(line, stream, taken, b, end, Stream([], script));
  }

  lemma AppendAssociative(whole: seq<byte>, before: seq<byte>, taken: seq<byte>, piece: seq<byte>)
    requires whole == before + taken
    ensures whole + piece == before + (taken + piece)
  {
  }

  /** A complete line leaves the rest of the stream; an incomplete one is all of it, and a failure is the stream's own. */
  ghost predicate LineResult(line: seq<byte>, stream: seq<byte>, failure: Option<int>, result: Outcome,
                             streamLeft: seq<byte>, failureLeft: Option<int>)
  {
    && (result.Ok? ==> result.read == |line|)
    && (if Terminated(line)
        then result.Ok? && stream == line + streamLeft && failureLeft == failure
        else line == stream && (match failure case None => result.Ok? case Some(code) => result == Err(code)))
  }

  /**
    Appends exactly the line to the buffer. On success the count is its length and the reader is left
    just behind it; a failure is the one in which the stream ends, and what came before it is kept.
   */
  method ReadLineInto(r: Reader, buf: ByteVec) returns (result: Outcome)
    modifies r, buf
    ensures buf.bytes == old(buf.bytes) + old(Line(r.buffered, r.script))
    ensures LineResult(old(Line(r.buffered, r.script)), old(Stream(r.buffered, r.script)), old(Failure(r.script)), result,
                       Stream(r.buffered, r.script), Failure(r.script))
  {
    ghost var line, stream, failure := Line(r.buffered, r.script), Stream(r.buffered, r.script), Failure(r.script);
    ghost var taken: seq<byte> := [];
    assert [] + line == line && [] + stream == stream;
    var read := 0;
    while true
      invariant read == |taken| && buf.bytes == old(buf.bytes) + taken
      invariant AheadOf(line, stream, failure, taken, r.buffered, r.script)
      decreases |r.script|, |r.buffered|
    {
      ghost var b, script := r.buffered, r.script;
      var available := r.FillBuf();
      FillAhead(line, stream, failure, taken, b, script, available, r.script);
      match available
      case Interrupted =>
      case Failed(code) => return Err(code);
      case Chunk(bytes) =>
        var end := LineEnd(bytes);
        var done, used := end.Some?, if end.Some? then end.value else |bytes|;
        ghost var piece := bytes[..used];
        if bytes == [] {
          assert taken + piece == taken;
        } else {
          TakeAhead(line, stream, failure, taken, bytes, r.script);
          assert end.None? ==> piece == bytes && bytes[used..] == [];
        }
        AppendAssociative(buf.bytes, old(buf.bytes), taken, piece);
        buf.bytes := buf.bytes + bytes[..used];
        r.Consume(used);
        taken := taken + piece;
        read := read + used;
        if done || used == 0 {
          return Ok(read);
        }
    }
  }

  // ---- the chunks ----

  /** No carriage return stands before the first newline; a stream without newline qualifies too. */
  ghost predicate NoReturnBefore(s: seq<byte>) {
    match Find(LF, s)
    case None => true
    case Some(i) => CR !in s[..i]
  }

  /** The line of such a stream: up to its newline, else up to its carriage return, else all of it. */
  ghost function OneLine(s: seq<byte>): seq<byte> {
    match LineEnd(s)
    case Some(end) => s[..end]
    case None => s
  }

  lemma FindIs(c: byte, s: seq<byte>, i: nat)
    requires i < |s| && s[i] == c && c !in s[..i]
    ensures Find(c, s) == Some(i)
  {
    assert forall j :: i < j <= |s| ==> s[..j][i] == c;
    assert forall j :: 0 <= j < i ==> s[..i][j] == s[j];
  }

  lemma FindAppend(c: byte, a: seq<byte>, b: seq<byte>)
    ensures Find(c, a + b) ==
            match Find(c, a)
            case Some(i) => Some(i)
            case None => match Find(c, b) case Some(i) => Some(|a| + i) case None => None
  {
    match Find(c, a)
    case Some(i) =>
      assert (a + b)[..i] == a[..i];
      FindIs(c, a + b, i);
    case None =>
      match Find(c, b)
      case Some(i) =>
        assert (a + b)[..|a| + i] == a + b[..i];
        FindIs(c, a + b, |a| + i);
      case None =>
        assert c !in a + b;
  }

  /** A first chunk without terminator shifts where the line of the whole stream ends. */
  lemma LineEndAppend(a: seq<byte>, rest: seq<byte>)
    requires LineEnd(a).None?
    ensures LineEnd(a + rest) == match LineEnd(rest) case Some(end) => Some(|a| + end) case None => None
  {
    FindAppend(LF, a, rest);
    FindAppend(CR, a, rest);
    NoTerminator(a);
    LineEndFrom(a + rest, Find(LF, a + rest), Find(CR, a + rest));
    LineEndFrom(rest, Find(LF, rest), Find(CR, rest));
  }

  lemma NoTerminator(a: seq<byte>)
    ensures LineEnd(a).None? <==> Find(LF, a).None? && Find(CR, a).None?
  {
  }

  lemma LineEndFrom(s: seq<byte>, lf: Option<nat>, cr: Option<nat>)
    requires Find(LF, s) == lf && Find(CR, s) == cr
    ensures LineEnd(s) == if lf.Some? then Some(lf.value + 1) else if cr.Some? then Some(cr.value + 1) else None
  {
  }

  lemma ReturnAppend(a: seq<byte>, rest: seq<byte>)
    requires NoReturnBefore(a + rest) && LineEnd(a).None?
    ensures NoReturnBefore(rest)
  {
    FindAppend(LF, a, rest);
    if Find(LF, rest).Some? {
      var i := Find(LF, rest).value;
      assert (a + rest)[..|a| + i] == a + rest[..i];
    }
  }

  /** A first chunk that does not end the line only moves the question to the rest. */
  lemma PlainAppend(a: seq<byte>, rest: seq<byte>)
    requires NoReturnBefore(a + rest) && LineEnd(a).None?
    ensures NoReturnBefore(rest) && OneLine(a + rest) == a + OneLine(rest)
  {
    ReturnAppend(a, rest);
    LineEndAppend(a, rest);
    if LineEnd(rest).Some? {
      var end := LineEnd(rest).value;
      assert (a + rest)[..|a| + end] == a + rest[..end];
    }
  }

  /** One that ends it ends the line of the whole stream. */
  lemma PlainEnd(a: seq<byte>, rest: seq<byte>)
    requires NoReturnBefore(a + rest) && LineEnd(a).Some?
    ensures OneLine(a + rest) == a[..LineEnd(a).value]
  {
    var end := LineEnd(a).value;
    if Find(LF, a).None? && Find(LF, rest).Some? {
      ReturnTooEarly(a, rest);
    } else {
      FindAppend(LF, a, rest);
      FindAppend(CR, a, rest);
      assert LineEnd(a + rest) == Some(end);
      assert (a + rest)[..end] == a[..end];
    }
  }

  lemma ReturnTooEarly(a: seq<byte>, rest: seq<byte>)
    requires Find(LF, a).None? && Find(CR, a).Some? && Find(LF, rest).Some?
    ensures !NoReturnBefore(a + rest)
  {
    FindAppend(LF, a, rest);
    assert (a + rest)[..|a| + Find(LF, rest).value][Find(CR, a).value] == CR;
  }

  lemma {:induction false} PlainLine(buffered: seq<byte>, script: seq<Fill>)
    requires NoReturnBefore(Stream(buffered, script))
    ensures Line(buffered, script) == OneLine(Stream(buffered, script))
    decreases |script|, |buffered|
  {
    if buffered != [] {
      StreamBuffered(buffered, script);
      if LineEnd(buffered).None? {
        PlainAppend(buffered, Stream([], script));
        PlainLine([], script);
      } else {
        PlainEnd(buffered, Stream([], script));
      }
    } else if script != [] {
      var c := if script[0].Chunk? then script[0].bytes else [];
      assert [] + Stream(c, script[1..]) == Stream(c, script[1..]);
      if script[0].Interrupted? || c != [] { PlainLine(c, script[1..]); }
    }
  }

  function WithoutInterrupts(script: seq<Fill>): seq<Fill> {
    if script == [] then []
    else if script[0].Interrupted? then WithoutInterrupts(script[1..])
    else [script[0]] + WithoutInterrupts(script[1..])
  }

  /** Interrupts change neither the line nor the stream nor the failure. */
  lemma {:induction false} InterruptsDoNotMatter(buffered: seq<byte>, script: seq<Fill>)
    ensures Line(buffered, WithoutInterrupts(script)) == Line(buffered, script)
    ensures Stream(buffered, WithoutInterrupts(script)) == Stream(buffered, script)
    ensures Failure(WithoutInterrupts(script)) == Failure(script)
    decreases |script|, |buffered|
  {
    StreamBuffered(buffered, script);
    StreamBuffered(buffered, WithoutInterrupts(script));
    if buffered != [] {
      InterruptsDoNotMatter([], script);
    } else if script != [] {
      var c := if script[0].Chunk? then script[0].bytes else [];
      InterruptsDoNotMatter(c, script[1..]);
      InterruptsDoNotMatter([], script[1..]);
      assert [] + Stream([], script[1..]) == Stream([], script[1..]);
      if !script[0].Interrupted? {
        var rest := WithoutInterrupts(script[1..]);
        assert ([script[0]] + rest)[1..] == rest;
      }
    }
  }

  ghost predicate SameLine(s: seq<byte>) {
    forall b, script, b', script' ::
      Stream(b, script) == s && Stream(b', script') == s ==> Line(b, script) == Line(b', script')
  }

  /** The stream in one chunk, and cut behind its first carriage return. */
  lemma TwoChunkings(s: seq<byte>, i: nat, j: nat)
    requires Find(LF, s) == Some(i) && Find(CR, s[..i]) == Some(j)
    ensures Stream(s, []) == s && Stream(s[..j + 1], [Chunk(s[j + 1..])]) == s
    ensures Line(s, []) == s[..i + 1] && Line(s[..j + 1], [Chunk(s[j + 1..])]) == s[..j + 1]
  {
    assert [Chunk(s[j + 1..])][1..] == [];
    assert i >= j + 1 && s[j + 1..] != [];
    assert s == s[..j + 1] + s[j + 1..];
    var head := s[..j + 1];
    assert head[j] == CR && LF !in head by { assert head == s[..i][..j + 1]; }
    assert head[..j] == s[..i][..j];
    assert Find(CR, head) == Some(j);
    assert LineEnd(head) == Some(j + 1);
  }

  /** The line depends on the chunks exactly if a carriage return stands before the first newline. */
  lemma ChunksDoNotMatterIff(s: seq<byte>)
    ensures SameLine(s) <==> NoReturnBefore(s)
  {
    if NoReturnBefore(s) {
      forall b, script, b', script' | Stream(b, script) == s && Stream(b', script') == s
        ensures Line(b, script) == Line(b', script')
      {
        PlainLine(b, script);
        PlainLine(b', script');
      }
    } else {
      var i := Find(LF, s).value;
      var j := Find(CR, s[..i]).value;
      TwoChunkings(s, i, j);
    }
  }

  /** `a\rb\n` in one chunk is one line; cut behind the carriage return, the line ends there. */
  lemma DemoLines(s: seq<byte>)
    requires s == [97, 0x0D, 98, 0x0A]
    ensures Line(s, []) == s && Line(s[..2], [Chunk(s[2..])]) == s[..2]
  {
    assert s[..3] == [97, 0x0D, 98] && s[..1] == [97];
    FindIs(0x0A, s, 3);
    assert s[..3][..1] == [97];
    FindIs(0x0D, s[..3], 1);
    TwoChunkings(s, 3, 1);
    assert s[..4] == s;
  }
}
