/**
  The Z85 encoder of ZeroMQ RFC 32: every four bytes become five printable characters. The encoder
  fills its five characters backwards by repeated division; the reference is the decoder of the
  RFC, which reads them forwards.
 */
module Z85 {
  import opened Wrappers

  type Byte = b: int | 0 <= b < 256 witness 0

  const DIGITS := "0123456789"
  const LOWER := "abcdefghijklmnopqrstuvwxyz"
  const UPPER := "ABCDEFGHIJKLMNOPQRSTUVWXYZ"
  const MARKS := ".-:+=^!/*?&<>()[]{}@%$#"

  /** The 85 characters, in order. */
  const TABLE: string := DIGITS + LOWER + UPPER + MARKS

  // ---- the decoder of the RFC ----

  /** The first position of a character at or after `from`; the length if there is none. */
  function Find(s: string, c: char, from: nat): nat
    requires from <= |s|
    decreases |s| - from
  {
    if from == |s| || s[from] == c then from else Find(s, c, from + 1)
  }

  /** The base-85 digit a character stands for: its place in the table. */
  function DigitOf(c: char): nat {
    Find(TABLE, c, 0)
  }

  function FrameValue(s: string): int
    requires |s| == 5
  {
    (((DigitOf(s[0]) * 85 + DigitOf(s[1])) * 85 + DigitOf(s[2])) * 85 + DigitOf(s[3])) * 85 + DigitOf(s[4])
  }

  /** All characters are from the table. */
  predicate InTable(s: string) {
    forall k :: 0 <= k < |s| ==> DigitOf(s[k]) < |TABLE|
  }

  lemma {:induction false} FindIsMember(s: string, c: char, from: nat)
    requires from <= |s|
    ensures Find(s, c, from) <= |s|
    ensures Find(s, c, from) < |s| <==> c in s[from..]
    decreases |s| - from
  {
    if from < |s| {
      FindIsMember(s, c, from + 1);
      assert s[from..] == [s[from]] + s[from + 1..];
    }
  }

  lemma InTableMeans(s: string)
    ensures InTable(s) <==> forall k :: 0 <= k < |s| ==> s[k] in TABLE
  {
    assert TABLE[0..] == TABLE;
    forall k | 0 <= k < |s| ensures DigitOf(s[k]) < |TABLE| <==> s[k] in TABLE { FindIsMember(TABLE, s[k], 0); }
  }

  function BytesOf(v: int): seq<Byte>
    requires 0 <= v < 0x1_0000_0000
  {
    [v / 0x100_0000, v / 0x1_0000 % 256, v / 256 % 256, v % 256]
  }

  function Decode(s: string): Option<seq<Byte>> {
    if s == [] then Some([])
    else if |s| < 5 then None
    else
      var v := FrameValue(s[..5]);
      if !(InTable(s[..5]) && 0 <= v < 0x1_0000_0000) then None
      else
        var rest := Decode(s[5..]);
        if rest.None? then None else Some(BytesOf(v) + rest.value)
  }

  // ---- the table ----

  lemma TableSize()
    ensures |DIGITS| == 10 && |LOWER| == 26 && |UPPER| == 26 && |MARKS| == 23 && |TABLE| == 85
  {
  }

  lemma LetterRuns(i: int)
    requires 0 <= i < 26
    ensures |LOWER| == |UPPER| == 26 && |DIGITS| == 10
    ensures LOWER[i] as int == 'a' as int + i && UPPER[i] as int == 'A' as int + i
    ensures i < 10 ==> DIGITS[i] as int == '0' as int + i
  {
    match i
    case 0 => case 1 => case 2 => case 3 => case 4 => case 5 => case 6 => case 7 => case 8 =>
    case 9 => case 10 => case 11 => case 12 => case 13 => case 14 => case 15 => case 16 => case 17 =>
    case 18 => case 19 => case 20 => case 21 => case 22 => case 23 => case 24 => case 25 =>
    case _ =>
  }

  /** An arithmetic description of the table, used to see that no character occurs twice. */
  function Rank(c: char): int {
    if '0' <= c <= '9' then c as int - '0' as int
    else if 'a' <= c <= 'z' then 10 + (c as int - 'a' as int)
    else if 'A' <= c <= 'Z' then 36 + (c as int - 'A' as int)
    else match c
      case '.' => 62 case '-' => 63 case ':' => 64 case '+' => 65 case '=' => 66 case '^' => 67
      case '!' => 68 case '/' => 69 case '*' => 70 case '?' => 71 case '&' => 72 case '<' => 73
      case '>' => 74 case '(' => 75 case ')' => 76 case '[' => 77 case ']' => 78 case '{' => 79
      case '}' => 80 case '@' => 81 case '%' => 82 case '$' => 83 case '#' => 84
      case _ => 85
  }

  lemma MarkRanks(i: int)
    requires 0 <= i < 23
    ensures |MARKS| == 23 && Rank(MARKS[i]) == 62 + i
  {
    match i
    case 0 => case 1 => case 2 => case 3 => case 4 => case 5 => case 6 => case 7 =>
    case 8 => case 9 => case 10 => case 11 => case 12 => case 13 => case 14 => case 15 =>
    case 16 => case 17 => case 18 => case 19 => case 20 => case 21 => case 22 =>
    case _ =>
  }

  lemma TableRanks(i: int)
    requires 0 <= i < 85
    ensures |TABLE| == 85 && Rank(TABLE[i]) == i
  {
    TableSize();
    if i < 10 {
      LetterRuns(i);
      assert TABLE[i] == DIGITS[i];
    } else if i < 36 {
      LetterRuns(i - 10);
      assert TABLE[i] == LOWER[i - 10];
    } else if i < 62 {
      LetterRuns(i - 36);
      assert TABLE[i] == UPPER[i - 36];
    } else {
      MarkRanks(i - 62);
      assert TABLE[i] == MARKS[i - 62];
    }
  }

  lemma TableInjective(i: int, j: int)
    requires 0 <= i < j < 85
    ensures |TABLE| == 85 && TABLE[i] != TABLE[j]
  {
    TableRanks(i);
    TableRanks(j);
  }

  lemma {:induction false} FindFirst(s: string, i: nat, from: nat)
    requires from <= i < |s| && forall k :: from <= k < i ==> s[k] != s[i]
    ensures Find(s, s[i], from) == i
    decreases i - from
  {
    if from < i { FindFirst(s, i, from + 1); }
  }

  /** The decoder inverts the table. */
  lemma TableInverse(i: nat)
    requires i < 85
    ensures |TABLE| == 85 && DigitOf(TABLE[i]) == i
  {
    TableSize();
    forall k | 0 <= k < i ensures TABLE[k] != TABLE[i] { TableInjective(k, i); }
    FindFirst(TABLE, i, 0);
  }

  // ---- the encoder ----

  function ValueOf(chunk: seq<Byte>): int
    requires |chunk| == 4
  {
    ((chunk[0] as int * 256 + chunk[1] as int) * 256 + chunk[2] as int) * 256 + chunk[3] as int
  }

  lemma ValueRange(chunk: seq<Byte>)
    requires |chunk| == 4
    ensures 0 <= ValueOf(chunk) < 0x1_0000_0000
    ensures BytesOf(ValueOf(chunk)) == chunk
  {
    var a: int, b: int, c: int, d: int := chunk[0], chunk[1], chunk[2], chunk[3];
    SplitByte(a * 256 * 256 + b * 256 + c, d);
    SplitByte(a * 256 + b, c);
    SplitByte(a, b);
    var v := ValueOf(chunk);
    assert v == (a * 256 * 256 + b * 256 + c) * 256 + d;
    assert v / 256 == a * 256 * 256 + b * 256 + c == (a * 256 + b) * 256 + c;
    assert v / 0x1_0000 == v / 256 / 256 == a * 256 + b;
    assert v / 0x100_0000 == v / 256 / 256 / 256 == a;
    assert chunk == [a, b, c, d];
  }

  lemma SplitByte(q: int, r: int)
    requires q >= 0 && 0 <= r < 256
    ensures (q * 256 + r) / 256 == q && (q * 256 + r) % 256 == r
  {
  }

  /** What is left of `v` after dividing by 85 `k` times. */
  function Shifted(v: int, k: nat): int
    requires v >= 0
  {
    if k == 0 then v else Shifted(v, k - 1) / 85
  }

  lemma ShiftedBase(v: int)
    requires 0 <= v < 0x1_0000_0000
    ensures Shifted(v, 5) == 0
    ensures v == (((Shifted(v, 4) % 85 * 85 + Shifted(v, 3) % 85) * 85 + Shifted(v, 2) % 85) * 85 + Shifted(v, 1) % 85) * 85 + v % 85
  {
    var v1 := v / 85; var v2 := v1 / 85; var v3 := v2 / 85; var v4 := v3 / 85;
    assert Shifted(v, 0) == v && Shifted(v, 1) == v1 && Shifted(v, 2) == v2;
    assert Shifted(v, 3) == v3 && Shifted(v, 4) == v4;
    assert v == v1 * 85 + v % 85 && v1 == v2 * 85 + v1 % 85 && v2 == v3 * 85 + v2 % 85 && v3 == v4 * 85 + v3 % 85;
    assert v1 <= 50529027 && v2 <= 594459 && v3 <= 6993 && v4 <= 82;
  }

  /** One frame: the five characters are filled from the last to the first. */
  method EncodeFrame(chunk: seq<Byte>) returns (chars: seq<char>)
    requires |chunk| == 4
    ensures |chars| == 5 && InTable(chars) && FrameValue(chars) == ValueOf(chunk)
  {
    ValueRange(chunk);
    TableSize();
    var frame := new char[5](_ => '0');
    ghost var v := ValueOf(chunk);
    var left := ((chunk[0] as int * 256 + chunk[1] as int) * 256 + chunk[2] as int) * 256 + chunk[3] as int;
    var i := 5;
    while i > 0
      invariant 0 <= i <= 5 && left >= 0
      invariant left == Shifted(v, 5 - i)
      invariant forall k :: i <= k < 5 ==> frame[k] == TABLE[Shifted(v, 4 - k) % 85]
    {
      i := i - 1;
      frame[i] := TABLE[left % 85];
      left := left / 85;
    }
    chars := frame[..];
    FrameRight(chars, v);
  }

  lemma FrameRight(chars: string, v: int)
    requires 0 <= v < 0x1_0000_0000 && |chars| == 5 && |TABLE| == 85
    requires forall k :: 0 <= k < 5 ==> chars[k] == TABLE[Shifted(v, 4 - k) % 85]
    ensures InTable(chars) && FrameValue(chars) == v
  {
    forall k | 0 <= k < 5 ensures DigitOf(chars[k]) == Shifted(v, 4 - k) % 85 {
      TableInverse(Shifted(v, 4 - k) % 85);
    }
    ShiftedBase(v);
  }

  /**
    `z85::encode`: a length that is no multiple of four panics; otherwise the text is 5/4 as long, is
    made of table characters, and the decoder of the RFC recovers the bytes.
   */
  method Encode(bytes: seq<Byte>) returns (r: Option<string>)
    ensures r.None? <==> |bytes| % 4 != 0
    ensures r.Some? ==> Encodes(r.value, bytes)
  {
    if |bytes| % 4 != 0 {
      return None;
    }
    var buf: string := "";
    var n := 0;
    while n < |bytes|
      invariant 0 <= n <= |bytes| && (|bytes| - n) % 4 == 0
      invariant Encodes(buf, bytes[..n])
    {
      var chunk := bytes[n..n + 4];
      var chars := EncodeFrame(chunk);
      EncodesStep(buf, chars, bytes[..n], chunk);
      assert bytes[..n] + chunk == bytes[..n + 4];
      buf := buf + chars;
      n := n + 4;
    }
    assert bytes[..n] == bytes;
    r := Some(buf);
  }

  /** `buf` is a right text for `bytes`. */
  ghost predicate Encodes(buf: string, bytes: seq<Byte>) {
    4 * |buf| == 5 * |bytes| && InTable(buf) && Decode(buf) == Some(bytes)
  }

  lemma EncodesStep(buf: string, chars: string, done: seq<Byte>, chunk: seq<Byte>)
    requires Encodes(buf, done) && |chunk| == 4
    requires |chars| == 5 && InTable(chars) && FrameValue(chars) == ValueOf(chunk)
    ensures Encodes(buf + chars, done + chunk)
  {
    ExtendText(buf, chars);
    Extend(buf, chars, done, chunk);
  }

  lemma ExtendText(buf: string, chars: string)
    requires InTable(buf) && InTable(chars)
    ensures InTable(buf + chars)
  {
  }

  lemma Extend(buf: string, chars: string, done: seq<Byte>, chunk: seq<Byte>)
    requires |buf| % 5 == 0 && Decode(buf) == Some(done) && |chunk| == 4
    requires |chars| == 5 && InTable(chars) && FrameValue(chars) == ValueOf(chunk)
    ensures Decode(buf + chars) == Some(done + chunk)
  {
    ValueRange(chunk);
    DecodeSnoc(buf, chars, done);
  }

  lemma {:induction false} DecodeSnoc(s: string, frame: string, bytes: seq<Byte>)
    requires |s| % 5 == 0 && |frame| == 5 && Decode(s) == Some(bytes)
    requires InTable(frame) && 0 <= FrameValue(frame) < 0x1_0000_0000
    ensures Decode(s + frame) == Some(bytes + BytesOf(FrameValue(frame)))
  {
    if s == [] {
      assert s + frame == frame && frame[..5] == frame && frame[5..] == [];
      assert Decode([]) == Some([]);
      assert BytesOf(FrameValue(frame)) + [] == bytes + BytesOf(FrameValue(frame));
    } else {
      var all := s + frame;
      assert all[..5] == s[..5] && all[5..] == s[5..] + frame;
      var rest := Decode(s[5..]).value;
      DecodeSnoc(s[5..], frame, rest);
      var head := BytesOf(FrameValue(s[..5]));
      assert head + (rest + BytesOf(FrameValue(frame))) == (head + rest) + BytesOf(FrameValue(frame));
    }
  }

  // ---- the test case of the RFC ----

  lemma LetterDigits(i: nat)
    requires i < 26
    ensures |LOWER| == |UPPER| == 26 && DigitOf(LOWER[i]) == 10 + i && DigitOf(UPPER[i]) == 36 + i
  {
    TableSize();
    TableInverse(10 + i);
    TableInverse(36 + i);
    assert TABLE[10 + i] == LOWER[i] && TABLE[36 + i] == UPPER[i];
  }

  lemma LowerDigit(c: char)
    requires 'a' <= c <= 'z'
    ensures DigitOf(c) == 10 + (c as int - 'a' as int)
  {
    var i := c as int - 'a' as int;
    LetterRuns(i);
    LetterDigits(i);
    assert LOWER[i] == c;
  }

  lemma UpperDigit(c: char)
    requires 'A' <= c <= 'Z'
    ensures DigitOf(c) == 36 + (c as int - 'A' as int)
  {
    var i := c as int - 'A' as int;
    LetterRuns(i);
    LetterDigits(i);
    assert UPPER[i] == c;
  }

  lemma FrameOf(s: string, d: seq<nat>)
    requires |s| == |d| == 5 && forall k :: 0 <= k < 5 ==> DigitOf(s[k]) == d[k] < 85
    ensures InTable(s) && FrameValue(s) == (((d[0] * 85 + d[1]) * 85 + d[2]) * 85 + d[3]) * 85 + d[4]
  {
    TableSize();
  }

  lemma HelloFrame(s: string)
    requires s == "Hello"
    ensures InTable(s) && FrameValue(s) == 0x864F_D26F
  {
    UpperDigit('H'); LowerDigit('e'); LowerDigit('l'); LowerDigit('o');
    FrameOf(s, [43, 14, 21, 21, 24]);
  }

  lemma WorldFrame(s: string)
    requires s == "World"
    ensures InTable(s) && FrameValue(s) == 0xB559_F75B
  {
    UpperDigit('W'); LowerDigit('o'); LowerDigit('r'); LowerDigit('l'); LowerDigit('d');
    FrameOf(s, [58, 24, 27, 21, 13]);
  }

  lemma TwoFrames(a: string, b: string, x: int, y: int, bytes: seq<Byte>)
    requires |a| == |b| == 5 && InTable(a) && InTable(b) && FrameValue(a) == x && FrameValue(b) == y
    requires 0 <= x < 0x1_0000_0000 && 0 <= y < 0x1_0000_0000 && bytes == BytesOf(x) + BytesOf(y)
    ensures Decode(a + b) == Some(bytes)
  {
    DecodeSnoc("", a, []);
    assert "" + a == a && [] + BytesOf(x) == BytesOf(x);
    DecodeSnoc(a, b, BytesOf(x));
  }

  lemma HelloBytes()
    ensures BytesOf(0x864F_D26F) == [0x86, 0x4F, 0xD2, 0x6F]
    ensures BytesOf(0xB559_F75B) == [0xB5, 0x59, 0xF7, 0x5B]
  {
  }

  /** The text and the bytes of the test case: the decoder reads the most significant digit and byte first. */
  lemma HelloWorld(a: string, b: string, bytes: seq<Byte>)
    requires a == "Hello" && b == "World" && bytes == [0x86, 0x4F, 0xD2, 0x6F] + [0xB5, 0x59, 0xF7, 0x5B]
    ensures Decode(a + b) == Some(bytes)
  {
    HelloFrame(a);
    WorldFrame(b);
    HelloBytes();
    TwoFrames(a, b, 0x864F_D26F, 0xB559_F75B, bytes);
  }
}
