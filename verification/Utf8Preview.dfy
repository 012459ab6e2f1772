/**
 Reading a byte window of a UTF-8 file: the decoder of a chunk that may begin
 and end inside a code point, and the preview built on it.

 The encoding is the one of RFC 3629, section 3; `Classify` is its syntax table
 (section 4) applied to the front of a byte string.
*/
module Utf8Preview {
  import opened Wrappers

  type Byte = b: int | 0 <= b < 256

  /** A Unicode scalar value. */
  type CodePoint = c: int | 0 <= c < 0xD800 || 0xE000 <= c < 0x110000

  // --------------------------------------------------------------- encoding

  function Trail(v: int): Byte {
    0x80 + v % 64
  }

  function Encode(c: CodePoint): (s: seq<Byte>)
    ensures 1 <= |s| <= 4
  {
    if c < 0x80 then [c]
    else if c < 0x800 then [0xC0 + c / 64, Trail(c)]
    else if c < 0x10000 then [0xE0 + c / 4096, Trail(c / 64), Trail(c)]
    else [0xF0 + c / 262144, Trail(c / 4096), Trail(c / 64), Trail(c)]
  }

  function EncodeAll(cs: seq<CodePoint>): seq<Byte> {
    if cs == [] then [] else Encode(cs[0]) + EncodeAll(cs[1..])
  }

  predicate IsTrail(b: Byte) {
    0x80 <= b <= 0xBF
  }

  // --------------------------------------------------------------- decoding

  function Join2(a: int, b: int): int {
    (a - 0xC0) * 64 + (b - 0x80)
  }

  function Join3(a: int, b: int, c: int): int {
    (a - 0xE0) * 4096 + (b - 0x80) * 64 + (c - 0x80)
  }

  function Join4(a: int, b: int, c: int, d: int): int {
    (a - 0xF0) * 262144 + (b - 0x80) * 4096 + (c - 0x80) * 64 + (d - 0x80)
  }

  datatype Head = Scalar(c: CodePoint, n: nat) | Incomplete | Invalid

  /** Which second bytes may follow a lead byte of three or four bytes. */
  predicate Second(lead: Byte, b: Byte) {
    && IsTrail(b)
    && (lead == 0xE0 ==> b >= 0xA0) && (lead == 0xED ==> b < 0xA0)
    && (lead == 0xF0 ==> b >= 0x90) && (lead == 0xF4 ==> b < 0x90)
  }

  /** What the front of a non-empty byte string is, decided as early as possible. */
  function Classify(s: seq<Byte>): Head
    requires s != []
  {
    var b := s[0];
    if b < 0x80 then Scalar(b, 1)
    else if b < 0xC2 || b > 0xF4 then Invalid
    else if |s| < 2 then Incomplete
    else if b < 0xE0 then (if IsTrail(s[1]) then Scalar(Join2(b, s[1]), 2) else Invalid)
    else if !Second(b, s[1]) then Invalid
    else if |s| < 3 then Incomplete
    else if !IsTrail(s[2]) then Invalid
    else if b < 0xF0 then Scalar(Join3(b, s[1], s[2]), 3)
    else if |s| < 4 then Incomplete
    else if !IsTrail(s[3]) then Invalid
    else Scalar(Join4(b, s[1], s[2], s[3]), 4)
  }

  /** The strict incremental decoder given one chunk. */
  function Decode(s: seq<Byte>, final: bool): Option<seq<CodePoint>> {
    if s == [] then Some([])
    else match Classify(s)
      case Invalid => None
      case Incomplete => if final then None else Some([])
      case Scalar(c, n) =>
        match Decode(s[n..], final)
        case None => None
        case Some(cs) => Some([c] + cs)
  }

  // ------------------------------------------- the decoder inverts RFC 3629

  lemma JoinEncoded(c: CodePoint)
    ensures 0x80 <= c < 0x800 ==> Join2(Encode(c)[0], Encode(c)[1]) == c
    ensures 0x800 <= c < 0x10000 ==> Join3(Encode(c)[0], Encode(c)[1], Encode(c)[2]) == c
    ensures c >= 0x10000 ==> Join4(Encode(c)[0], Encode(c)[1], Encode(c)[2], Encode(c)[3]) == c
  {
    assert c / 64 / 64 == c / 4096 && c / 4096 / 64 == c / 262144;
  }

  lemma EncodeJoin2(a: Byte, b: Byte)
    requires 0xC2 <= a < 0xE0 && IsTrail(b)
    ensures 0x80 <= Join2(a, b) < 0x800 && Encode(Join2(a, b)) == [a, b]
  {
  }

  lemma EncodeJoin3(a: Byte, b: Byte, c: Byte)
    requires 0xE0 <= a < 0xF0 && Second(a, b) && IsTrail(c)
    ensures 0x800 <= Join3(a, b, c) < 0x10000 && !(0xD800 <= Join3(a, b, c) < 0xE000)
    ensures Encode(Join3(a, b, c)) == [a, b, c]
  {
    var v := Join3(a, b, c);
    assert v / 64 == (a - 0xE0) * 64 + (b - 0x80);
    assert v / 4096 == a - 0xE0;
  }

  lemma EncodeJoin4(a: Byte, b: Byte, c: Byte, d: Byte)
    requires 0xF0 <= a <= 0xF4 && Second(a, b) && IsTrail(c) && IsTrail(d)
    ensures 0x10000 <= Join4(a, b, c, d) < 0x110000 && Encode(Join4(a, b, c, d)) == [a, b, c, d]
  {
    var v := Join4(a, b, c, d);
    assert v / 64 == (a - 0xF0) * 4096 + (b - 0x80) * 64 + (c - 0x80);
    assert v / 4096 == (a - 0xF0) * 64 + (b - 0x80);
    assert v / 262144 == a - 0xF0;
  }

  lemma EncodedIsWellFormed(c: CodePoint)
    ensures var s := Encode(c);
            && (c < 0x80 <==> |s| == 1) && (0x80 <= c < 0x800 <==> |s| == 2) && (0x800 <= c < 0x10000 <==> |s| == 3)
            && (|s| == 1 ==> s[0] < 0x80) && (|s| == 2 ==> 0xC2 <= s[0] < 0xE0)
            && (|s| == 3 ==> 0xE0 <= s[0] < 0xF0 && Second(s[0], s[1]))
            && (|s| == 4 ==> 0xF0 <= s[0] <= 0xF4 && Second(s[0], s[1]))
    ensures forall i :: 1 <= i < |Encode(c)| ==> IsTrail(Encode(c)[i])
  {
  }

  lemma ClassifyEncoded(c: CodePoint, rest: seq<Byte>)
    ensures Classify(Encode(c) + rest) == Scalar(c, |Encode(c)|)
  {
    JoinEncoded(c);
    EncodedIsWellFormed(c);
  }

  lemma ClassifyPrefix(c: CodePoint, n: nat)
    requires 0 < n < |Encode(c)|
    ensures Classify(Encode(c)[..n]) == Incomplete
  {
    EncodedIsWellFormed(c);
  }

  /** What is read as a scalar value is its one encoding: no overlong form, no surrogate. */
  lemma ScalarIsEncoded(s: seq<Byte>)
    requires s != [] && Classify(s).Scalar?
    ensures 0 < Classify(s).n <= |s| && s[..Classify(s).n] == Encode(Classify(s).c)
  {
    if s[0] < 0x80 {
    } else if s[0] < 0xE0 {
      EncodeJoin2(s[0], s[1]);
    } else if s[0] < 0xF0 {
      EncodeJoin3(s[0], s[1], s[2]);
    } else {
      EncodeJoin4(s[0], s[1], s[2], s[3]);
    }
  }

  lemma LeadAndTrails(c: CodePoint)
    ensures !IsTrail(Encode(c)[0])
    ensures forall i :: 1 <= i < |Encode(c)| ==> IsTrail(Encode(c)[i])
  {
  }

  /** Bytes that some further bytes would complete to a code point. */
  ghost predicate IsCutOff(s: seq<Byte>) {
    exists c: CodePoint :: 0 < |s| < |Encode(c)| && Encode(c)[..|s|] == s
  }

  /** Incomplete input is always the beginning of some encoding. */
  lemma IncompleteIsCutOff(s: seq<Byte>)
    requires s != [] && Classify(s) == Incomplete
    ensures IsCutOff(s)
  {
    var a := s[0];
    var second: Byte := if |s| > 1 then s[1] else if a == 0xE0 then 0xA0 else if a == 0xF0 then 0x90 else 0x80;
    var third: Byte := if |s| > 2 then s[2] else 0x80;
    if a < 0xE0 {
      EncodeJoin2(a, second);
      assert Encode(Join2(a, second))[..|s|] == s;
    } else if a < 0xF0 {
      EncodeJoin3(a, second, third);
      assert Encode(Join3(a, second, third))[..|s|] == s;
    } else {
      EncodeJoin4(a, second, third, 0x80);
      assert Encode(Join4(a, second, third, 0x80))[..|s|] == s;
    }
  }

  function Prepend(c: CodePoint, more: Option<seq<CodePoint>>): Option<seq<CodePoint>> {
    if more.None? then None else Some([c] + more.value)
  }

  lemma DecodePrepends(c: CodePoint, rest: seq<Byte>, final: bool)
    ensures Decode(Encode(c) + rest, final) == Prepend(c, Decode(rest, final))
  {
    ClassifyEncoded(c, rest);
    assert (Encode(c) + rest)[|Encode(c)|..] == rest;
  }

  /** What `Decode` does with the front of its input. */
  lemma DecodeFront(s: seq<Byte>, final: bool) returns (c: CodePoint, rest: seq<Byte>)
    requires s != [] && Classify(s).Scalar?
    ensures |rest| < |s| && s == Encode(c) + rest && Decode(s, final) == Prepend(c, Decode(rest, final))
  {
    ScalarIsEncoded(s);
    c, rest := Classify(s).c, s[Classify(s).n..];
    assert s == s[..Classify(s).n] + rest;
  }

  lemma EncodeAllPrepends(c: CodePoint, cs: seq<CodePoint>, tail: seq<Byte>)
    ensures EncodeAll([c] + cs) + tail == Encode(c) + (EncodeAll(cs) + tail)
  {
    assert ([c] + cs)[1..] == cs;
  }

  /**
   Exactly what the decoder accepts: encodings of code points, followed, unless
   the chunk is final, by at most one cut-off encoding, which is dropped.
  */
  lemma {:induction false} DecodeIsSound(s: seq<Byte>, final: bool) returns (tail: seq<Byte>)
    requires Decode(s, final).Some?
    ensures s == EncodeAll(Decode(s, final).value) + tail
    ensures tail == [] || (!final && IsCutOff(tail))
    decreases |s|
  {
    if s == [] {
      tail := [];
    } else if Classify(s).Incomplete? {
      IncompleteIsCutOff(s);
      tail := s;
    } else {
      var c, rest := DecodeFront(s, final);
      tail := DecodeIsSound(rest, final);
      EncodeAllPrepends(c, Decode(rest, final).value, tail);
    }
  }

  lemma DecodeTail(tail: seq<Byte>, final: bool)
    requires tail == [] || (!final && IsCutOff(tail))
    ensures Decode(tail, final) == Some([])
  {
    if tail != [] {
      var c: CodePoint :| 0 < |tail| < |Encode(c)| && Encode(c)[..|tail|] == tail;
      ClassifyPrefix(c, |tail|);
    }
  }

  lemma {:induction false} DecodeIsComplete(cs: seq<CodePoint>, tail: seq<Byte>, final: bool)
    requires tail == [] || (!final && IsCutOff(tail))
    ensures Decode(EncodeAll(cs) + tail, final) == Some(cs)
  {
    if cs == [] {
      assert EncodeAll(cs) + tail == tail;
      DecodeTail(tail, final);
    } else {
      EncodeAllPrepends(cs[0], cs[1..], tail);
      assert cs == [cs[0]] + cs[1..];
      DecodePrepends(cs[0], EncodeAll(cs[1..]) + tail, final);
      DecodeIsComplete(cs[1..], tail, final);
    }
  }

  // ------------------------------------------------------- windows of a file

  /**
   The code points whose bytes lie wholly inside a window. The window is given
   relative to the first byte, so it may begin before it.
  */
  function Inside(cs: seq<CodePoint>, start: int, end: int): seq<CodePoint> {
    if cs == [] then []
    else
      var n := |Encode(cs[0])|;
      var more := Inside(cs[1..], start - n, end - n);
      if start <= 0 && n <= end then [cs[0]] + more else more
  }

  lemma {:induction false} NothingInside(cs: seq<CodePoint>, start: int, end: int)
    requires end <= 0
    ensures Inside(cs, start, end) == []
  {
    if cs != [] {
      NothingInside(cs[1..], start - |Encode(cs[0])|, end - |Encode(cs[0])|);
    }
  }

  lemma {:induction false} InsideFromTheFront(cs: seq<CodePoint>, start: int, end: int)
    requires start <= 0
    ensures Inside(cs, start, end) == Inside(cs, 0, end)
  {
    if cs != [] {
      var n := |Encode(cs[0])|;
      InsideFromTheFront(cs[1..], start - n, end - n);
      InsideFromTheFront(cs[1..], 0 - n, end - n);
      assert Inside(cs[1..], start - n, end - n) == Inside(cs[1..], 0 - n, end - n);
    }
  }

  /** A window that begins at a code point: the decoder yields what is wholly inside. */
  lemma {:induction false} HeadWindow(cs: seq<CodePoint>, end: nat, final: bool)
    requires end <= |EncodeAll(cs)| && (final ==> end == |EncodeAll(cs)|)
    ensures Decode(EncodeAll(cs)[..end], final) == Some(Inside(cs, 0, end))
  {
    if cs != [] {
      var n, rest := |Encode(cs[0])|, EncodeAll(cs[1..]);
      var raw := EncodeAll(cs)[..end];
      if n <= end {
        assert raw == Encode(cs[0]) + rest[..end - n];
        DecodePrepends(cs[0], rest[..end - n], final);
        HeadWindow(cs[1..], end - n, final);
        InsideFromTheFront(cs[1..], -n, end - n);
      } else {
        NothingInside(cs[1..], -n, end - n);
        assert raw == Encode(cs[0])[..end];
        if end > 0 {
          ClassifyPrefix(cs[0], end);
        }
      }
    }
  }

  /** How many bytes `decode_utf8_preview` skips. */
  function Skip(raw: seq<Byte>, limit: nat): (k: nat)
    ensures k <= limit && k <= |raw|
  {
    if limit == 0 || raw == [] || !IsTrail(raw[0]) then 0 else 1 + Skip(raw[1..], limit - 1)
  }

  function DecodePreview(raw: seq<Byte>, partial: bool, final: bool): Option<seq<CodePoint>> {
    Decode(raw[if partial then Skip(raw, 3) else 0..], final)
  }

  lemma {:induction false} SkipIs(raw: seq<Byte>, limit: nat, k: nat)
    requires k <= limit && k <= |raw| && forall i :: 0 <= i < k ==> IsTrail(raw[i])
    requires k == |raw| || k == limit || !IsTrail(raw[k])
    ensures Skip(raw, limit) == k
  {
    if k > 0 {
      SkipIs(raw[1..], limit - 1, k - 1);
    }
  }

  lemma FrontIsALead(cs: seq<CodePoint>, end: nat)
    requires end <= |EncodeAll(cs)|
    ensures Skip(EncodeAll(cs)[..end], 3) == 0
  {
    if cs != [] {
      LeadAndTrails(cs[0]);
    }
  }

  /** A chunk that begins with up to three bytes of a cut-off code point. */
  lemma FragmentIsSkipped(fragment: seq<Byte>, rest: seq<Byte>, final: bool)
    requires |fragment| <= 3 && (forall i :: 0 <= i < |fragment| ==> IsTrail(fragment[i]))
    requires rest == [] || !IsTrail(rest[0])
    ensures DecodePreview(fragment + rest, true, final) == Decode(rest, final)
  {
    SkipIs(fragment + rest, 3, |fragment|);
    assert (fragment + rest)[|fragment|..] == rest;
  }

  lemma LeadOfAll(cs: seq<CodePoint>)
    ensures cs != [] ==> EncodeAll(cs) != [] && !IsTrail(EncodeAll(cs)[0])
  {
    if cs != [] {
      LeadAndTrails(cs[0]);
    }
  }

  lemma SliceAcross<T>(a: seq<T>, b: seq<T>, i: nat, j: nat)
    requires i <= |a| <= j <= |a| + |b|
    ensures (a + b)[i..j] == a[i..] + b[..j - |a|]
  {
  }

  lemma SliceRight<T>(a: seq<T>, b: seq<T>, i: nat, j: nat)
    requires |a| <= i <= j <= |a| + |b|
    ensures (a + b)[i..j] == b[i - |a|..j - |a|]
  {
  }

  lemma SliceLeft<T>(a: seq<T>, b: seq<T>, i: nat, j: nat)
    requires i <= j <= |a|
    ensures (a + b)[i..j] == a[i..j] + []
  {
  }

  /** The bytes of a code point after its lead byte. */
  lemma TrailingPart(c: CodePoint, start: nat, end: nat)
    requires 0 < start <= end <= |Encode(c)|
    ensures |Encode(c)[start..end]| <= 3
    ensures forall i :: 0 <= i < end - start ==> IsTrail(Encode(c)[start..end][i])
  {
    LeadAndTrails(c);
  }

  lemma InsideAfterCut(cs: seq<CodePoint>, start: nat, end: nat)
    requires cs != [] && 0 < start < |Encode(cs[0])|
    ensures Inside(cs, start, end) == Inside(cs[1..], 0, end - |Encode(cs[0])|)
  {
    InsideFromTheFront(cs[1..], start - |Encode(cs[0])|, end - |Encode(cs[0])|);
  }

  /** A window inside the first code point. */
  lemma CutWithin(cs: seq<CodePoint>, start: nat, end: nat, final: bool)
    requires cs != [] && 0 < start <= end <= |Encode(cs[0])| && start < |Encode(cs[0])|
    ensures DecodePreview((Encode(cs[0]) + EncodeAll(cs[1..]))[start..end], true, final) == Some(Inside(cs, start, end))
  {
    var head := Encode(cs[0]);
    TrailingPart(cs[0], start, end);
    SliceLeft(head, EncodeAll(cs[1..]), start, end);
    FragmentIsSkipped(head[start..end], [], final);
    InsideAfterCut(cs, start, end);
    NothingInside(cs[1..], 0, end - |head|);
  }

  /** A window that begins inside the first code point and ends after it. */
  lemma CutAcross(cs: seq<CodePoint>, start: nat, end: nat, final: bool)
    requires cs != [] && 0 < start < |Encode(cs[0])| < end <= |Encode(cs[0])| + |EncodeAll(cs[1..])|
    requires final ==> end == |Encode(cs[0])| + |EncodeAll(cs[1..])|
    ensures DecodePreview((Encode(cs[0]) + EncodeAll(cs[1..]))[start..end], true, final) == Some(Inside(cs, start, end))
  {
    var head, rest := Encode(cs[0]), EncodeAll(cs[1..]);
    var fragment, taken := head[start..], rest[..end - |head|];
    assert fragment == head[start..|head|];
    TrailingPart(cs[0], start, |head|);
    SliceAcross(head, rest, start, end);
    LeadOfAll(cs[1..]);
    FragmentIsSkipped(fragment, taken, final);
    HeadWindow(cs[1..], end - |head|, final);
    InsideAfterCut(cs, start, end);
  }

  lemma WindowFromTheFront(cs: seq<CodePoint>, end: nat, partial: bool, final: bool)
    requires end <= |EncodeAll(cs)| && (final ==> end == |EncodeAll(cs)|)
    ensures DecodePreview(EncodeAll(cs)[0..end], partial, final) == Some(Inside(cs, 0, end))
  {
    var raw := EncodeAll(cs)[..end];
    FrontIsALead(cs, end);
    HeadWindow(cs, end, final);
    assert EncodeAll(cs)[0..end] == raw && raw[0..] == raw;
  }

  /**
   For every valid UTF-8 file and every byte window, decoding the window with
   the flags of `read_text_preview` succeeds and gives exactly the code points
   wholly inside it.
  */
  lemma {:induction false} WindowDecodesWholeCodePoints(cs: seq<CodePoint>, start: nat, end: nat, partial: bool, final: bool)
    requires start <= end <= |EncodeAll(cs)|
    requires start > 0 ==> partial
    requires final ==> end == |EncodeAll(cs)|
    ensures DecodePreview(EncodeAll(cs)[start..end], partial, final) == Some(Inside(cs, start, end))
  {
    if start == 0 {
      WindowFromTheFront(cs, end, partial, final);
    } else {
      var head := Encode(cs[0]);
      if start >= |head| {
        SliceRight(head, EncodeAll(cs[1..]), start, end);
        WindowDecodesWholeCodePoints(cs[1..], start - |head|, end - |head|, partial, final);
      } else if end <= |head| {
        CutWithin(cs, start, end, final);
      } else {
        CutAcross(cs, start, end, final);
      }
    }
  }

  // ---------------------------------------------------------------- preview

  /** `decode_utf8_preview`. */
  method DecodeUtf8Preview(raw: seq<Byte>, partial: bool, final: bool) returns (r: Option<seq<CodePoint>>)
    ensures r == DecodePreview(raw, partial, final)
  {
    var skip := 0;
    if partial {
      while skip < |raw| && skip < 3 && IsTrail(raw[skip])
        invariant skip <= |raw| && skip <= 3
        invariant forall i :: 0 <= i < skip ==> IsTrail(raw[i])
      {
        skip := skip + 1;
      }
      SkipIs(raw, 3, skip);
    }
    r := Decode(raw[skip..], final);
  }

  datatype Mode = FromHead | FromTail | Range(offset: int)

  datatype Preview = Preview(content: seq<CodePoint>, truncated: bool, offset: nat, bytesRead: nat)

  datatype PreviewError = Binary | NotUtf8

  const NEWLINE: CodePoint := 10

  function Clamp(maxBytes: int): (limit: nat)
    ensures 4096 <= limit <= 1024 * 1024
  {
    var capped := if maxBytes < 1024 * 1024 then maxBytes else 1024 * 1024;
    if capped < 4096 then 4096 else capped
  }

  function StartOf(size: nat, mode: Mode, limit: nat): (start: nat)
    ensures start <= size
  {
    match mode
    case FromHead => 0
    case FromTail => if size > limit then size - limit else 0
    case Range(offset) => if offset < 0 then 0 else if offset < size then offset else size
  }

  /** What follows the first newline, or everything when there is none. */
  function AfterFirstLine(content: seq<CodePoint>): seq<CodePoint> {
    if NEWLINE in content then DropLine(content) else content
  }

  function DropLine(content: seq<CodePoint>): seq<CodePoint> {
    if content == [] then [] else if content[0] == NEWLINE then content[1..] else DropLine(content[1..])
  }

  /** `r` follows the first newline of the content, if there is one. */
  ghost predicate FollowsFirstLine(content: seq<CodePoint>, r: seq<CodePoint>) {
    if 10 in content then exists n :: 0 <= n < |content| && content[n] == 10 && 10 !in content[..n] && r == content[n + 1..]
    else r == content
  }

  lemma {:induction false} DropLineFollows(content: seq<CodePoint>)
    requires 10 in content
    ensures exists n :: 0 <= n < |content| && content[n] == 10 && 10 !in content[..n] && DropLine(content) == content[n + 1..]
  {
    if content[0] == 10 {
      assert 10 !in content[..0];
    } else {
      assert 10 in content[1..];
      DropLineFollows(content[1..]);
      var n :| 0 <= n < |content[1..]| && content[1..][n] == 10 && 10 !in content[1..][..n]
               && DropLine(content[1..]) == content[1..][n + 1..];
      assert content[n + 1] == 10 && content[..n + 1] == [content[0]] + content[1..][..n];
      assert DropLine(content) == content[n + 2..];
    }
  }

  method DropPartialLine(content: seq<CodePoint>) returns (r: seq<CodePoint>)
    ensures r == AfterFirstLine(content) && FollowsFirstLine(content, r)
  {
    if 10 in content {
      DropLineFollows(content);
    }
    var i := 0;
    while i < |content| && content[i] != NEWLINE
      invariant i <= |content| && NEWLINE !in content[..i]
      invariant DropLine(content[i..]) == DropLine(content)
    {
      i := i + 1;
    }
    r := if i < |content| then content[i + 1..] else content;
  }

  /** The window of a file of this size: at most this many bytes, of 4096 to 1048576. */
  ghost predicate IsWindow(size: nat, mode: Mode, maxBytes: int, start: nat, end: nat) {
    var limit := if maxBytes < 4096 then 4096 else if maxBytes > 1048576 then 1048576 else maxBytes;
    && start <= end <= size
    && (end == start + limit || (end == size && size - start <= limit))
    && (mode == FromHead ==> start == 0)
    && (mode == FromTail ==> end == size && (start == 0 || end - start == limit))
    && (mode.Range? ==> start == if mode.offset < 0 then 0 else if mode.offset > size then size else mode.offset)
  }

  lemma WindowIsChosen(size: nat, mode: Mode, maxBytes: int)
    ensures var limit := Clamp(maxBytes);
            var start := StartOf(size, mode, limit);
            IsWindow(size, mode, maxBytes, start, if start + limit < size then start + limit else size)
  {
  }

  /** A preview of a valid UTF-8 file shows the whole code points of its window, from the next line on if it starts inside. */
  ghost predicate Shows(file: seq<Byte>, start: nat, end: nat, content: seq<CodePoint>)
    requires start <= end <= |file|
  {
    forall cs :: file == EncodeAll(cs) ==>
      if start > 0 then FollowsFirstLine(Inside(cs, start, end), content) else content == Inside(cs, 0, end)
  }

  lemma WindowShows(file: seq<Byte>, start: nat, end: nat, decoded: seq<CodePoint>, content: seq<CodePoint>)
    requires start <= end <= |file| && DecodePreview(file[start..end], start > 0, end == |file|) == Some(decoded)
    requires if start > 0 then FollowsFirstLine(decoded, content) else content == decoded
    ensures Shows(file, start, end, content)
  {
    forall cs | file == EncodeAll(cs) ensures decoded == Inside(cs, start, end) {
      WindowDecodesWholeCodePoints(cs, start, end, start > 0, end == |file|);
    }
  }

  lemma ValidFileDecodes(file: seq<Byte>, start: nat, end: nat, cs: seq<CodePoint>)
    requires start <= end <= |file| && file == EncodeAll(cs)
    ensures DecodePreview(file[start..end], start > 0, end == |file|).Some?
  {
    WindowDecodesWholeCodePoints(cs, start, end, start > 0, end == |file|);
  }

  /** The part of `read_text_preview` after its read: refuse, or decode and drop a partial line. */
  method ShowWindow(file: seq<Byte>, start: nat, end: nat) returns (r: Result<seq<CodePoint>, PreviewError>)
    requires start <= end <= |file|
    ensures r == Err(Binary) <==> 0 in file[start..end]
    ensures (r == Err(NotUtf8) <==> 0 !in file[start..end]
                                    && DecodePreview(file[start..end], start > 0, end == |file|).None?)
    ensures r.Ok? ==> Shows(file, start, end, r.value)
    ensures forall cs :: file == EncodeAll(cs) && 0 !in file[start..end] ==> r.Ok?
  {
    var raw := file[start..end];
    if 0 in raw {
      r := Err(Binary);
    } else {
      var decoded := DecodeUtf8Preview(raw, start > 0, start + |raw| >= |file|);
      if decoded.None? {
        r := Err(NotUtf8);
      } else {
        var content := decoded.value;
        if start > 0 {
          content := DropPartialLine(content);
        }
        WindowShows(file, start, end, decoded.value, content);
        r := Ok(content);
      }
    }
    forall cs | file == EncodeAll(cs) ensures DecodePreview(raw, start > 0, end == |file|).Some? {
      ValidFileDecodes(file, start, end, cs);
    }
  }

  /** `read_text_preview` on a file that does not change meanwhile. */
  method ReadTextPreview(file: seq<Byte>, mode: Mode, maxBytes: int)
    returns (r: Result<Preview, PreviewError>, start: nat, end: nat)
    ensures IsWindow(|file|, mode, maxBytes, start, end)
    ensures r == Err(Binary) <==> 0 in file[start..end]
    ensures (r == Err(NotUtf8) <==> 0 !in file[start..end]
                                    && DecodePreview(file[start..end], start > 0, end == |file|).None?)
    ensures r.Ok? ==> r.value.offset == start && r.value.bytesRead == end - start
                      && (r.value.truncated <==> r.value.bytesRead < |file|)
    ensures r.Ok? ==> Shows(file, start, end, r.value.content)
    ensures forall cs :: file == EncodeAll(cs) && 0 !in file[start..end] ==> r.Ok?
  {
    var limit := Clamp(maxBytes);
    start := StartOf(|file|, mode, limit);
    end := if start + limit < |file| then start + limit else |file|;
    WindowIsChosen(|file|, mode, maxBytes);
    var shown := ShowWindow(file, start, end);
    r := if shown.Err? then Err(shown.error)
         else Ok(Preview(shown.value, start > 0 || end < |file|, start, end - start));
  }
}
