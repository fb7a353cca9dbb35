/** Reading a chunked HTTP body (section 3.6.1 of RFC 2616) from a socket that
    delivers its bytes in arbitrary fragments, and finding the end of a header. */
module ChunkedReader {

  type Byte = x: int | 0 <= x < 256

  const CR: Byte := 13
  const LF: Byte := 10
  const SP: Byte := 32
  const TWO32 := 0x1_0000_0000
  const MAX_READ := 0x7fff_f000

  // ---- the size line ----

  /** Utility::is_hex_digit: all letters pass. */
  predicate IsHexDigit(c: Byte) {
    48 <= c <= 57 || 97 <= c <= 122 || 65 <= c <= 90
  }

  /** A digit of section 3.6.1. */
  predicate Hex(c: Byte) {
    48 <= c <= 57 || 97 <= c <= 102 || 65 <= c <= 70
  }

  function Digit(c: Byte): (d: nat)
    requires Hex(c)
    ensures d < 16
  {
    if c <= 57 then c - 48 else if c >= 97 then c - 87 else c - 55
  }

  /** The size after one more character: letters past F change nothing. */
  function AddDigit(size: nat, c: Byte): (r: nat)
    requires size < TWO32
    ensures r < TWO32
  {
    if Hex(c) then (size * 16 + Digit(c)) % TWO32 else size
  }

  datatype Line = Line(size: nat, used: nat) | NoLine

  /** Bytes up to and including the first line feed after a carriage return; flag
      says that the byte before was a carriage return. */
  function ToCrlf(s: seq<Byte>, flag: bool): Line
    decreases |s|
  {
    if s == [] then NoLine
    else if s[0] == LF && flag then Line(0, 1)
    else
      var rest := ToCrlf(s[1..], s[0] == CR);
      if rest.Line? then Line(0, rest.used + 1) else NoLine
  }

  /** The size at the start of s, read after a partial size, and the length of its line. */
  function SizeLine(s: seq<Byte>, size: nat): Line
    requires size < TWO32
    decreases |s|
  {
    if s == [] then NoLine
    else if IsHexDigit(s[0]) || s[0] == SP then
      var rest := SizeLine(s[1..], AddDigit(size, s[0]));
      if rest.Line? then Line(rest.size, rest.used + 1) else NoLine
    else
      var rest := ToCrlf(s[1..], s[0] == CR);
      if rest.Line? then Line(size, rest.used + 1) else NoLine
  }

  /** s ends a line: carriage return, line feed. */
  predicate EndsLine(s: seq<Byte>, flag: bool) {
    |s| >= 1 && s[|s| - 1] == LF && (if |s| == 1 then flag else s[|s| - 2] == CR)
  }

  /** The scan stops at the first end of line and nowhere else. */
  lemma {:induction false} ToCrlfIsFirst(s: seq<Byte>, flag: bool, k: nat)
    requires k <= |s|
    ensures ToCrlf(s, flag) == Line(0, k) <==> EndsLine(s[..k], flag) && forall j :: 0 <= j < k ==> !EndsLine(s[..j], flag)
    decreases |s|
  {
    if s == [] || k == 0 {
    } else {
      assert EndsLine(s[..1], flag) <==> s[0] == LF && flag;
      ToCrlfIsFirst(s[1..], s[0] == CR, k - 1);
      forall j | 2 <= j <= k
        ensures EndsLine(s[..j], flag) <==> EndsLine(s[1..][..j - 1], s[0] == CR)
      {
        EndsLineTail(s, flag, j);
      }
      if k >= 2 && (s[0] != LF || !flag) {
        if forall j :: 0 <= j < k - 1 ==> !EndsLine(s[1..][..j], s[0] == CR) {
          forall j | 0 <= j < k ensures !EndsLine(s[..j], flag) { }
        }
        if forall j :: 0 <= j < k ==> !EndsLine(s[..j], flag) {
          forall j | 0 <= j < k - 1 ensures !EndsLine(s[1..][..j], s[0] == CR) {
            if j > 0 { assert !EndsLine(s[..j + 1], flag); }
          }
        }
      }
    }
  }

  lemma EndsLineTail(s: seq<Byte>, flag: bool, j: nat)
    requires 2 <= j <= |s|
    ensures EndsLine(s[..j], flag) <==> EndsLine(s[1..][..j - 1], s[0] == CR)
  {
    var a, b := s[..j], s[1..][..j - 1];
    assert b[|b| - 1] == a[j - 1];
    if j > 2 { assert b[|b| - 2] == a[j - 2]; }
  }

  // ---- the body ----

  /** What a byte stream holds: a page and the length of its encoding, a stream that
      ends too early, or sizes that do not fit 32 bits. */
  datatype Outcome = Page(content: seq<Byte>, used: nat) | Short | TooBig

  function Shift(o: Outcome, n: nat): Outcome {
    if o.Page? then Page(o.content, o.used + n) else o
  }

  /** The next chunk of a stream: the last one with the end of the body, or one of
      size bytes of data after k bytes. */
  datatype Head = End(used: nat) | Data(k: nat, size: nat) | Cut | Huge

  /** The head of s when a page of have bytes has been collected. */
  function HeadOf(s: seq<Byte>, have: nat): (h: Head)
    ensures h.Data? ==> h.size > 0 && h.k + h.size + 2 <= |s|
  {
    var line := SizeLine(s, 0);
    if line.NoLine? then Cut
    else
      SizeLineUsed(s, 0);
      var k := line.used;
      if line.size == 0 then
        var end := ToCrlf(s[k..], false);
        if end.NoLine? then Cut else End(k + end.used)
      else if line.size + 2 >= TWO32 || have + line.size >= TWO32 then Huge
      else if |s| - k < line.size + 2 then Cut
      else Data(k, line.size)
  }

  /** The body in s after the chunks read so far, which does not depend on how s is
      cut into reads. */
  function Body(s: seq<Byte>, page: seq<Byte>): Outcome
    decreases |s|
  {
    match HeadOf(s, |page|)
    case Cut => Short
    case Huge => TooBig
    case End(used) => Page(page, used)
    case Data(k, size) => Shift(Body(s[k + size + 2..], page + s[k..k + size]), k + size + 2)
  }

  lemma {:induction false} SizeLineUsed(s: seq<Byte>, size: nat)
    requires size < TWO32
    ensures SizeLine(s, size).Line? ==> SizeLine(s, size).used <= |s| && SizeLine(s, size).size < TWO32
    decreases |s|
  {
    if s == [] {
    } else if IsHexDigit(s[0]) || s[0] == SP {
      SizeLineUsed(s[1..], AddDigit(size, s[0]));
    } else {
      ToCrlfUsed(s[1..], s[0] == CR);
    }
  }

  lemma {:induction false} ToCrlfUsed(s: seq<Byte>, flag: bool)
    ensures ToCrlf(s, flag).Line? ==> ToCrlf(s, flag).used <= |s|
    decreases |s|
  {
    if s != [] && !(s[0] == LF && flag) { ToCrlfUsed(s[1..], s[0] == CR); }
  }

  // ---- the sender ----

  /** A chunk: the spelling of its size, an extension, and its data. */
  datatype Chunk = Chunk(digits: seq<Byte>, ext: seq<Byte>, data: seq<Byte>)

  function ValueFrom(size: nat, digits: seq<Byte>): (v: nat)
    requires forall i :: 0 <= i < |digits| ==> Hex(digits[i])
    ensures v >= size
    decreases |digits|
  {
    if digits == [] then size else ValueFrom(size * 16 + Digit(digits[0]), digits[1..])
  }

  const LOWER := "0123456789abcdef"
  const UPPER := "0123456789ABCDEF"

  /** c is written for the hexadecimal digit d. */
  predicate Writes(c: Byte, d: nat) {
    d < 16 && d < |LOWER| && d < |UPPER| && (c == LOWER[d] as int || c == UPPER[d] as int)
  }

  /** The digits spell n to base 16, in letters of either case. */
  predicate Spells(digits: seq<Byte>, n: nat) {
    if digits == [] then n == 0
    else
      Writes(digits[|digits| - 1], n % 16) && Spells(digits[..|digits| - 1], n / 16)
  }

  lemma Character(d: nat)
    requires d < 16
    ensures |LOWER| == |UPPER| == 16
    ensures LOWER[d] as int == if d < 10 then 48 + d else 87 + d
    ensures UPPER[d] as int == if d < 10 then 48 + d else 55 + d
  {
    assert LOWER[0] == '0' && LOWER[1] == '1' && LOWER[2] == '2' && LOWER[3] == '3' && LOWER[4] == '4' && LOWER[5] == '5';
    assert LOWER[6] == '6' && LOWER[7] == '7' && LOWER[8] == '8' && LOWER[9] == '9' && LOWER[10] == 'a' && LOWER[11] == 'b';
    assert LOWER[12] == 'c' && LOWER[13] == 'd' && LOWER[14] == 'e' && LOWER[15] == 'f';
    assert UPPER[0] == '0' && UPPER[1] == '1' && UPPER[2] == '2' && UPPER[3] == '3' && UPPER[4] == '4' && UPPER[5] == '5';
    assert UPPER[6] == '6' && UPPER[7] == '7' && UPPER[8] == '8' && UPPER[9] == '9' && UPPER[10] == 'A' && UPPER[11] == 'B';
    assert UPPER[12] == 'C' && UPPER[13] == 'D' && UPPER[14] == 'E' && UPPER[15] == 'F';
  }

  /** The reader's digits are the characters so written, and its values what they are written for. */
  lemma DigitIs(c: Byte, d: nat)
    ensures Writes(c, d) <==> Hex(c) && Digit(c) == d
  {
    if d < 16 { Character(d); }
  }

  lemma {:induction false} ValueLast(v: nat, front: seq<Byte>, last: Byte)
    requires (forall k :: 0 <= k < |front| ==> Hex(front[k])) && Hex(last)
    ensures ValueFrom(v, front + [last]) == ValueFrom(v, front) * 16 + Digit(last)
    decreases |front|
  {
    if front == [] {
      assert ([last])[1..] == [];
    } else {
      assert (front + [last])[1..] == front[1..] + [last];
      ValueLast(v * 16 + Digit(front[0]), front[1..], last);
    }
  }

  /** Exactly the strings of the reader's digits spell a number, and it is the one the reader computes. */
  lemma {:induction false} SpelledValue(digits: seq<Byte>, n: nat)
    ensures Spells(digits, n) <==> (forall i :: 0 <= i < |digits| ==> Hex(digits[i])) && ValueFrom(0, digits) == n
  {
    if digits != [] {
      var front, last := digits[..|digits| - 1], digits[|digits| - 1];
      assert front + [last] == digits;
      DigitIs(last, n % 16);
      SpelledValue(front, n / 16);
      if forall i :: 0 <= i < |digits| ==> Hex(digits[i]) {
        ValueLast(0, front, last);
        LowDigit(ValueFrom(0, front), Digit(last), n);
      }
    }
  }

  lemma LowDigit(v: nat, d: nat, n: nat)
    requires d < 16
    ensures v * 16 + d == n <==> v == n / 16 && d == n % 16
  {
  }

  /** An extension starts with a semicolon and holds no end of line. */
  predicate ExtensionOk(ext: seq<Byte>) {
    (ext != [] ==> ext[0] == 59) && forall i :: 0 < i < |ext| ==> !(ext[i - 1] == CR && ext[i] == LF)
  }

  /** The size, in any spelling of hexadecimal digits, is that of the data. */
  predicate LineOk(c: Chunk) {
    |c.digits| >= 1 && Spells(c.digits, |c.data|) && ExtensionOk(c.ext)
  }

  function LineOf(c: Chunk): seq<Byte> {
    c.digits + c.ext + [CR, LF]
  }

  /** The chunks, the last one without data, and the end of the body without trailer. */
  function Encode(chunks: seq<Chunk>): seq<Byte> {
    if chunks == [] then []
    else LineOf(chunks[0]) + chunks[0].data + [CR, LF] + Encode(chunks[1..])
  }

  function AllData(chunks: seq<Chunk>): seq<Byte> {
    if chunks == [] then [] else chunks[0].data + AllData(chunks[1..])
  }

  predicate WellFormed(chunks: seq<Chunk>) {
    && |chunks| >= 1 && (forall i :: 0 <= i < |chunks| ==> LineOk(chunks[i]))
    && (forall i :: 0 <= i < |chunks| ==> (chunks[i].data == [] <==> i == |chunks| - 1))
  }

  lemma {:induction false} CrlfAfter(x: seq<Byte>, flag: bool, more: seq<Byte>)
    requires x != [] ==> !(x[0] == LF && flag)
    requires forall i :: 0 < i < |x| ==> !(x[i - 1] == CR && x[i] == LF)
    ensures ToCrlf(x + [CR, LF] + more, flag) == Line(0, |x| + 2)
    decreases |x|
  {
    var s := x + [CR, LF] + more;
    if x == [] {
      assert s[1..][0] == LF;
    } else {
      assert s[1..] == x[1..] + [CR, LF] + more;
      CrlfAfter(x[1..], x[0] == CR, more);
    }
  }

  lemma LineTail(digits: seq<Byte>, ext: seq<Byte>, more: seq<Byte>)
    requires digits != []
    ensures var s := digits + ext + [CR, LF] + more; s != [] && s[0] == digits[0] && s[1..] == digits[1..] + ext + [CR, LF] + more
  {
  }

  lemma DigitFirst(c: Byte, rest: seq<Byte>, size: nat)
    requires size < TWO32 && Hex(c)
    ensures var line := SizeLine(rest, AddDigit(size, c));
      SizeLine([c] + rest, size) == if line.Line? then Line(line.size, line.used + 1) else NoLine
  {
    assert ([c] + rest)[1..] == rest;
  }

  lemma NoValue(size: nat)
    ensures ValueFrom(size, []) == size
  {
  }

  lemma ValueNext(v: nat, digits: seq<Byte>, rest: seq<Byte>)
    requires (forall i :: 0 <= i < |digits| ==> Hex(digits[i])) && digits != [] && rest == digits[1..]
    ensures ValueFrom(v, digits) == ValueFrom(v * 16 + Digit(digits[0]), rest)
  {
  }

  lemma AddSmall(size: nat, c: Byte)
    requires Hex(c) && size * 16 + Digit(c) < TWO32
    ensures size < TWO32 && AddDigit(size, c) == size * 16 + Digit(c)
  {
  }

  lemma SizeEnds(ext: seq<Byte>, more: seq<Byte>, size: nat)
    requires ExtensionOk(ext) && size < TWO32
    ensures SizeLine(ext + [CR, LF] + more, size) == Line(size, |ext| + 2)
  {
    var s := ext + [CR, LF] + more;
    if ext == [] {
      assert s[0] == CR && s[1..][0] == LF;
    } else {
      assert s[1..] == ext[1..] + [CR, LF] + more;
      CrlfAfter(ext[1..], false, more);
    }
  }

  lemma {:induction false} SizeRead(digits: seq<Byte>, ext: seq<Byte>, more: seq<Byte>, size: nat)
    requires (forall i :: 0 <= i < |digits| ==> Hex(digits[i])) && ExtensionOk(ext) && ValueFrom(size, digits) < TWO32
    ensures size < TWO32 && SizeLine(digits + ext + [CR, LF] + more, size) == Line(ValueFrom(size, digits), |digits| + |ext| + 2)
    decreases |digits|
  {
    hide *;
    if digits == [] {
      NoValue(size);
      assert [] + ext + [CR, LF] + more == ext + [CR, LF] + more;
      SizeEnds(ext, more, size);
    } else {
      LineTail(digits, ext, more);
      ValueNext(size, digits, digits[1..]);
      SizeRead(digits[1..], ext, more, size * 16 + Digit(digits[0]));
      AddSmall(size, digits[0]);
      DigitFirst(digits[0], digits[1..] + ext + [CR, LF] + more, size);
      assert digits + ext + [CR, LF] + more == [digits[0]] + (digits[1..] + ext + [CR, LF] + more);
    }
  }

  lemma FirstPart(part: seq<Byte>, s: seq<Byte>, k: nat, n: nat)
    requires k + n + 2 <= |s| && part == s[k..][..n + 2]
    ensures part[..n] == s[k..k + n] && s[k..][n + 2..] == s[k + n + 2..]
  {
  }

  lemma BodyStep(s: seq<Byte>, page: seq<Byte>, size: nat, k: nat)
    requires SizeLine(s, 0) == Line(size, k) && size > 0 && size + 2 < TWO32 && |page| + size < TWO32 && k + size + 2 <= |s|
    ensures Body(s, page) == Shift(Body(s[k + size + 2..], page + s[k..k + size]), k + size + 2)
  {
    hide SizeLine, ToCrlf, Shift, HeadOf;
    HeadData(s, |page|, size, k);
  }

  lemma HeadData(s: seq<Byte>, have: nat, size: nat, k: nat)
    requires SizeLine(s, 0) == Line(size, k) && size > 0 && size + 2 < TWO32 && have + size < TWO32 && k + size + 2 <= |s|
    ensures HeadOf(s, have) == Data(k, size)
  {
    hide SizeLine, ToCrlf;
  }

  /** One chunk in front of the rest of the stream. */
  lemma BodyChunk(c: Chunk, rest: seq<Byte>, page: seq<Byte>)
    requires LineOk(c) && c.data != [] && |c.data| + 2 < TWO32 && |page| + |c.data| < TWO32
    ensures Body(LineOf(c) + c.data + [CR, LF] + rest, page) == Shift(Body(rest, page + c.data), |LineOf(c)| + |c.data| + 2)
  {
    hide SizeLine, Body, ToCrlf, Spells, ValueFrom;
    SpelledValue(c.digits, |c.data|);
    SizeRead(c.digits, c.ext, c.data + [CR, LF] + rest, 0);
    hide LineOf;
    LineFirst(c, c.data + [CR, LF] + rest);
    var s := LineOf(c) + c.data + [CR, LF] + rest;
    Parts(LineOf(c), c.data, rest);
    BodyStep(s, page, |c.data|, |LineOf(c)|);
  }

  lemma LineFirst(c: Chunk, more: seq<Byte>)
    ensures c.digits + c.ext + [CR, LF] + more == LineOf(c) + more && |LineOf(c)| == |c.digits| + |c.ext| + 2
  {
  }

  lemma Parts(a: seq<Byte>, b: seq<Byte>, rest: seq<Byte>)
    ensures var s := a + b + [CR, LF] + rest;
      s == a + (b + [CR, LF] + rest) && s[|a|..|a| + |b|] == b && s[|a| + |b| + 2..] == rest && |s| == |a| + |b| + 2 + |rest|
  {
  }

  lemma BodyEnd(c: Chunk, rest: seq<Byte>, page: seq<Byte>)
    requires LineOk(c) && c.data == []
    ensures Body(LineOf(c) + c.data + [CR, LF] + rest, page) == Page(page, |LineOf(c)| + 2)
  {
    var s := LineOf(c) + c.data + [CR, LF] + rest;
    var more := [CR, LF] + rest;
    assert s == c.digits + c.ext + [CR, LF] + more;
    SpelledValue(c.digits, 0);
    SizeRead(c.digits, c.ext, more, 0);
    assert s[|LineOf(c)|..] == [] + [CR, LF] + rest;
    CrlfAfter([], false, rest);
    hide SizeLine, ValueFrom, ToCrlf;
  }

  /** A well-formed body is read as its data, and exactly its bytes are used. */
  lemma {:induction false} BodyOfEncoding(chunks: seq<Chunk>, rest: seq<Byte>, page: seq<Byte>)
    requires WellFormed(chunks) && |page| + |AllData(chunks)| + 2 < TWO32
    ensures Body(Encode(chunks) + rest, page) == Page(page + AllData(chunks), |Encode(chunks)|)
    decreases |chunks|
  {
    var c, tail := chunks[0], chunks[1..];
    assert tail != [] ==> tail[|tail| - 1] == chunks[|chunks| - 1];
    hide Body, LineOk, LineOf;
    Regroup(LineOf(c) + c.data + [CR, LF], Encode(tail), rest);
    if tail == [] {
      BodyEnd(c, Encode(tail) + rest, page);
      assert page + c.data + AllData(tail) == page;
    } else {
      BodyChunk(c, Encode(tail) + rest, page);
      BodyOfEncoding(tail, rest, page + c.data);
    }
    Regroup(page, c.data, AllData(tail));
  }

  lemma Regroup(a: seq<Byte>, b: seq<Byte>, c: seq<Byte>)
    ensures a + b + c == a + (b + c)
  {
  }

  // ---- what a malformed size is read as ----

  /** A byte the reader scans for digits: spaces and all letters are among them. */
  predicate Scanned(c: Byte) {
    IsHexDigit(c) || c == SP
  }

  /** The length of the run the reader scans. */
  function RunLength(s: seq<Byte>): (n: nat)
    ensures n <= |s| && (forall i :: 0 <= i < n ==> Scanned(s[i])) && (n < |s| ==> !Scanned(s[n]))
  {
    if s != [] && Scanned(s[0]) then 1 + RunLength(s[1..]) else 0
  }

  /** The length of the run of digits that section 3.6.1 takes the size from. */
  function HexLength(s: seq<Byte>): (n: nat)
    ensures n <= |s| && (forall i :: 0 <= i < n ==> Hex(s[i])) && (n < |s| ==> !Hex(s[n]))
  {
    if s != [] && Hex(s[0]) then 1 + HexLength(s[1..]) else 0
  }

  /** The digits of a run, without its spaces and letters past F. */
  function Kept(run: seq<Byte>): (digits: seq<Byte>)
    ensures |digits| <= |run| && forall i :: 0 <= i < |digits| ==> Hex(digits[i])
  {
    if run == [] then [] else (if Hex(run[0]) then [run[0]] else []) + Kept(run[1..])
  }

  /** The digits that the reader uses of the size line at the start of s. */
  function DigitsOf(s: seq<Byte>): (digits: seq<Byte>)
    ensures forall i :: 0 <= i < |digits| ==> Hex(digits[i])
  {
    Kept(s[..RunLength(s)])
  }

  lemma RunTail(s: seq<Byte>)
    requires s != [] && Scanned(s[0])
    ensures RunLength(s) == 1 + RunLength(s[1..]) && s[RunLength(s)..] == s[1..][RunLength(s[1..])..]
    ensures DigitsOf(s) == (if Hex(s[0]) then [s[0]] else []) + DigitsOf(s[1..])
  {
    var n := RunLength(s);
    assert s[..n][1..] == s[1..][..n - 1];
  }

  /** Spaces and letters past F make no difference: the line is read as if they were not there. */
  lemma {:induction false} JunkIgnored(s: seq<Byte>, size: nat)
    requires size < TWO32
    ensures var line, clean := SizeLine(s, size), SizeLine(DigitsOf(s) + s[RunLength(s)..], size);
      if clean.Line? then line == Line(clean.size, clean.used + RunLength(s) - |DigitsOf(s)|) else line == NoLine
    decreases |s|
  {
    if s == [] || !Scanned(s[0]) {
      assert DigitsOf(s) + s[RunLength(s)..] == s;
    } else {
      RunTail(s);
      JunkIgnored(s[1..], AddDigit(size, s[0]));
      var rest := DigitsOf(s[1..]) + s[1..][RunLength(s[1..])..];
      if Hex(s[0]) {
        assert DigitsOf(s) + s[RunLength(s)..] == [s[0]] + rest;
        DigitFirst(s[0], rest, size);
      } else {
        assert DigitsOf(s) + s[RunLength(s)..] == rest;
      }
    }
  }

  lemma NoDigits(s: seq<Byte>, size: nat)
    requires size < TWO32 && (s == [] || !Scanned(s[0]))
    ensures DigitsOf(s) == [] && ValueFrom(size, []) == size && (SizeLine(s, size).Line? ==> SizeLine(s, size).size == size)
  {
  }

  lemma SizeLineNext(s: seq<Byte>, size: nat)
    requires size < TWO32 && s != [] && Scanned(s[0])
    ensures var rest := SizeLine(s[1..], AddDigit(size, s[0]));
      SizeLine(s, size).Line? == rest.Line? && (rest.Line? ==> SizeLine(s, size).size == rest.size)
  {
  }

  /** The size of any line is the number its digits spell, in 32 bits. */
  lemma {:induction false} SizeIs(s: seq<Byte>, size: nat)
    requires size < TWO32
    ensures SizeLine(s, size).Line? ==> SizeLine(s, size).size == ValueFrom(size, DigitsOf(s)) % TWO32
    decreases |s|
  {
    hide Kept, RunLength, DigitsOf, SizeLine, ValueFrom, ToCrlf;
    if s == [] || !Scanned(s[0]) {
      NoDigits(s, size);
    } else {
      RunTail(s);
      SizeIs(s[1..], AddDigit(size, s[0]));
      SizeLineNext(s, size);
      if Hex(s[0]) {
        assert DigitsOf(s)[1..] == DigitsOf(s[1..]) && DigitsOf(s)[0] == s[0];
        ValueNext(size, DigitsOf(s), DigitsOf(s[1..]));
        ValueWraps(size * 16 + Digit(s[0]), DigitsOf(s[1..]));
      } else {
        assert DigitsOf(s) == DigitsOf(s[1..]);
      }
    }
  }

  lemma {:induction false} ValueWraps(v: nat, digits: seq<Byte>)
    requires forall i :: 0 <= i < |digits| ==> Hex(digits[i])
    ensures ValueFrom(v % TWO32, digits) % TWO32 == ValueFrom(v, digits) % TWO32
    decreases |digits|
  {
    if digits != [] {
      var d := Digit(digits[0]);
      ValueWraps(v * 16 + d, digits[1..]);
      ValueWraps(v % TWO32 * 16 + d, digits[1..]);
      WrapOne(v, d);
    }
  }

  lemma WrapOne(v: nat, d: nat)
    ensures (v % TWO32 * 16 + d) % TWO32 == (v * 16 + d) % TWO32
  {
    var q := v / TWO32;
    assert v * 16 + d == (v % TWO32 * 16 + d) + 16 * q * TWO32;
  }

  /** The i-th digit from the right. */
  function Place(digits: seq<Byte>, i: nat): nat
    requires forall k :: 0 <= k < |digits| ==> Hex(digits[k])
  {
    if i < |digits| then Digit(digits[|digits| - 1 - i]) else 0
  }

  /** Two spellings agree in their last eight places. */
  predicate SameTail(a: seq<Byte>, b: seq<Byte>)
    requires forall k :: 0 <= k < |a| ==> Hex(a[k])
    requires forall k :: 0 <= k < |b| ==> Hex(b[k])
  {
    forall i :: 0 <= i < 8 ==> Place(a, i) == Place(b, i)
  }

  /** The last n digits as a number. */
  function Lowest(digits: seq<Byte>, n: nat): nat
    requires forall k :: 0 <= k < |digits| ==> Hex(digits[k])
  {
    if n == 0 || digits == [] then 0 else Lowest(digits[..|digits| - 1], n - 1) * 16 + Digit(digits[|digits| - 1])
  }

  function Power16(n: nat): (p: nat)
    ensures p > 0
  {
    if n == 0 then 1 else 16 * Power16(n - 1)
  }

  lemma {:induction false} LowestIs(digits: seq<Byte>, n: nat)
    requires forall k :: 0 <= k < |digits| ==> Hex(digits[k])
    ensures Lowest(digits, n) == ValueFrom(0, digits) % Power16(n)
  {
    if n > 0 && digits != [] {
      var front, last := digits[..|digits| - 1], digits[|digits| - 1];
      LowestIs(front, n - 1);
      assert front + [last] == digits;
      ValueLast(0, front, last);
      LastDigit(ValueFrom(0, front), Digit(last), Power16(n - 1));
    }
  }

  lemma LastDigit(v: nat, d: nat, p: nat)
    requires d < 16 && p > 0
    ensures (v * 16 + d) % (16 * p) == v % p * 16 + d
  {
    var q, r := v / p, v % p;
    assert v == q * p + r;
    assert (v * 16 + d) == q * (16 * p) + (r * 16 + d);
    Remainder(v * 16 + d, q, r * 16 + d, 16 * p);
  }

  lemma Multiples(k: int, m: nat)
    ensures (k >= 1 ==> k * m >= m) && (k <= -1 ==> k * m <= 0 - m)
  {
  }

  lemma Remainder(x: nat, q: nat, r: nat, m: nat)
    requires m > 0 && x == q * m + r && r < m
    ensures x % m == r
  {
    var k: int := x / m - q;
    assert k * m == r - x % m;
    Multiples(k, m);
  }

  lemma {:induction false} LowestPlaces(a: seq<Byte>, b: seq<Byte>, n: nat)
    requires (forall k :: 0 <= k < |a| ==> Hex(a[k])) && (forall k :: 0 <= k < |b| ==> Hex(b[k]))
    ensures Lowest(a, n) == Lowest(b, n) <==> forall i :: 0 <= i < n ==> Place(a, i) == Place(b, i)
  {
    if n > 0 {
      var x, y := Front(a), Front(b);
      LowestPlaces(x, y, n - 1);
      LowestStep(a, n);
      LowestStep(b, n);
      forall i | 0 <= i < n - 1 ensures Place(a, i + 1) == Place(x, i) && Place(b, i + 1) == Place(y, i) { }
      if forall i :: 0 <= i < n ==> Place(a, i) == Place(b, i) {
        forall i | 0 <= i < n - 1 ensures Place(x, i) == Place(y, i) { assert Place(a, i + 1) == Place(b, i + 1); }
      } else if Place(a, 0) == Place(b, 0) {
        var i :| 0 <= i < n && Place(a, i) != Place(b, i);
        assert Place(x, i - 1) != Place(y, i - 1);
      }
    }
  }

  function Front(digits: seq<Byte>): (front: seq<Byte>)
    requires forall k :: 0 <= k < |digits| ==> Hex(digits[k])
    ensures forall k :: 0 <= k < |front| ==> Hex(front[k])
  {
    if digits == [] then [] else digits[..|digits| - 1]
  }

  lemma LowestStep(digits: seq<Byte>, n: nat)
    requires n > 0 && forall k :: 0 <= k < |digits| ==> Hex(digits[k])
    ensures Lowest(digits, n) == Lowest(Front(digits), n - 1) * 16 + Place(digits, 0) && Place(digits, 0) < 16
  {
  }

  /** Exactly which lines are read as section 3.6.1 says, when the leading digits spell n: n
      fits 32 bits, and the last eight places of all digits scanned are those of n. */
  lemma SizeOfDigits(s: seq<Byte>, n: nat)
    requires SizeLine(s, 0).Line? && Spells(s[..HexLength(s)], n)
    ensures SizeLine(s, 0).size == n <==> n < TWO32 && SameTail(DigitsOf(s), s[..HexLength(s)])
  {
    hide *;
    var digits := s[..HexLength(s)];
    EightPlaces();
    SizeIs(s, 0);
    SpelledValue(digits, n);
    LowestIs(digits, 8);
    LowestIs(DigitsOf(s), 8);
    LowestPlaces(DigitsOf(s), digits, 8);
    SameTailIs(DigitsOf(s), digits);
    Below(n, ValueFrom(0, DigitsOf(s)));
  }

  /** What its digits spell: the size of every line is that number, in 32 bits. */
  lemma SizeSpelled(s: seq<Byte>, n: nat)
    requires Spells(DigitsOf(s), n)
    ensures SizeLine(s, 0).Line? ==> SizeLine(s, 0).size == n % TWO32
  {
    hide *;
    EightPlaces();
    SizeIs(s, 0);
    SpelledValue(DigitsOf(s), n);
  }

  /** Every number below 2^32 is read as written, with its digits in either case, leading
      zeros, and an extension. */
  lemma SpelledSize(digits: seq<Byte>, n: nat, ext: seq<Byte>, more: seq<Byte>)
    requires Spells(digits, n) && n < TWO32 && ExtensionOk(ext)
    ensures SizeLine(digits + ext + [CR, LF] + more, 0) == Line(n, |digits| + |ext| + 2)
  {
    hide Spells, SizeLine, ValueFrom;
    SpelledValue(digits, n);
    SizeRead(digits, ext, more, 0);
  }

  /** The usual spelling, without leading zeros. */
  function Spelling(n: nat, characters: string): (digits: seq<Byte>)
    requires characters == LOWER || characters == UPPER
    ensures |digits| >= 1 && Spells(digits, n)
  {
    Character(n % 16);
    if n < 16 then [characters[n] as int] else Spelling(n / 16, characters) + [characters[n % 16] as int]
  }

  /** In particular the usual spelling. */
  lemma UsualSize(n: nat, characters: string, more: seq<Byte>)
    requires n < TWO32 && (characters == LOWER || characters == UPPER)
    ensures SizeLine(Spelling(n, characters) + [CR, LF] + more, 0) == Line(n, |Spelling(n, characters)| + 2)
  {
    hide Spells, SizeLine, Spelling;
    var digits := Spelling(n, characters);
    assert digits + [] + [CR, LF] + more == digits + [CR, LF] + more;
    SpelledSize(digits, n, [], more);
  }

  /** The bytes of a text. */
  function Ascii(text: string): (s: seq<Byte>)
    requires forall i :: 0 <= i < |text| ==> text[i] < 256 as char
  {
    seq(|text|, i requires 0 <= i < |text| => text[i] as int)
  }

  /** The line 1g2 is read as 18, though its leading digits spell 1. */
  lemma LaterDigitsCount(rest: seq<Byte>)
    ensures var s := [49, 103, 50, CR, LF] + rest;
      SizeLine(s, 0) == Line(18, 5) && s[..HexLength(s)] == [49] && Spells([49], 1)
  {
    var s := [49, 103, 50, CR, LF] + rest;
    assert s[1..] == [103, 50, CR, LF] + rest && s[1..][1..] == [50, CR, LF] + rest;
    SizeRead([50], [], rest, 1);
    assert [50] + [] + [CR, LF] + rest == s[1..][1..];
    assert [50][1..] == [] && [49][1..] == [];
    assert ValueFrom(1, [50]) == 18;
    LeadingOne(s);
    SpelledValue([49], 1);
  }

  /** A body, byte for byte: one chunk of ten bytes and the end. */
  lemma TenBytes(rest: seq<Byte>)
    ensures Body(Ascii("a\r\n0123456789\r\n0\r\n\r\n") + rest, []) == Page(Ascii("0123456789"), 20)
  {
    var first, last := Chunk(Ascii("a"), [], Ascii("0123456789")), Chunk(Ascii("0"), [], []);
    TenWritten(first.digits, last.digits);
    TenEncoded(first, last);
    hide Body, Encode, AllData, Ascii, LineOk;
    BodyOfEncoding([first, last], rest, []);
  }

  lemma TenWritten(a: seq<Byte>, b: seq<Byte>)
    requires a == Ascii("a") && b == Ascii("0")
    ensures Spells(a, 10) && Spells(b, 0)
  {
    Character(10);
    Character(0);
    assert a == [97] && b == [48];
  }

  lemma TenText()
    ensures Ascii("a\r\n0123456789\r\n0\r\n\r\n") == [97, CR, LF] + Ascii("0123456789") + [CR, LF] + [48, CR, LF] + [CR, LF]
    ensures Ascii("a") == [97] && Ascii("0") == [48]
  {
    assert "a\r\n0123456789\r\n0\r\n\r\n" == "a\r\n" + "0123456789" + "\r\n" + "0\r\n" + "\r\n";
  }

  lemma EncodeTwo(first: Chunk, last: Chunk)
    ensures Encode([first, last]) == (LineOf(first) + first.data + [CR, LF]) + (LineOf(last) + last.data + [CR, LF])
    ensures AllData([first, last]) == first.data + last.data
  {
    assert [first, last][1..] == [last] && [last][1..] == [];
    assert Encode([last]) == LineOf(last) + last.data + [CR, LF];
    assert AllData([last]) == last.data;
  }

  lemma TenEncoded(first: Chunk, last: Chunk)
    requires first == Chunk(Ascii("a"), [], Ascii("0123456789")) && last == Chunk(Ascii("0"), [], [])
    ensures Encode([first, last]) == Ascii("a\r\n0123456789\r\n0\r\n\r\n") && |Encode([first, last])| == 20
    ensures AllData([first, last]) == Ascii("0123456789")
  {
    EncodeTwo(first, last);
    hide Encode, AllData;
    TenText();
    assert LineOf(first) == [97, CR, LF] && LineOf(last) == [48, CR, LF];
  }

  lemma LeadingOne(s: seq<Byte>)
    requires |s| >= 2 && s[0] == 49 && !Hex(s[1])
    ensures s[..HexLength(s)] == [49]
  {
  }

  lemma EightPlaces()
    ensures Power16(8) == TWO32 && 0 < TWO32
  {
    assert Power16(2) == 256;
    assert Power16(4) == 65536;
    assert Power16(6) == 16777216;
  }

  lemma SameTailIs(a: seq<Byte>, b: seq<Byte>)
    requires (forall k :: 0 <= k < |a| ==> Hex(a[k])) && (forall k :: 0 <= k < |b| ==> Hex(b[k]))
    ensures SameTail(a, b) <==> forall i :: 0 <= i < 8 ==> Place(a, i) == Place(b, i)
  {
  }

  lemma Below(a: nat, b: nat)
    ensures b % TWO32 == a <==> a < TWO32 && a % TWO32 == b % TWO32
  {
  }

  // ---- the socket ----

  class Socket {
    const fd: int
    var incoming: seq<Byte>
    ghost var failed: bool

    constructor (fd: int, incoming: seq<Byte>)
      ensures this.fd == fd && this.incoming == incoming && !failed
    {
      this.fd, this.incoming, failed := fd, incoming, false;
    }

    /** A read delivers between one and n of the next bytes, or fails. */
    method Read(n: nat) returns (got: seq<Byte>)
      requires n > 0
      modifies this
      ensures old(incoming) == got + incoming && |got| <= n && |got| <= MAX_READ
      ensures got != [] ==> failed == old(failed)
      ensures got == [] ==> failed
    {
      if incoming == [] {
        failed := true;
        return [];
      }
      if * {
        failed := true;
        return [];
      }
      var k :| 1 <= k <= n && k <= |incoming| && k <= MAX_READ;
      got := incoming[..k];
      incoming := incoming[k..];
    }
  }

  // ---- the reader ----

  /** recvn: exactly n bytes, however many reads they take. */
  method RecvN(s: Socket, n: nat, buffer: array<Byte>) returns (ok: bool)
    requires n < TWO32 && n <= buffer.Length
    modifies s, buffer
    ensures ok ==> n > 0 && |old(s.incoming)| >= n && buffer[..n] == old(s.incoming)[..n] && s.incoming == old(s.incoming)[n..]
    ensures ok ==> s.failed == old(s.failed)
    ensures !ok ==> s.failed || s.fd < 0 || n == 0
  {
    if s.fd < 0 || n == 0 { return false; }
    ghost var all, failed := s.incoming, s.failed;
    var done, remain := 0, n;
    while true
      invariant done + remain == n && remain > 0 && done <= |all| && s.incoming == all[done..] && s.failed == failed
      invariant buffer[..done] == all[..done]
      decreases remain
    {
      var got := s.Read(remain);
      if got == [] { return false; }
      CopyInto(got, buffer, done);
      MoreRead(all, done, got, s.incoming);
      done := done + |got|;
      if |got| == remain { return true; }
      remain := remain - |got|;
    }
  }

  method CopyInto(got: seq<Byte>, buffer: array<Byte>, at: nat)
    requires at + |got| <= buffer.Length
    modifies buffer
    ensures buffer[..at + |got|] == old(buffer[..at]) + got
  {
    for i := 0 to |got|
      invariant buffer[..at] == old(buffer[..at]) && buffer[at..at + i] == got[..i]
    {
      buffer[at + i] := got[i];
      assert buffer[at..at + i + 1] == buffer[at..at + i] + [got[i]];
    }
    assert buffer[..at + |got|] == buffer[..at] + buffer[at..at + |got|];
  }

  lemma MoreRead(all: seq<Byte>, done: nat, got: seq<Byte>, incoming: seq<Byte>)
    requires done <= |all| && all[done..] == got + incoming
    ensures done + |got| <= |all| && all[..done + |got|] == all[..done] + got && incoming == all[done + |got|..]
  {
    assert all == all[..done] + got + incoming;
  }

  /** Read on until the end of a line. */
  method SkipLine(s: Socket, cr: bool) returns (ok: bool)
    modifies s
    ensures ok ==> s.failed == old(s.failed)
    ensures ok ==> var line := ToCrlf(old(s.incoming), cr); line.Line? && line.used <= |old(s.incoming)| && s.incoming == old(s.incoming)[line.used..]
    ensures !ok ==> s.failed
  {
    var flag := cr;
    ghost var all, failed, n := s.incoming, s.failed, 0;
    while true
      invariant n <= |all| && s.incoming == all[n..] && s.failed == failed
      invariant ToCrlf(all, cr) == var r := ToCrlf(s.incoming, flag); if r.Line? then Line(0, r.used + n) else NoLine
      decreases |s.incoming|
    {
      var buffer := s.Read(1);
      if buffer == [] { return false; }
      n := n + 1;
      if buffer[0] == CR {
        flag := true;
      } else if buffer[0] == LF && flag {
        return true;
      } else {
        flag := false;
      }
    }
  }

  /** recv_chunk_size */
  method RecvChunkSize(s: Socket) returns (ok: bool, size: nat)
    modifies s
    ensures ok ==> s.failed == old(s.failed) && size < TWO32
    ensures ok ==> var line := SizeLine(old(s.incoming), 0);
      line.Line? && line.size == size && line.used <= |old(s.incoming)| && s.incoming == old(s.incoming)[line.used..]
    ensures !ok ==> s.failed || s.fd < 0
  {
    if s.fd < 0 { return false, 0; }
    size := 0;
    ghost var all, failed, n := s.incoming, s.failed, 0;
    while true
      invariant n <= |all| && s.incoming == all[n..] && s.failed == failed && size < TWO32
      invariant SizeLine(all, 0) == var r := SizeLine(s.incoming, size); if r.Line? then Line(r.size, r.used + n) else NoLine
      decreases |s.incoming|
    {
      var buffer := s.Read(1);
      if buffer == [] { return false, size; }
      var c := buffer[0];
      n := n + 1;
      if IsHexDigit(c) {
        if 48 <= c <= 57 {
          size := (size * 16 + c - 48) % TWO32;
        } else if 97 <= c <= 102 {
          size := (size * 16 + c - 97 + 10) % TWO32;
        } else if 65 <= c <= 70 {
          size := (size * 16 + c - 65 + 10) % TWO32;
        }
      } else if c != SP {
        ok := SkipLine(s, c == CR);
        return ok, size;
      }
    }
  }

  /** recv_and_discard: unlike the others, it refuses descriptor 0. */
  method RecvAndDiscard(s: Socket) returns (ok: bool)
    modifies s
    ensures ok ==> s.fd > 0 && s.failed == old(s.failed)
    ensures ok ==> var line := ToCrlf(old(s.incoming), false); line.Line? && line.used <= |old(s.incoming)| && s.incoming == old(s.incoming)[line.used..]
    ensures !ok ==> s.failed || s.fd <= 0
  {
    if s.fd <= 0 { return false; }
    ok := SkipLine(s, false);
  }

  lemma BodyNotBig(s: seq<Byte>, page: seq<Byte>, size: nat, k: nat)
    requires SizeLine(s, 0) == Line(size, k) && size > 0 && Body(s, page) != TooBig
    ensures size + 2 < TWO32 && |page| + size < TWO32
  {
    hide SizeLine;
  }

  lemma BodyLast(s: seq<Byte>, page: seq<Byte>, k: nat, end: nat)
    requires k <= |s| && SizeLine(s, 0) == Line(0, k) && ToCrlf(s[k..], false) == Line(0, end)
    ensures Body(s, page) == Page(page, k + end)
  {
    hide SizeLine, ToCrlf;
  }

  datatype Progress = Again | Last | Failed

  /** One chunk: its size line, its data and its end of line. */
  method RecvChunk(s: Socket, page0: seq<Byte>) returns (next: Progress, page: seq<Byte>, ghost used: nat)
    requires Body(s.incoming, page0) != TooBig && !s.failed
    modifies s
    ensures next == Failed <==> s.failed || (s.fd <= 0 && next != Again)
    ensures next != Failed ==> 0 < used <= |old(s.incoming)| && s.incoming == old(s.incoming)[used..]
    ensures next == Again ==> Body(old(s.incoming), page0) == Shift(Body(s.incoming, page), used)
    ensures next == Last ==> Body(old(s.incoming), page0) == Page(page, used)
  {
    hide Body, SizeLine, ToCrlf;
    ghost var at := s.incoming;
    page, used := page0, 0;
    var ok, size := RecvChunkSize(s);
    if !ok { return Failed, page, 0; }
    ghost var k := SizeLine(at, 0).used;
    LineNotEmpty(at);
    if size == 0 {
      ok := RecvAndDiscard(s);
      if !ok { return Failed, page, 0; }
      used := k + ToCrlf(at[k..], false).used;
      BodyLast(at, page0, k, ToCrlf(at[k..], false).used);
      return Last, page, used;
    }
    BodyNotBig(at, page0, size, k);
    var chunk := new Byte[size + 2];
    ok := RecvN(s, size + 2, chunk);
    if !ok { return Failed, page, 0; }
    FirstPart(chunk[..size + 2], at, k, size);
    BodyStep(at, page0, size, k);
    assert chunk[..size] == chunk[..size + 2][..size];
    page := page0 + chunk[..size];
    used := k + size + 2;
    next := Again;
  }

  lemma LineNotEmpty(s: seq<Byte>)
    ensures SizeLine(s, 0).Line? ==> SizeLine(s, 0).used > 0
    ensures forall k :: 0 <= k <= |s| ==> ToCrlf(s[k..], false).Line? ==> ToCrlf(s[k..], false).size == 0
  {
    forall k | 0 <= k <= |s| && ToCrlf(s[k..], false).Line? ensures ToCrlf(s[k..], false).size == 0 { }
  }

  /** recv_by_chunk: on every stream whose sizes fit, the page and the bytes used are
      those of Body unless a read fails or the descriptor is refused. */
  method RecvByChunk(s: Socket) returns (ok: bool, page: seq<Byte>)
    requires Body(s.incoming, []) != TooBig && !s.failed
    modifies s
    ensures ok <==> s.fd > 0 && !s.failed
    ensures ok ==> var body := Body(old(s.incoming), []);
      body.Page? && body.content == page && body.used <= |old(s.incoming)| && s.incoming == old(s.incoming)[body.used..]
  {
    hide Body;
    page := [];
    ghost var all, n := s.incoming, 0;
    ShiftNone(Body(all, []));
    while true
      invariant 0 <= n <= |all| && s.incoming == all[n..] && !s.failed
      invariant Body(all, []) == Shift(Body(s.incoming, page), n)
      decreases |s.incoming|
    {
      ghost var used;
      var next;
      next, page, used := RecvChunk(s, page);
      if next == Failed { return false, page; }
      if next == Last { return true, page; }
      n := n + used;
    }
  }

  lemma ShiftNone(o: Outcome)
    ensures Shift(o, 0) == o
  {
  }

  /** For every chunking, every extension and every fragmentation: the page is the
      concatenated data, and the socket stands right behind the body. */
  method ReadBody(s: Socket, ghost chunks: seq<Chunk>, ghost rest: seq<Byte>) returns (ok: bool, page: seq<Byte>)
    requires WellFormed(chunks) && |AllData(chunks)| + 2 < TWO32
    requires s.incoming == Encode(chunks) + rest && !s.failed
    modifies s
    ensures ok <==> s.fd > 0 && !s.failed
    ensures ok ==> page == AllData(chunks) && s.incoming == rest
  {
    BodyOfEncoding(chunks, rest, []);
    hide Body, WellFormed;
    ok, page := RecvByChunk(s);
  }

  // ---- the end of a header ----

  const MARK: seq<Byte> := [CR, LF, CR, LF]

  /** s ends with the first j bytes of the mark. */
  predicate EndsWith(s: seq<Byte>, j: nat) {
    j <= 4 && j <= |s| && s[|s| - j..] == MARK[..j]
  }

  /** How much of the mark has been seen at the end of s: as much as possible. */
  predicate Seen(s: seq<Byte>, j: nat) {
    EndsWith(s, j) && forall i :: j < i <= 4 ==> !EndsWith(s, i)
  }

  /** The scanner's next state. */
  function NextSeen(j: nat, c: Byte): nat
    requires j < 4
  {
    if c == CR then (if j == 0 || j == 2 then j + 1 else 1)
    else if c == LF then (if j == 1 || j == 3 then j + 1 else 0)
    else 0
  }

  lemma EndsWithNext(s: seq<Byte>, c: Byte, j: nat)
    requires j < 4
    ensures EndsWith(s + [c], j + 1) <==> EndsWith(s, j) && c == if j % 2 == 0 then CR else LF
  {
    hide MARK;
    MarkPart(j);
    var t := s + [c];
    if j <= |s| {
      assert t[|t| - (j + 1)..] == s[|s| - j..] + [c];
      SameEnds(s[|s| - j..], c, MARK[..j], if j % 2 == 0 then CR else LF);
    }
  }

  lemma MarkPart(j: nat)
    requires j < 4
    ensures |MARK| == 4 && MARK[..j + 1] == MARK[..j] + [if j % 2 == 0 then CR else LF]
  {
  }

  lemma SameEnds(a: seq<Byte>, x: Byte, b: seq<Byte>, y: Byte)
    requires |a| == |b|
    ensures a + [x] == b + [y] <==> a == b && x == y
  {
    if a + [x] == b + [y] {
      assert a == (a + [x])[..|a|] && b == (b + [y])[..|a|];
      assert (a + [x])[|a|] == x && (b + [y])[|a|] == y;
    }
  }

  lemma EndsWithNothing(s: seq<Byte>)
    ensures EndsWith(s, 0)
  {
  }

  /** The scanner's state stays the longest part of the mark just seen. */
  lemma SeenNext(s: seq<Byte>, c: Byte, j: nat)
    requires Seen(s, j) && j < 4
    ensures Seen(s + [c], NextSeen(j, c))
  {
    hide EndsWith, MARK;
    EndsWithNothing(s + [c]);
    EndsWithNext(s, c, 0);
    EndsWithNext(s, c, 1);
    EndsWithNext(s, c, 2);
    EndsWithNext(s, c, 3);
    Overlap(s, j);
  }

  /** Which shorter parts of the mark a longer one ends with. */
  lemma Overlap(s: seq<Byte>, j: nat)
    requires EndsWith(s, j)
    ensures EndsWith(s, 0) && (j == 3 ==> EndsWith(s, 1) && !EndsWith(s, 2)) && (j == 2 ==> !EndsWith(s, 1)) && (j == 1 ==> !EndsWith(s, 2))
  {
    assert MARK[..1] == [CR] && MARK[..2] == [CR, LF] && MARK[..3] == [CR, LF, CR];
    if j > 0 { assert s[|s| - 1] == MARK[j - 1]; }
  }

  lemma SeenNothing()
    ensures Seen([], 0)
  {
  }

  lemma SeenEnd(s: seq<Byte>, j: nat)
    requires Seen(s, j)
    ensures j <= |s| && j <= 4 && (j == 4 <==> EndsWith(s, 4))
  {
  }

  /** What is kept of a header: everything but the carriage returns. */
  function WithoutCr(s: seq<Byte>): seq<Byte> {
    if s == [] then []
    else if s[|s| - 1] == CR then WithoutCr(s[..|s| - 1])
    else WithoutCr(s[..|s| - 1]) + [s[|s| - 1]]
  }

  /** recv_http_response_header: read up to the first empty line, dropping carriage
      returns, unless max bytes have been kept before. */
  method RecvHeader(s: Socket, max: nat) returns (ok: bool, header: seq<Byte>, ghost n: nat)
    requires max > 0 && !s.failed
    modifies s
    ensures n <= |old(s.incoming)| && (ok || !s.failed ==> s.incoming == old(s.incoming)[n..])
    ensures forall k :: 0 <= k < n ==> !EndsWith(old(s.incoming)[..k], 4)
    ensures ok ==> n >= 4 && EndsWith(old(s.incoming)[..n], 4) && header == WithoutCr(old(s.incoming)[..n - 4])
    ensures !ok ==> s.failed || s.fd < 0 || |WithoutCr(old(s.incoming)[..n])| >= max
  {
    hide EndsWith, MARK, Seen;
    header, n := [], 0;
    if s.fd < 0 { return false, [], 0; }
    var isEnd := 0;
    ghost var all := s.incoming;
    SeenNothing();
    assert all[..0] == [];
    while isEnd != 4 && |header| < max
      invariant n <= |all| && s.incoming == all[n..] && !s.failed
      invariant 0 <= isEnd <= 4 && Seen(all[..n], isEnd) && header == WithoutCr(all[..n])
      invariant forall k :: 0 <= k < n ==> !EndsWith(all[..k], 4)
      decreases |s.incoming|
    {
      var got := s.Read(1);
      if got == [] { return false, [], n; }
      var c := got[0];
      SeenNext(all[..n], c, isEnd);
      SeenEnd(all[..n], isEnd);
      assert all[n..][1..] == all[n + 1..];
      assert all[..n + 1] == all[..n] + [c];
      assert all[..n + 1][..n] == all[..n];
      if c == CR {
        isEnd := if isEnd == 0 || isEnd == 2 then isEnd + 1 else 1;
      } else if c == LF {
        isEnd := if isEnd == 1 || isEnd == 3 then isEnd + 1 else 0;
        header := header + [c];
      } else {
        isEnd := 0;
        header := header + [c];
      }
      n := n + 1;
    }
    if isEnd == 4 && |header| < max {
      SeenEnd(all[..n], isEnd);
      MarkKept(all[..n]);
      assert all[..n][..n - 4] == all[..n - 4];
      header := header[..|header| - 2];
      ok := true;
    } else {
      return false, [], n;
    }
  }

  lemma WithoutCrSnoc(s: seq<Byte>, c: Byte)
    ensures WithoutCr(s + [c]) == if c == CR then WithoutCr(s) else WithoutCr(s) + [c]
  {
    assert (s + [c])[..|s|] == s;
  }

  lemma MarkAtEnd(s: seq<Byte>)
    requires EndsWith(s, 4)
    ensures s == s[..|s| - 4] + [CR] + [LF] + [CR] + [LF]
  {
    assert s == s[..|s| - 4] + s[|s| - 4..];
    assert MARK[..4] == MARK;
  }

  /** Of the mark itself, the two line feeds are kept. */
  lemma MarkKept(s: seq<Byte>)
    requires EndsWith(s, 4)
    ensures WithoutCr(s) == WithoutCr(s[..|s| - 4]) + [LF, LF]
  {
    hide WithoutCr, EndsWith, MARK;
    MarkAtEnd(s);
    var a := s[..|s| - 4];
    WithoutCrSnoc(a, CR);
    WithoutCrSnoc(a + [CR], LF);
    WithoutCrSnoc(a + [CR] + [LF], CR);
    WithoutCrSnoc(a + [CR] + [LF] + [CR], LF);
  }
}
