/** How strings are spelled and what each spelling means: plain bytes, the eight
    simple escapes, and code points by their hexadecimal digits. */
module JsonStrings {
  import opened Domain
  import opened StrictJson
  import opened JsonTheorems

  // ----- UTF-8, as section 3 of RFC 3629 lays out its bits -----

  /** A byte 10xxxxxx. */
  predicate Continues(b: uint8) { 0x80 <= b < 0xc0 }

  /** Six more bits. */
  function Bits(high: nat, b: uint8): nat
    requires Continues(b)
  {
    high * 0x40 + (b - 0x80)
  }

  predicate Surrogate(codePoint: nat) { 0xd800 <= codePoint <= 0xdfff }

  /** The code point at the front of some bytes and the number of bytes it
      takes: 0xxxxxxx, 110xxxxx 10xxxxxx, 1110xxxx 10xxxxxx 10xxxxxx or
      11110xxx 10xxxxxx 10xxxxxx 10xxxxxx, in the shortest form that holds it. */
  function Decode(s: Bytes): Option<(nat, nat)> {
    if |s| >= 1 && s[0] < 0x80 then Some((s[0], 1))
    else if |s| >= 2 && 0xc0 <= s[0] < 0xe0 && Continues(s[1]) then
      Shortest(Bits(s[0] - 0xc0, s[1]), 0x80, 2)
    else if |s| >= 3 && 0xe0 <= s[0] < 0xf0 && Continues(s[1]) && Continues(s[2]) then
      Shortest(Bits(Bits(s[0] - 0xe0, s[1]), s[2]), 0x800, 3)
    else if |s| >= 4 && 0xf0 <= s[0] < 0xf8 && Continues(s[1]) && Continues(s[2]) && Continues(s[3]) then
      Shortest(Bits(Bits(Bits(s[0] - 0xf0, s[1]), s[2]), s[3]), 0x10000, 4)
    else None
  }

  function Shortest(codePoint: nat, least: nat, length: nat): Option<(nat, nat)> {
    if least <= codePoint <= 0x10ffff && !Surrogate(codePoint) then Some((codePoint, length)) else None
  }

  /** The bytes are the code point and nothing more. */
  ghost predicate Encodes(s: Bytes, codePoint: nat) { Decode(s) == Some((codePoint, |s|)) }

  /** The low six bits are the last byte, and the others come before. */
  lemma {:induction false} BitsSplit(codePoint: nat, high: nat, b: uint8)
    requires Continues(b)
    ensures Bits(high, b) == codePoint <==> high == codePoint / 0x40 && b == 0x80 + codePoint % 0x40
  {
  }

  lemma {:induction false} HighBits(codePoint: nat)
    ensures codePoint / 0x40 / 0x40 == codePoint / 0x1000 && codePoint / 0x1000 / 0x40 == codePoint / 0x40000
  {
  }

  lemma {:induction false} DecodesAs(s: Bytes, u: Bytes, codePoint: nat)
    requires codePoint <= 0x10ffff && !Surrogate(codePoint) && u == Utf8(codePoint)
    requires |u| <= |s| && forall i | 0 <= i < |u| :: s[i] == u[i]
    ensures Decode(s) == Some((codePoint, |u|))
  {
    HighBits(codePoint);
    if codePoint > 0x7f {
      BitsSplit(codePoint, codePoint / 0x40, u[|u| - 1]);
      if codePoint > 0x7ff {
        BitsSplit(codePoint / 0x40, codePoint / 0x1000, u[|u| - 2]);
        if codePoint > 0xffff {
          BitsSplit(codePoint / 0x1000, codePoint / 0x40000, u[|u| - 3]);
        }
      }
    }
  }

  lemma {:induction false} Utf8Decodes(codePoint: nat, tail: Bytes)
    requires codePoint <= 0x10ffff && !Surrogate(codePoint)
    ensures Decode(Utf8(codePoint) + tail) == Some((codePoint, |Utf8(codePoint)|))
  {
    DecodesAs(Utf8(codePoint) + tail, Utf8(codePoint), codePoint);
  }

  lemma {:induction false} DecodedIs(s: Bytes, codePoint: nat)
    requires Encodes(s, codePoint)
    ensures codePoint <= 0x10ffff && !Surrogate(codePoint) && s == Utf8(codePoint)
  {
    HighBits(codePoint);
    if 0x80 <= s[0] < 0xe0 {
      BitsSplit(codePoint, s[0] - 0xc0, s[1]);
    } else if 0xe0 <= s[0] < 0xf0 {
      var middle := Bits(s[0] - 0xe0, s[1]);
      BitsSplit(codePoint, middle, s[2]);
      BitsSplit(middle, s[0] - 0xe0, s[1]);
    } else if 0xf0 <= s[0] {
      var upper := Bits(s[0] - 0xf0, s[1]);
      var middle := Bits(upper, s[2]);
      BitsSplit(codePoint, middle, s[3]);
      BitsSplit(middle, upper, s[2]);
      BitsSplit(upper, s[0] - 0xf0, s[1]);
    }
  }

  /** UTF-8 gives a code point its only encoding. */
  lemma {:induction false} Utf8IsTheEncoding(s: Bytes, codePoint: nat)
    requires codePoint <= 0x10ffff && !Surrogate(codePoint)
    ensures Encodes(s, codePoint) <==> s == Utf8(codePoint)
  {
    Utf8Decodes(codePoint, []);
    assert Utf8(codePoint) + [] == Utf8(codePoint);
    if Encodes(s, codePoint) {
      DecodedIs(s, codePoint);
    }
  }

  // ----- pieces of a string -----

  datatype Piece =
    | Plain(byte: uint8)               // itself
    | Simple(letter: uint8)            // a backslash and the letter
    | Unit(digits: Bytes)              // \u and four hexadecimal digits
    | Pair(high: Bytes, low: Bytes)    // two of those, for one code point beyond 0xffff

  /** What the letters n, t, r, b, f and the signs after a backslash stand for. */
  const SIMPLE: map<uint8, uint8> :=
    map[34 := 34, 92 := 92, 47 := 47, 98 := 8, 102 := 12, 110 := 10, 114 := 13, 116 := 9]

  const HEX: seq<uint8> := [48, 49, 50, 51, 52, 53, 54, 55, 56, 57, 97, 98, 99, 100, 101, 102]
  const UPPER_HEX: seq<uint8> := [48, 49, 50, 51, 52, 53, 54, 55, 56, 57, 65, 66, 67, 68, 69, 70]

  /** The digit, in either case, stands for the number. */
  ghost predicate StandsFor(digit: uint8, n: nat) { n < 16 && (digit == HEX[n] || digit == UPPER_HEX[n]) }

  /** Four digits, the most significant first. */
  ghost predicate Spells(digits: Bytes, n: nat) {
    && |digits| == 4 && n < 0x10000
    && StandsFor(digits[0], n / 0x1000) && StandsFor(digits[1], n / 0x100 % 0x10)
    && StandsFor(digits[2], n / 0x10 % 0x10) && StandsFor(digits[3], n % 0x10)
  }

  function PieceText(p: Piece): Bytes {
    match p
    case Plain(b) => [b]
    case Simple(letter) => [92, letter]
    case Unit(digits) => [92, 117] + digits
    case Pair(high, low) => [92, 117] + high + [92, 117] + low
  }

  /** The piece is well formed and stands for the bytes. */
  ghost predicate PieceMeans(p: Piece, bytes: Bytes) {
    match p
    case Plain(b) => b >= 32 && b != 34 && b != 92 && bytes == [b]
    case Simple(letter) => letter in SIMPLE && bytes == [SIMPLE[letter]]
    case Unit(digits) => exists n: nat :: Spells(digits, n) && Encodes(bytes, n)
    case Pair(high, low) =>
      exists h: nat, l: nat ::
        && Spells(high, h) && 0xd800 <= h <= 0xdbff && Spells(low, l) && 0xdc00 <= l <= 0xdfff
        && Encodes(bytes, Supplementary(h, l))
  }

  function PiecesText(pieces: seq<Piece>): Bytes {
    if pieces == [] then [] else PieceText(pieces[0]) + PiecesText(pieces[1..])
  }

  ghost predicate PiecesMean(pieces: seq<Piece>, bytes: Bytes) {
    if pieces == [] then bytes == []
    else exists k | 0 <= k <= |bytes| :: PieceMeans(pieces[0], bytes[..k]) && PiecesMean(pieces[1..], bytes[k..])
  }

  // ----- what the reader makes of a piece -----

  lemma {:induction false} HexDigitIff(c: uint8, n: nat)
    ensures HexDigit(c) == Some(n) <==> StandsFor(c, n)
  {
  }

  lemma {:induction false} QuadIff(s: Bytes, digits: Bytes, n: nat)
    requires |s| >= 4 && digits == s[..4]
    ensures HexQuad(s) == Some(n) <==> Spells(digits, n)
  {
    var a, b, c, d := HexDigit(s[0]), HexDigit(s[1]), HexDigit(s[2]), HexDigit(s[3]);
    HexDigitIff(s[0], n / 0x1000);
    HexDigitIff(s[1], n / 0x100 % 0x10);
    HexDigitIff(s[2], n / 0x10 % 0x10);
    HexDigitIff(s[3], n % 0x10);
    if a.Some? && b.Some? && c.Some? && d.Some? {
      QuadDigits(a.value, b.value, c.value, d.value, n);
    }
  }

  lemma {:induction false} QuadDigits(a: nat, b: nat, c: nat, d: nat, n: nat)
    requires a < 16 && b < 16 && c < 16 && d < 16
    ensures n == ((a * 16 + b) * 16 + c) * 16 + d
      <==> n < 0x10000 && a == n / 0x1000 && b == n / 0x100 % 0x10 && c == n / 0x10 % 0x10 && d == n % 0x10
  {
    var ab := a * 16 + b;
    var abc := ab * 16 + c;
    LastDigit(n, abc, d);
    LastDigit(n / 16, ab, c);
    LastDigit(n / 16 / 16, a, b);
    Sixteenths(n);
  }

  lemma {:induction false} LastDigit(n: nat, high: nat, digit: nat)
    requires digit < 16
    ensures n == high * 16 + digit <==> high == n / 16 && digit == n % 16
  {
  }

  lemma {:induction false} Sixteenths(n: nat)
    ensures n / 16 / 16 == n / 0x100 && n / 16 / 16 / 16 == n / 0x1000
    ensures n < 0x10000 <==> n / 0x1000 < 16
  {
  }

  lemma {:induction false} UnitReads(digits: Bytes, n: nat, bytes: Bytes, tail: Bytes)
    requires Spells(digits, n) && Encodes(bytes, n)
    ensures UnicodeEscape(digits + tail) == Some((bytes, tail))
  {
    var s := digits + tail;
    assert s[..4] == digits && s[4..] == tail;
    QuadIff(s, digits, n);
    DecodedIs(bytes, n);
  }

  /** The code point of a pair of surrogates. */
  function Supplementary(h: nat, l: nat): (codePoint: nat)
    requires 0xd800 <= h <= 0xdbff && 0xdc00 <= l <= 0xdfff
    ensures 0x10000 <= codePoint <= 0x10ffff
  {
    0x10000 + 0x400 * (h - 0xd800) + (l - 0xdc00)
  }

  lemma {:induction false} PairText(high: Bytes, low: Bytes, tail: Bytes)
    requires |high| == |low| == 4
    ensures var s := high + [BACKSLASH, LOWER_U] + low + tail;
      |s| >= 10 && s[..4] == high && s[4] == BACKSLASH && s[5] == LOWER_U && s[6..][..4] == low && s[10..] == tail
  {
  }

  lemma {:induction false} PairEscape(s: Bytes, h: nat, l: nat)
    requires |s| >= 10 && s[4] == BACKSLASH && s[5] == LOWER_U && HexQuad(s) == Some(h) && HexQuad(s[6..]) == Some(l)
    requires 0xd800 <= h <= 0xdbff && 0xdc00 <= l <= 0xdfff
    ensures UnicodeEscape(s) == Some((Utf8(Supplementary(h, l)), s[10..]))
  {
  }

  lemma {:induction false} PairReads(high: Bytes, h: nat, low: Bytes, l: nat, bytes: Bytes, tail: Bytes)
    requires Spells(high, h) && 0xd800 <= h <= 0xdbff && Spells(low, l) && 0xdc00 <= l <= 0xdfff
    requires Encodes(bytes, Supplementary(h, l))
    ensures UnicodeEscape(high + [BACKSLASH, LOWER_U] + low + tail) == Some((bytes, tail))
  {
    var s := high + [BACKSLASH, LOWER_U] + low + tail;
    PairText(high, low, tail);
    QuadIff(s, high, h);
    QuadIff(s[6..], low, l);
    DecodedIs(bytes, Supplementary(h, l));
    PairEscape(s, h, l);
  }

  lemma {:induction false} SimpleIff(c: uint8)
    ensures SimpleEscape(c) == if c in SIMPLE then Some(SIMPLE[c]) else None
    ensures c == LOWER_U ==> c !in SIMPLE
  {
  }

  lemma {:induction false} EscapeReads(s: Bytes, escaped: Bytes, bytes: Bytes, tail: Bytes, read: Bytes)
    requires s == [BACKSLASH] + escaped && ReadEscape(escaped) == Some((bytes, tail))
    ensures ReadString(s, read) == ReadString(tail, read + bytes)
  {
    TailOf(BACKSLASH, escaped);
  }

  lemma {:induction false} CodeReads(s: Bytes, code: Bytes, bytes: Bytes, tail: Bytes, read: Bytes)
    requires s == [BACKSLASH] + ([LOWER_U] + code) && UnicodeEscape(code) == Some((bytes, tail))
    ensures ReadString(s, read) == ReadString(tail, read + bytes)
  {
    TailOf(LOWER_U, code);
    SimpleIff(LOWER_U);
    EscapeReads(s, [LOWER_U] + code, bytes, tail, read);
  }

  lemma {:induction false} UnitPieceReads(digits: Bytes, bytes: Bytes, tail: Bytes, read: Bytes)
    requires PieceMeans(Unit(digits), bytes)
    ensures ReadString([BACKSLASH, LOWER_U] + digits + tail, read) == ReadString(tail, read + bytes)
  {
    var n: nat :| Spells(digits, n) && Encodes(bytes, n);
    UnitReads(digits, n, bytes, tail);
    UnitCode(digits, tail);
    CodeReads([BACKSLASH, LOWER_U] + digits + tail, digits + tail, bytes, tail, read);
  }

  lemma {:induction false} UnitCode(digits: Bytes, tail: Bytes)
    ensures [BACKSLASH, LOWER_U] + digits + tail == [BACKSLASH] + ([LOWER_U] + (digits + tail))
  {
  }

  lemma {:induction false} PairPieceReads(high: Bytes, low: Bytes, bytes: Bytes, tail: Bytes, read: Bytes)
    requires PieceMeans(Pair(high, low), bytes)
    ensures ReadString([BACKSLASH, LOWER_U] + high + [BACKSLASH, LOWER_U] + low + tail, read) == ReadString(tail, read + bytes)
  {
    var h: nat, l: nat :|
      && Spells(high, h) && 0xd800 <= h <= 0xdbff && Spells(low, l) && 0xdc00 <= l <= 0xdfff
      && Encodes(bytes, Supplementary(h, l));
    PairReads(high, h, low, l, bytes, tail);
    PairCode(high, low, tail);
    CodeReads([BACKSLASH, LOWER_U] + high + [BACKSLASH, LOWER_U] + low + tail, high + [BACKSLASH, LOWER_U] + low + tail,
              bytes, tail, read);
  }

  lemma {:induction false} PairCode(high: Bytes, low: Bytes, tail: Bytes)
    ensures [BACKSLASH, LOWER_U] + high + [BACKSLASH, LOWER_U] + low + tail
         == [BACKSLASH] + ([LOWER_U] + (high + [BACKSLASH, LOWER_U] + low + tail))
  {
  }

  lemma {:induction false} PieceReads(p: Piece, bytes: Bytes, tail: Bytes, read: Bytes)
    requires PieceMeans(p, bytes)
    ensures ReadString(PieceText(p) + tail, read) == ReadString(tail, read + bytes)
  {
    match p {
      case Plain(b) => TailOf(b, tail);
      case Simple(letter) => SimplePieceReads(letter, bytes, tail, read);
      case Unit(digits) => UnitPieceReads(digits, bytes, tail, read);
      case Pair(high, low) => PairPieceReads(high, low, bytes, tail, read);
    }
  }

  lemma {:induction false} SimplePieceReads(letter: uint8, bytes: Bytes, tail: Bytes, read: Bytes)
    requires PieceMeans(Simple(letter), bytes)
    ensures ReadString([BACKSLASH, letter] + tail, read) == ReadString(tail, read + bytes)
  {
    assert [BACKSLASH, letter] + tail == [BACKSLASH] + ([letter] + tail);
    TailOf(letter, tail);
    SimpleIff(letter);
    EscapeReads([BACKSLASH, letter] + tail, [letter] + tail, bytes, tail, read);
  }

  lemma {:induction false} Joined(read: Bytes, bytes: Bytes, k: nat)
    requires k <= |bytes|
    ensures read + bytes[..k] + bytes[k..] == read + bytes
  {
  }

  /** Every spelling of a string reads as the bytes it stands for. */
  lemma {:induction false} PiecesRead(pieces: seq<Piece>, bytes: Bytes, tail: Bytes, read: Bytes)
    requires PiecesMean(pieces, bytes)
    ensures ReadString(PiecesText(pieces) + [QUOTE] + tail, read) == Some((read + bytes, tail))
    decreases |pieces|
  {
    if pieces == [] {
      assert [] + [QUOTE] + tail == [QUOTE] + tail;
      TailOf(QUOTE, tail);
      assert read + [] == read;
    } else {
      var k :| 0 <= k <= |bytes| && PieceMeans(pieces[0], bytes[..k]) && PiecesMean(pieces[1..], bytes[k..]);
      var more := PiecesText(pieces[1..]) + [QUOTE] + tail;
      Regroup3(PieceText(pieces[0]), PiecesText(pieces[1..]), [QUOTE], tail);
      PieceReads(pieces[0], bytes[..k], more, read);
      PiecesRead(pieces[1..], bytes[k..], tail, read + bytes[..k]);
      Joined(read, bytes, k);
    }
  }

  // ----- and nothing else reads -----

  lemma {:induction false} PairSpelled(code: Bytes, h: nat) returns (p: Piece)
    requires UnicodeEscape(code).Some? && HexQuad(code) == Some(h) && 0xd800 <= h <= 0xdbff
    ensures PieceMeans(p, UnicodeEscape(code).value.0) && [BACKSLASH, LOWER_U] + code == PieceText(p) + UnicodeEscape(code).value.1
  {
    var l := HexQuad(code[6..]).value;
    PairEscape(code, h, l);
    var high, low, rest := code[..4], code[6..10], code[10..];
    QuadIff(code, high, h);
    QuadIff(code[6..], low, l);
    Utf8IsTheEncoding(Utf8(Supplementary(h, l)), Supplementary(h, l));
    p := Pair(high, low);
    PairSplits(code);
  }

  lemma {:induction false} PairSplits(code: Bytes)
    requires |code| >= 10 && code[4] == BACKSLASH && code[5] == LOWER_U
    ensures [BACKSLASH, LOWER_U] + code == [92, 117] + code[..4] + [92, 117] + code[6..10] + code[10..]
  {
  }

  lemma {:induction false} UnitSpelled(code: Bytes, n: nat) returns (p: Piece)
    requires UnicodeEscape(code).Some? && HexQuad(code) == Some(n) && !(0xd800 <= n <= 0xdbff)
    ensures PieceMeans(p, UnicodeEscape(code).value.0) && [BACKSLASH, LOWER_U] + code == PieceText(p) + UnicodeEscape(code).value.1
  {
    QuadIff(code, code[..4], n);
    Utf8IsTheEncoding(Utf8(n), n);
    p := Unit(code[..4]);
    assert [BACKSLASH, LOWER_U] + code == [92, 117] + code[..4] + code[4..];
  }

  lemma {:induction false} CodeSpelled(code: Bytes) returns (p: Piece)
    requires UnicodeEscape(code).Some?
    ensures PieceMeans(p, UnicodeEscape(code).value.0) && [BACKSLASH, LOWER_U] + code == PieceText(p) + UnicodeEscape(code).value.1
  {
    var n := HexQuad(code).value;
    if 0xd800 <= n <= 0xdbff {
      p := PairSpelled(code, n);
    } else {
      p := UnitSpelled(code, n);
    }
  }

  /** What is read before the closing quote starts with a well-formed piece. */
  lemma {:induction false} PieceSpelled(s: Bytes, read: Bytes) returns (p: Piece, bytes: Bytes, tail: Bytes)
    requires ReadString(s, read).Some? && s[0] != QUOTE
    ensures PieceMeans(p, bytes) && s == PieceText(p) + tail && |tail| < |s|
    ensures ReadString(s, read) == ReadString(tail, read + bytes)
  {
    if s[0] != BACKSLASH {
      p, bytes, tail := Plain(s[0]), [s[0]], s[1..];
    } else {
      var escape := ReadEscape(s[1..]).value;
      bytes, tail := escape.0, escape.1;
      SimpleIff(s[1]);
      if s[1] in SIMPLE {
        p := Simple(s[1]);
        assert s == [BACKSLASH, s[1]] + s[1..][1..];
      } else {
        p := CodeSpelled(s[1..][1..]);
        assert s == [BACKSLASH, LOWER_U] + s[1..][1..];
      }
    }
  }

  /** A text that reads as a string spells it, up to the closing quote. */
  ghost predicate Spelled(s: Bytes, pieces: seq<Piece>, bytes: Bytes, rest: Bytes) {
    PiecesMean(pieces, bytes) && s == PiecesText(pieces) + [QUOTE] + rest
  }

  lemma {:induction false} StringSpelled(s: Bytes, read: Bytes) returns (pieces: seq<Piece>, bytes: Bytes)
    requires ReadString(s, read).Some?
    ensures ReadString(s, read).value.0 == read + bytes
    ensures Spelled(s, pieces, bytes, ReadString(s, read).value.1)
    decreases |s|
  {
    if s[0] == QUOTE {
      pieces, bytes := [], [];
      SpelledEmpty(s, read);
    } else {
      var p, first, tail := PieceSpelled(s, read);
      var others, more := StringSpelled(tail, read + first);
      SpelledOn(s, p, first, tail, others, more, ReadString(s, read).value.1);
      pieces, bytes := [p] + others, first + more;
      Regroup2(read, first, more);
    }
  }

  lemma {:induction false} SpelledEmpty(s: Bytes, read: Bytes)
    requires s != [] && s[0] == QUOTE
    ensures Spelled(s, [], [], s[1..]) && read + [] == read
  {
    assert s == PiecesText([]) + [QUOTE] + s[1..];
  }

  lemma {:induction false} Regroup2(a: Bytes, b: Bytes, c: Bytes)
    ensures a + b + c == a + (b + c)
  {
  }

  lemma {:induction false} SpelledOn(s: Bytes, p: Piece, first: Bytes, tail: Bytes, others: seq<Piece>, more: Bytes, rest: Bytes)
    requires PieceMeans(p, first) && s == PieceText(p) + tail && Spelled(tail, others, more, rest)
    ensures Spelled(s, [p] + others, first + more, rest)
  {
    MeansOn(p, first, others, more);
    Regroup3(PieceText(p), PiecesText(others), [QUOTE], rest);
  }

  lemma {:induction false} MeansOn(p: Piece, first: Bytes, others: seq<Piece>, more: Bytes)
    requires PieceMeans(p, first) && PiecesMean(others, more)
    ensures PiecesMean([p] + others, first + more) && PiecesText([p] + others) == PieceText(p) + PiecesText(others)
  {
    var k := |first|;
    assert (first + more)[..k] == first && (first + more)[k..] == more;
    assert ([p] + others)[1..] == others;
  }
}
