/** The JSON subset of the hours seed: objects, arrays, strings and integers, as
    byte strings.  What a text means, and the canonical text of a value. */
module StrictJson {
  import opened Domain

  type Bytes = seq<uint8>

  datatype Json =
    | Int(value: int64)
    | Str(text: Bytes)
    | Arr(items: seq<Json>)
    | Obj(members: seq<Member>)

  datatype Member = Member(key: Bytes, value: Json)

  const QUOTE: uint8 := 34
  const COMMA: uint8 := 44
  const MINUS: uint8 := 45
  const DOT: uint8 := 46
  const SLASH: uint8 := 47
  const ZERO: uint8 := 48
  const COLON: uint8 := 58
  const OPEN_ARRAY: uint8 := 91
  const BACKSLASH: uint8 := 92
  const CLOSE_ARRAY: uint8 := 93
  const OPEN_OBJECT: uint8 := 123
  const CLOSE_OBJECT: uint8 := 125
  const LOWER_A: uint8 := 97
  const UPPER_A: uint8 := 65
  const LOWER_B: uint8 := 98
  const LOWER_E: uint8 := 101
  const UPPER_E: uint8 := 69
  const LOWER_F: uint8 := 102
  const LOWER_N: uint8 := 110
  const LOWER_R: uint8 := 114
  const LOWER_T: uint8 := 116
  const LOWER_U: uint8 := 117

  // ----- the members of an object, sorted by key -----

  /** Byte order. */
  predicate KeyLess(a: Bytes, b: Bytes) {
    if b == [] then false
    else if a == [] then true
    else a[0] < b[0] || (a[0] == b[0] && KeyLess(a[1..], b[1..]))
  }

  predicate Ascending(members: seq<Member>) {
    forall i, j | 0 <= i < j < |members| :: KeyLess(members[i].key, members[j].key)
  }

  predicate HasKey(members: seq<Member>, key: Bytes) {
    exists i | 0 <= i < |members| :: members[i].key == key
  }

  /** An ordered map's insertion; the key is new. */
  function WithMember(members: seq<Member>, m: Member): seq<Member> {
    if members == [] || KeyLess(members[|members| - 1].key, m.key) then members + [m]
    else WithMember(members[..|members| - 1], m) + [members[|members| - 1]]
  }

  /** Objects are ordered maps, all the way down. */
  predicate Ordered(v: Json) {
    match v
    case Int(_) => true
    case Str(_) => true
    case Arr(items) => forall i | 0 <= i < |items| :: Ordered(items[i])
    case Obj(members) => Ascending(members) && forall i | 0 <= i < |members| :: Ordered(members[i].value)
  }

  // ----- lexical pieces: each gives what was read and what is left -----

  predicate IsSpace(c: uint8) { c == 32 || c == 10 || c == 13 || c == 9 }

  predicate IsDigit(c: uint8) { 48 <= c <= 57 }

  /** The rest is the end of the text. */
  predicate Ends(rest: Bytes, s: Bytes) { |rest| <= |s| && rest == s[|s| - |rest|..] }

  /** What ends the rest of a text ends the text, and so does what ends it from there on. */
  ghost predicate Beyond(t: Bytes, s: Bytes) {
    && Ends(t, s) && |t| < |s|
    && (forall r {:trigger Ends(r, t)} | Ends(r, t) :: Ends(r, s))
    && (t != [] ==> forall r {:trigger Ends(r, t[1..])} | Ends(r, t[1..]) :: Ends(r, s))
  }

  lemma {:induction false} EndsOfEnds(a: Bytes, b: Bytes, c: Bytes)
    requires Ends(a, b) && Ends(b, c)
    ensures Ends(a, c)
  {
  }

  lemma {:induction false} StillReads(s: Bytes, t: Bytes, u: Bytes)
    requires Ends(t, s) && |t| < |s| && Ends(u, t)
    ensures Beyond(u, s)
  {
    EndsOfEnds(u, t, s);
    forall r | Ends(r, u) ensures Ends(r, s) { EndsOfEnds(r, u, s); }
    if u != [] {
      EndsOfEnds(u[1..], u, s);
      forall r | Ends(r, u[1..]) ensures Ends(r, s) { EndsOfEnds(r, u[1..], s); }
    }
  }

  lemma {:induction false} ReadsOn(s: Bytes, t: Bytes)
    requires s != [] && Ends(t, s[1..])
    ensures Beyond(t, s)
  {
    EndsOfEnds(t, s[1..], s);
    StillReads(s, s[1..], t);
  }

  function SkipSpace(s: Bytes): (r: Bytes)
    ensures Ends(r, s)
  {
    if s != [] && IsSpace(s[0]) then SkipSpace(s[1..]) else s
  }

  function HexDigit(c: uint8): Option<nat> {
    if IsDigit(c) then Some(c - ZERO)
    else if LOWER_A <= c <= LOWER_F then Some(c - LOWER_A + 10)
    else if UPPER_A <= c <= UPPER_A + 5 then Some(c - UPPER_A + 10)
    else None
  }

  function HexQuad(s: Bytes): (r: Option<nat>)
    ensures r.Some? ==> |s| >= 4 && r.value <= 0xffff
  {
    if |s| < 4 then None
    else
      var a, b, c, d := HexDigit(s[0]), HexDigit(s[1]), HexDigit(s[2]), HexDigit(s[3]);
      if a.None? || b.None? || c.None? || d.None? then None
      else Some(((a.value * 16 + b.value) * 16 + c.value) * 16 + d.value)
  }

  function Utf8(codePoint: nat): Bytes
    requires codePoint <= 0x10ffff
  {
    if codePoint <= 0x7f then [codePoint]
    else if codePoint <= 0x7ff then [0xc0 + codePoint / 0x40, 0x80 + codePoint % 0x40]
    else if codePoint <= 0xffff then
      [0xe0 + codePoint / 0x1000, 0x80 + codePoint / 0x40 % 0x40, 0x80 + codePoint % 0x40]
    else
      [0xf0 + codePoint / 0x40000, 0x80 + codePoint / 0x1000 % 0x40, 0x80 + codePoint / 0x40 % 0x40, 0x80 + codePoint % 0x40]
  }

  /** A code point from one escape, or from a pair of surrogates. */
  function UnicodeEscape(s: Bytes): (r: Option<(Bytes, Bytes)>)
    ensures r.Some? ==> Ends(r.value.1, s)
  {
    var high := HexQuad(s);
    if high.None? then None
    else if 0xd800 <= high.value <= 0xdbff then
      if |s| < 10 || s[4] != BACKSLASH || s[5] != LOWER_U then None
      else
        var low := HexQuad(s[6..]);
        if low.None? || low.value < 0xdc00 || low.value > 0xdfff then None
        else Some((Utf8(0x10000 + (high.value - 0xd800) * 0x400 + (low.value - 0xdc00)), s[10..]))
    else if 0xdc00 <= high.value <= 0xdfff then None
    else Some((Utf8(high.value), s[4..]))
  }

  function SimpleEscape(c: uint8): Option<uint8> {
    if c == QUOTE || c == BACKSLASH || c == SLASH then Some(c)
    else if c == LOWER_B then Some(8)
    else if c == LOWER_F then Some(12)
    else if c == LOWER_N then Some(10)
    else if c == LOWER_R then Some(13)
    else if c == LOWER_T then Some(9)
    else None
  }

  function ReadEscape(s: Bytes): (r: Option<(Bytes, Bytes)>)
    ensures r.Some? ==> Ends(r.value.1, s) && |r.value.1| < |s|
  {
    if s == [] then None
    else if SimpleEscape(s[0]).Some? then Some(([SimpleEscape(s[0]).value], s[1..]))
    else if s[0] == LOWER_U then UnicodeEscape(s[1..])
    else None
  }

  /** A string's bytes, from after its opening quote. */
  function ReadString(s: Bytes, read: Bytes): (r: Option<(Bytes, Bytes)>)
    ensures r.Some? ==> Ends(r.value.1, s) && |r.value.1| < |s|
    decreases |s|
  {
    if s == [] then None
    else if s[0] == QUOTE then Some((read, s[1..]))
    else if s[0] < 32 then None
    else if s[0] != BACKSLASH then ReadString(s[1..], read + [s[0]])
    else
      var escape := ReadEscape(s[1..]);
      if escape.None? then None else ReadString(escape.value.1, read + escape.value.0)
  }

  function DigitCount(s: Bytes): (n: nat)
    ensures n <= |s| && (forall i | 0 <= i < n :: IsDigit(s[i])) && (n < |s| ==> !IsDigit(s[n]))
  {
    if s != [] && IsDigit(s[0]) then DigitCount(s[1..]) + 1 else 0
  }

  function Number(digits: Bytes): (n: nat)
    requires forall i | 0 <= i < |digits| :: IsDigit(digits[i])
  {
    if digits == [] then 0
    else
      assert IsDigit(digits[|digits| - 1]);
      Number(digits[..|digits| - 1]) * 10 + (digits[|digits| - 1] - ZERO)
  }

  function ReadInteger(s: Bytes): (r: Option<(int64, Bytes)>)
    ensures r.Some? ==> Ends(r.value.1, s) && |r.value.1| < |s|
  {
    var negative := s != [] && s[0] == MINUS;
    var body := if negative then s[1..] else s;
    var n := DigitCount(body);
    if n == 0 || (body[0] == ZERO && n > 1) then None
    else
      var rest := body[n..];
      var value: int := if negative then 0 - Number(body[..n]) else Number(body[..n]);
      if rest != [] && (rest[0] == DOT || rest[0] == LOWER_E || rest[0] == UPPER_E) then None
      else if INT64_MIN <= value <= INT64_MAX then Some((value, rest))
      else None
  }

  // ----- values -----

  function ReadValue(s: Bytes): (r: Option<(Json, Bytes)>)
    ensures r.Some? ==> Ends(r.value.1, s) && |r.value.1| < |s|
    decreases |s|, 0
  {
    if s == [] then None
    else if s[0] == OPEN_OBJECT then
      var t := SkipSpace(s[1..]);
      ReadsOn(s, t);
      if t != [] && t[0] == CLOSE_OBJECT then Some((Obj([]), t[1..])) else ReadMembers(t, [])
    else if s[0] == OPEN_ARRAY then
      var t := SkipSpace(s[1..]);
      ReadsOn(s, t);
      if t != [] && t[0] == CLOSE_ARRAY then Some((Arr([]), t[1..])) else ReadItems(t, [])
    else if s[0] == QUOTE then
      var text := ReadString(s[1..], []);
      if text.None? then None else Some((Str(text.value.0), text.value.1))
    else
      var number := ReadInteger(s);
      if number.None? then None else Some((Int(number.value.0), number.value.1))
  }

  function ReadItems(s: Bytes, read: seq<Json>): (r: Option<(Json, Bytes)>)
    ensures r.Some? ==> Ends(r.value.1, s) && |r.value.1| < |s|
    decreases |s|, 1
  {
    var item := ReadValue(s);
    if item.None? then None
    else
      var t := SkipSpace(item.value.1);
      StillReads(s, item.value.1, t);
      var items := read + [item.value.0];
      if t == [] then None
      else if t[0] == CLOSE_ARRAY then Some((Arr(items), t[1..]))
      else if t[0] != COMMA then None
      else ReadItems(SkipSpace(t[1..]), items)
  }

  /** A key, a colon and a value. */
  function ReadMember(s: Bytes): (r: Option<(Member, Bytes)>)
    ensures r.Some? ==> Ends(r.value.1, s) && |r.value.1| < |s|
    decreases |s|, 1
  {
    if s == [] || s[0] != QUOTE then None
    else
      var key := ReadString(s[1..], []);
      if key.None? then None
      else
        var t := SkipSpace(key.value.1);
        ReadsOn(s, key.value.1);
        StillReads(s, key.value.1, t);
        if t == [] || t[0] != COLON then None
        else
          var value := ReadValue(SkipSpace(t[1..]));
          if value.None? then None else Some((Member(key.value.0, value.value.0), value.value.1))
  }

  function ReadMembers(s: Bytes, read: seq<Member>): (r: Option<(Json, Bytes)>)
    ensures r.Some? ==> Ends(r.value.1, s) && |r.value.1| < |s|
    decreases |s|, 2
  {
    var member := ReadMember(s);
    if member.None? || HasKey(read, member.value.0.key) then None
    else
      var t := SkipSpace(member.value.1);
      StillReads(s, member.value.1, t);
      var members := WithMember(read, member.value.0);
      if t == [] then None
      else if t[0] == CLOSE_OBJECT then Some((Obj(members), t[1..]))
      else if t[0] != COMMA then None
      else ReadMembers(SkipSpace(t[1..]), members)
  }

  /** The value of a whole text. */
  function Parse(s: Bytes): Option<Json> {
    var value := ReadValue(SkipSpace(s));
    if value.None? || SkipSpace(value.value.1) != [] then None else Some(value.value.0)
  }

  // ----- canonical text -----

  function Digits(n: nat): (r: Bytes)
    ensures |r| > 0 && (forall i | 0 <= i < |r| :: IsDigit(r[i])) && (r[0] == ZERO ==> n == 0 && |r| == 1)
  {
    if n < 10 then [ZERO + n] else Digits(n / 10) + [ZERO + n % 10]
  }

  function CanonicalInt(v: int64): Bytes {
    if v < 0 then [MINUS] + Digits(0 - v) else Digits(v)
  }

  function HexChar(n: nat): uint8
    requires n < 16
  {
    if n < 10 then ZERO + n else LOWER_A + n - 10
  }

  function CanonicalByte(c: uint8): Bytes {
    if c == QUOTE || c == BACKSLASH then [BACKSLASH, c]
    else if c == 8 then [BACKSLASH, LOWER_B]
    else if c == 12 then [BACKSLASH, LOWER_F]
    else if c == 10 then [BACKSLASH, LOWER_N]
    else if c == 13 then [BACKSLASH, LOWER_R]
    else if c == 9 then [BACKSLASH, LOWER_T]
    else if c < 32 then [BACKSLASH, LOWER_U, ZERO, ZERO, HexChar(c / 16), HexChar(c % 16)]
    else [c]
  }

  function CanonicalBytes(text: Bytes): Bytes {
    if text == [] then [] else CanonicalByte(text[0]) + CanonicalBytes(text[1..])
  }

  function CanonicalString(text: Bytes): Bytes {
    [QUOTE] + CanonicalBytes(text) + [QUOTE]
  }

  function Canonical(v: Json): Bytes
    decreases v, 1
  {
    match v
    case Int(value) => CanonicalInt(value)
    case Str(text) => CanonicalString(text)
    case Arr(items) => [OPEN_ARRAY] + CanonicalItems(v, 0) + [CLOSE_ARRAY]
    case Obj(members) => [OPEN_OBJECT] + CanonicalMembers(v, 0) + [CLOSE_OBJECT]
  }

  /** The items from position `k` on, separated by commas. */
  function CanonicalItems(v: Json, k: nat): Bytes
    requires v.Arr? && k <= |v.items|
    decreases v, 0, |v.items| - k
  {
    if k == |v.items| then []
    else Canonical(v.items[k]) + (if k + 1 < |v.items| then [COMMA] + CanonicalItems(v, k + 1) else [])
  }

  function CanonicalMembers(v: Json, k: nat): Bytes
    requires v.Obj? && k <= |v.members|
    decreases v, 0, |v.members| - k
  {
    if k == |v.members| then []
    else
      CanonicalString(v.members[k].key) + [COLON] + Canonical(v.members[k].value)
      + (if k + 1 < |v.members| then [COMMA] + CanonicalMembers(v, k + 1) else [])
  }
}
