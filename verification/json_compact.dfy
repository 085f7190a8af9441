/** Which of a value's documents the canonical text is: the one without spaces,
    with its members in the value's order and every byte in its simplest form. */
module JsonCompact {
  import opened Domain
  import opened StrictJson
  import opened JsonTheorems
  import opened JsonStrings
  import opened JsonGrammar

  // ----- the simplest spelling of a byte -----

  predicate NeedsEscape(b: uint8) { b < 32 || b == 34 || b == 92 }

  /** A byte is written as itself unless it must not be, and with a letter unless
      there is none for it; digits are in lower case. */
  ghost predicate Simplest(p: Piece, b: uint8) {
    && PieceMeans(p, [b])
    && (p.Plain? || NeedsEscape(b))
    && match p
       case Plain(_) => true
       case Simple(_) => true
       case Unit(digits) => b !in SIMPLE.Values && forall i | 0 <= i < |digits| :: digits[i] in HEX
       case Pair(_, _) => false
  }

  ghost predicate SimplestPieces(pieces: seq<Piece>, text: Bytes) {
    |pieces| == |text| && forall i | 0 <= i < |pieces| :: Simplest(pieces[i], text[i])
  }

  // ----- compact documents -----

  ghost predicate Compact(d: Doc, v: Json) {
    match d
    case Num(negative, digits) => v.Int? && NumMeans(negative, digits, v.value) && (negative <==> v.value < 0)
    case Quoted(pieces) => v.Str? && SimplestPieces(pieces, v.text)
    case EmptyList(pad) => pad == [] && v == Arr([])
    case List(rows) => v.Arr? && CompactRows(rows, v.items)
    case EmptyTable(pad) => pad == [] && v == Obj([])
    case Table(fields) => v.Obj? && CompactFields(fields, v.members)
  }

  ghost predicate CompactRows(r: Rows, items: seq<Json>) {
    && r.before == [] && r.after == [] && items != [] && Compact(r.doc, items[0])
    && if r.more.Some? then CompactRows(r.more.value, items[1..]) else |items| == 1
  }

  ghost predicate CompactFields(f: Fields, members: seq<Member>) {
    && f.before == [] && f.beforeColon == [] && f.afterColon == [] && f.after == []
    && members != [] && SimplestPieces(f.key, members[0].key) && Compact(f.doc, members[0].value)
    && if f.more.Some? then CompactFields(f.more.value, members[1..]) else |members| == 1
  }

  // ----- bytes -----

  lemma {:induction false} LettersAre(b: uint8)
    ensures b in SIMPLE.Values <==> b == 34 || b == 92 || b == 47 || b == 8 || b == 12 || b == 10 || b == 13 || b == 9
  {
    assert SIMPLE[34] == 34 && SIMPLE[92] == 92 && SIMPLE[47] == 47 && SIMPLE[98] == 8;
    assert SIMPLE[102] == 12 && SIMPLE[110] == 10 && SIMPLE[114] == 13 && SIMPLE[116] == 9;
    assert forall k | k in SIMPLE :: SIMPLE[k] in SIMPLE.Values;
  }

  lemma {:induction false} HexCharIs(n: nat, digit: uint8)
    requires StandsFor(digit, n) && digit in HEX
    ensures digit == HexChar(n)
  {
    var k :| 0 <= k < |HEX| && HEX[k] == digit;
  }

  lemma {:induction false} EncodesItself(b: uint8, n: nat)
    requires b < 0x80
    ensures Encodes([b], n) <==> n == b
  {
    assert [b][0] == b;
  }

  lemma {:induction false} LowDigits(b: uint8)
    requires b < 32
    ensures b / 0x1000 == 0 && b / 0x100 % 0x10 == 0 && b / 0x10 % 0x10 == b / 16 && b % 0x10 == b % 16
  {
  }

  lemma {:induction false} UnitIs(digits: Bytes, b: uint8)
    requires b < 32 && Spells(digits, b) && forall i | 0 <= i < |digits| :: digits[i] in HEX
    ensures digits == [ZERO, ZERO, HexChar(b / 16), HexChar(b % 16)]
  {
    LowDigits(b);
    HexCharIs(0, digits[0]);
    HexCharIs(0, digits[1]);
    HexCharIs(b / 16, digits[2]);
    HexCharIs(b % 16, digits[3]);
  }

  lemma {:induction false} SpellsItself(digits: Bytes, b: uint8)
    requires b < 0x80 && PieceMeans(Unit(digits), [b])
    ensures Spells(digits, b)
  {
    var n: nat :| Spells(digits, n) && Encodes([b], n);
    EncodesItself(b, n);
  }

  lemma {:induction false} ControlByte(b: uint8)
    requires NeedsEscape(b) && b !in SIMPLE.Values
    ensures b < 32 && CanonicalByte(b) == [BACKSLASH, LOWER_U] + [ZERO, ZERO, HexChar(b / 16), HexChar(b % 16)]
  {
    LettersAre(b);
  }

  lemma {:induction false} SimplestUnit(digits: Bytes, b: uint8)
    requires Simplest(Unit(digits), b)
    ensures [BACKSLASH, LOWER_U] + digits == CanonicalByte(b)
  {
    ControlByte(b);
    SpellsItself(digits, b);
    UnitIs(digits, b);
  }

  lemma {:induction false} SimplestLetter(letter: uint8, b: uint8)
    requires Simplest(Simple(letter), b)
    ensures [BACKSLASH, letter] == CanonicalByte(b)
  {
    assert [SIMPLE[letter]] == [b];
    assert SIMPLE[letter] == b;
  }

  lemma {:induction false} SimplestIs(p: Piece, b: uint8)
    requires Simplest(p, b)
    ensures PieceText(p) == CanonicalByte(b)
  {
    match p {
      case Plain(c) => assert [c] == [b];
      case Simple(letter) => SimplestLetter(letter, b);
      case Unit(digits) => SimplestUnit(digits, b);
    }
  }

  lemma {:induction false} SimplestPiecesAre(pieces: seq<Piece>, text: Bytes)
    requires SimplestPieces(pieces, text)
    ensures PiecesText(pieces) == CanonicalBytes(text)
  {
    if pieces != [] {
      SimplestIs(pieces[0], text[0]);
      assert forall i | 0 <= i < |pieces| - 1 :: pieces[1..][i] == pieces[i + 1] && text[1..][i] == text[i + 1];
      SimplestPiecesAre(pieces[1..], text[1..]);
    }
  }

  // ----- the canonical text is the compact document's -----

  lemma {:induction false} DigitsAre(digits: Bytes)
    requires digits != [] && AllDigits(digits) && (digits[0] == 48 ==> |digits| == 1)
    ensures Digits(Decimal(digits)) == digits
  {
    var front, last := digits[..|digits| - 1], digits[|digits| - 1];
    assert digits == front + [last];
    DecimalOfMore(front, last);
    if front != [] {
      assert front[0] == digits[0];
      DigitsAre(front);
      Positive(front);
    }
  }

  lemma {:induction false} Positive(digits: Bytes)
    requires digits != [] && AllDigits(digits) && digits[0] != 48
    ensures Decimal(digits) > 0
  {
    PowerIsPositive(|digits| - 1);
    AtLeast(digits[0] - 48, Power(|digits| - 1));
  }

  lemma {:induction false} PowerIsPositive(n: nat)
    ensures Power(n) > 0
  {
    if n > 0 { PowerIsPositive(n - 1); }
  }

  lemma {:induction false} AtLeast(digit: nat, power: nat)
    requires digit > 0 && power > 0
    ensures digit * power > 0
  {
  }

  lemma {:induction false} RowsAre(r: Rows, v: Json, k: nat)
    requires v.Arr? && k <= |v.items| && CompactRows(r, v.items[k..])
    ensures k < |v.items| && RowsText(r) == CanonicalItems(v, k)
    decreases r
  {
    var item := v.items[k..][0];
    CompactIs(r.doc, v.items[k]);
    NoPads(DocText(r.doc));
    if r.more.Some? {
      assert v.items[k..][1..] == v.items[k + 1..];
      RowsAre(r.more.value, v, k + 1);
    }
  }

  lemma {:induction false} NoPads(text: Bytes)
    ensures [] + text + [] == text
  {
  }

  lemma {:induction false} FieldsAre(f: Fields, v: Json, k: nat)
    requires v.Obj? && k <= |v.members| && CompactFields(f, v.members[k..])
    ensures k < |v.members| && FieldsText(f) == CanonicalMembers(v, k)
    decreases f
  {
    var m := v.members[k..][0];
    SimplestPiecesAre(f.key, m.key);
    CompactIs(f.doc, m.value);
    CompactField(f, CanonicalBytes(m.key), Canonical(m.value));
    if f.more.Some? {
      assert v.members[k..][1..] == v.members[k + 1..];
      FieldsAre(f.more.value, v, k + 1);
    }
  }

  lemma {:induction false} CompactField(f: Fields, key: Bytes, value: Bytes)
    requires f.before == [] && f.beforeColon == [] && f.afterColon == [] && f.after == []
    ensures f.before + [34] + key + [34] + f.beforeColon + [58] + f.afterColon + value + f.after == [34] + key + [34] + [58] + value
  {
  }

  lemma {:induction false} CompactIs(d: Doc, v: Json)
    requires Compact(d, v)
    ensures DocText(d) == Canonical(v)
    decreases d
  {
    match d {
      case Num(negative, digits) =>
        DigitsAre(digits);
        assert [] + digits == digits;
      case Quoted(pieces) => SimplestPiecesAre(pieces, v.text);
      case EmptyList(pad) =>
      case List(rows) =>
        assert v.items[0..] == v.items;
        RowsAre(rows, v, 0);
      case EmptyTable(pad) =>
      case Table(fields) =>
        assert v.members[0..] == v.members;
        FieldsAre(fields, v, 0);
    }
  }

  // ----- there is one for every value -----

  lemma {:induction false} SimplestPiece(b: uint8) returns (p: Piece)
    ensures Simplest(p, b)
  {
    LettersAre(b);
    if !NeedsEscape(b) {
      p := Plain(b);
    } else if b in SIMPLE.Values {
      var letter :| letter in SIMPLE && SIMPLE[letter] == b;
      p := Simple(letter);
    } else {
      p := Unit([48, 48, HEX[b / 16], HEX[b % 16]]);
      LowDigits(b);
      EncodesItself(b, b);
      assert HEX[0] == 48;
    }
  }

  lemma {:induction false} SimplestSpelling(text: Bytes) returns (pieces: seq<Piece>)
    ensures SimplestPieces(pieces, text)
  {
    if text == [] {
      pieces := [];
    } else {
      var p := SimplestPiece(text[0]);
      var others := SimplestSpelling(text[1..]);
      pieces := [p] + others;
    }
  }

  lemma {:induction false} CompactNumber(value: int64) returns (d: Doc)
    ensures Compact(d, Int(value))
  {
    var magnitude: nat := if value < 0 then 0 - value else value;
    NumberOfDigits(magnitude);
    NumberIsDecimal(Digits(magnitude));
    d := Num(value < 0, Digits(magnitude));
  }

  lemma {:induction false} CompactItems(items: seq<Json>) returns (r: Rows)
    requires items != []
    ensures CompactRows(r, items)
    decreases items, 0
  {
    var d := CompactDoc(items[0]);
    if |items| == 1 {
      r := Rows([], d, [], None);
    } else {
      var more := CompactItems(items[1..]);
      r := Rows([], d, [], Some(more));
    }
  }

  lemma {:induction false} CompactMembers(members: seq<Member>) returns (f: Fields)
    requires members != []
    ensures CompactFields(f, members)
    decreases members, 0
  {
    var key := SimplestSpelling(members[0].key);
    var d := CompactDoc(members[0].value);
    if |members| == 1 {
      f := Fields([], key, [], [], d, [], None);
    } else {
      var more := CompactMembers(members[1..]);
      f := Fields([], key, [], [], d, [], Some(more));
    }
  }

  lemma {:induction false} CompactDoc(v: Json) returns (d: Doc)
    ensures Compact(d, v)
    decreases v, 1
  {
    match v {
      case Int(value) => d := CompactNumber(value);
      case Str(text) =>
        var pieces := SimplestSpelling(text);
        d := Quoted(pieces);
      case Arr(items) =>
        if items == [] {
          d := EmptyList([]);
        } else {
          var rows := CompactItems(items);
          d := List(rows);
        }
      case Obj(members) =>
        if members == [] {
          d := EmptyTable([]);
        } else {
          var fields := CompactMembers(members);
          d := Table(fields);
        }
    }
  }

  /** A value's canonical text is the text of its compact document. */
  lemma {:induction false} CanonicalIff(v: Json, s: Bytes)
    ensures s == Canonical(v) <==> exists d :: Compact(d, v) && s == DocText(d)
  {
    var d := CompactDoc(v);
    CompactIs(d, v);
    if exists d :: Compact(d, v) && s == DocText(d) {
      var other :| Compact(other, v) && s == DocText(other);
      CompactIs(other, v);
    }
  }
}
