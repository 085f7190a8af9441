/** Whatever the parser reads is a document of the grammar, so that the two agree
    on every text. */
module JsonParses {
  import opened Domain
  import opened Folding
  import opened StrictJson
  import opened JsonTheorems
  import opened JsonCanonical
  import opened JsonStrings
  import opened JsonGrammar
  import opened JsonLanguage

  /** The text is the document's, and then the rest; folded, like the readers. */
  ghost predicate Writes(s: Bytes, d: Doc, v: Json, rest: Bytes) {
    forall now {:trigger Ask(now)} :: Ask(now) ==> Means(d, v) && s == DocText(d) + rest
  }

  ghost predicate WritesRows(s: Bytes, r: Rows, items: seq<Json>, rest: Bytes) {
    forall now {:trigger Ask(now)} :: Ask(now) ==> RowsMean(r, items) && s == RowText(r, rest)
  }

  ghost predicate WritesFields(s: Bytes, f: Fields, written: seq<Member>, rest: Bytes) {
    forall now {:trigger Ask(now)} :: Ask(now) ==> FieldsMean(f, written) && s == FieldText(f, rest)
  }

  // ----- numbers and strings -----

  lemma {:induction false} NumSpelled(s: Bytes, value: int64, rest: Bytes) returns (d: Doc)
    requires ReadInteger(s) == Some((value, rest))
    ensures Writes(s, d, Int(value), rest)
  {
    var negative := s != [] && s[0] == MINUS;
    var body := if negative then s[1..] else s;
    var n := DigitCount(body);
    var digits := body[..n];
    NumberIsDecimal(digits);
    d := Num(negative, digits);
    NumText(s, negative, body, n);
  }

  lemma {:induction false} NumText(s: Bytes, negative: bool, body: Bytes, n: nat)
    requires negative == (s != [] && s[0] == MINUS) && body == (if negative then s[1..] else s) && n <= |body|
    ensures s == (if negative then [45] else []) + body[..n] + body[n..]
  {
    assert body == body[..n] + body[n..];
    if negative { assert s == [45] + body; } else { assert s == [] + body; }
  }

  lemma {:induction false} QuotedSpelled(s: Bytes) returns (d: Doc)
    requires s != [] && s[0] == QUOTE && ReadString(s[1..], []).Some?
    ensures var text := ReadString(s[1..], []).value; Writes(s, d, Str(text.0), text.1)
  {
    var text := ReadString(s[1..], []).value;
    var pieces, bytes := StringSpelled(s[1..], []);
    assert [] + bytes == bytes;
    d := Quoted(pieces);
    QuotedText(s, pieces, text.1);
  }

  lemma {:induction false} QuotedText(s: Bytes, pieces: seq<Piece>, rest: Bytes)
    requires s != [] && s[0] == QUOTE && s[1..] == PiecesText(pieces) + [QUOTE] + rest
    ensures s == [34] + PiecesText(pieces) + [34] + rest
  {
    assert s == [s[0]] + s[1..];
  }

  // ----- rows -----

  lemma {:induction false} LastRowSpelled(s: Bytes, d: Doc, item: Json, pad: Bytes, rest: Bytes) returns (r: Rows)
    requires Writes(s, d, item, pad + ([CLOSE_ARRAY] + rest)) && Spaces(pad)
    ensures WritesRows(s, r, [item], rest) && r.before == []
  {
    assert Ask(true);
    r := Rows([], d, pad, None);
  }

  lemma {:induction false} NextRowSpelled(s: Bytes, d: Doc, item: Json, pad: Bytes, before: Bytes, next: Bytes,
                                          more: Rows, others: seq<Json>, rest: Bytes)
    returns (r: Rows)
    requires Writes(s, d, item, pad + ([COMMA] + (before + next))) && Spaces(pad) && Spaces(before)
    requires WritesRows(next, more, others, rest) && more.before == []
    ensures WritesRows(s, r, [item] + others, rest) && r.before == []
  {
    assert Ask(true);
    var moved := more.(before := before);
    r := Rows([], d, pad, Some(moved));
    assert ([item] + others)[1..] == others;
    RowMoves(more, before, others, rest);
  }

  lemma {:induction false} RowMoves(r: Rows, before: Bytes, items: seq<Json>, rest: Bytes)
    requires RowsMean(r, items) && Spaces(before)
    ensures RowsMean(r.(before := before), items) && RowText(r.(before := before), rest) == RowText(r, rest)
  {
  }

  lemma {:induction false} Opens(t: Bytes, first: uint8)
    requires t != [] && t[0] == first
    ensures t == [first] + t[1..]
  {
  }

  lemma {:induction false} ItemsSpelled(s: Bytes, read: seq<Json>) returns (r: Rows, items: seq<Json>)
    requires ReadItems(s, read).Some?
    ensures ReadItems(s, read).value.0 == Arr(read + items)
    ensures WritesRows(s, r, items, ReadItems(s, read).value.1) && r.before == []
    decreases |s|, 1
  {
    var item, after := ReadValue(s).value.0, ReadValue(s).value.1;
    var rest := ReadItems(s, read).value.1;
    var d := ValueSpelled(s);
    var t := SkipSpace(after);
    var pad := SkippedIsPad(after);
    Opens(t, t[0]);
    if t[0] == CLOSE_ARRAY {
      r := LastRowSpelled(s, d, item, pad, rest);
      items := [item];
    } else {
      var next := SkipSpace(t[1..]);
      var before := SkippedIsPad(t[1..]);
      var more, others := ItemsSpelled(next, read + [item]);
      r := NextRowSpelled(s, d, item, pad, before, next, more, others, rest);
      items := [item] + others;
      ItemsGrow(read, items);
      assert items[1..] == others;
    }
  }

  // ----- fields -----

  /** A field up to the spaces after its value. */
  ghost predicate WritesField(s: Bytes, f: Fields, m: Member, after: Bytes) {
    forall now {:trigger Ask(now)} :: Ask(now) ==>
      Spaces(f.beforeColon) && Spaces(f.afterColon) && PiecesMean(f.key, m.key) && Means(f.doc, m.value) && s == HeadText(f, after)
  }

  function HeadText(f: Fields, after: Bytes): Bytes {
    [QUOTE] + (PiecesText(f.key) + [QUOTE] + (f.beforeColon + ([COLON] + (f.afterColon + (DocText(f.doc) + after)))))
  }

  lemma {:induction false} MemberSpelled(s: Bytes) returns (f: Fields)
    requires ReadMember(s).Some?
    ensures WritesField(s, f, ReadMember(s).value.0, ReadMember(s).value.1)
    decreases |s|, 1
  {
    var m, after := ReadMember(s).value.0, ReadMember(s).value.1;
    var key := ReadString(s[1..], []).value;
    var pieces, bytes := StringSpelled(s[1..], []);
    assert [] + bytes == bytes;
    var t := SkipSpace(key.1);
    var beforeColon := SkippedIsPad(key.1);
    Opens(t, COLON);
    Opens(s, QUOTE);
    var afterColon := SkippedIsPad(t[1..]);
    var d := ValueSpelled(SkipSpace(t[1..]));
    f := Fields([], pieces, beforeColon, afterColon, d, [], None);
    FieldIsWritten(s, f, m, key.1, t, after);
  }

  lemma {:induction false} FieldIsWritten(s: Bytes, f: Fields, m: Member, colon: Bytes, t: Bytes, after: Bytes)
    requires Spaces(f.beforeColon) && Spaces(f.afterColon) && PiecesMean(f.key, m.key)
    requires s == [QUOTE] + (PiecesText(f.key) + [QUOTE] + colon) && colon == f.beforeColon + t && t != [] && t == [COLON] + t[1..]
    requires t[1..] == f.afterColon + SkipSpace(t[1..]) && Writes(SkipSpace(t[1..]), f.doc, m.value, after)
    ensures WritesField(s, f, m, after)
  {
    assert Ask(true);
  }

  lemma {:induction false} LastFieldSpelled(s: Bytes, f: Fields, m: Member, pad: Bytes, rest: Bytes) returns (g: Fields)
    requires WritesField(s, f, m, pad + ([CLOSE_OBJECT] + rest)) && Spaces(pad)
    ensures WritesFields(s, g, [m], rest) && g.before == []
  {
    assert Ask(true);
    g := f.(before := [], after := pad, more := None);
  }

  lemma {:induction false} NextFieldSpelled(s: Bytes, f: Fields, m: Member, pad: Bytes, before: Bytes, next: Bytes,
                                            more: Fields, others: seq<Member>, rest: Bytes)
    returns (g: Fields)
    requires WritesField(s, f, m, pad + ([COMMA] + (before + next))) && Spaces(pad) && Spaces(before)
    requires WritesFields(next, more, others, rest) && more.before == []
    ensures WritesFields(s, g, [m] + others, rest) && g.before == []
  {
    assert Ask(true);
    var moved := more.(before := before);
    g := f.(before := [], after := pad, more := Some(moved));
    assert ([m] + others)[1..] == others;
    FieldMoves(more, before, others, rest);
  }

  lemma {:induction false} FieldMoves(f: Fields, before: Bytes, written: seq<Member>, rest: Bytes)
    requires FieldsMean(f, written) && Spaces(before)
    ensures FieldsMean(f.(before := before), written) && FieldText(f.(before := before), rest) == FieldText(f, rest)
  {
  }

  /** The members read so far and those still written make up the value's. */
  ghost predicate Gathers(v: Json, read: seq<Member>, written: seq<Member>) {
    v.Obj? && Ascending(v.members) && multiset(v.members) == multiset(read) + multiset(written)
  }

  lemma {:induction false} GathersOne(v: Json, read: seq<Member>, m: Member, others: seq<Member>)
    requires Gathers(v, WithMember(read, m), others)
    ensures Gathers(v, read, [m] + others)
  {
    InsertAdds(read, m);
    assert multiset([m] + others) == multiset{m} + multiset(others);
  }

  lemma {:induction false} MembersSpelled(s: Bytes, read: seq<Member>) returns (f: Fields, written: seq<Member>)
    requires ReadMembers(s, read).Some? && Ascending(read)
    ensures Gathers(ReadMembers(s, read).value.0, read, written)
    ensures WritesFields(s, f, written, ReadMembers(s, read).value.1) && f.before == []
    decreases |s|, 2
  {
    var m, after := ReadMember(s).value.0, ReadMember(s).value.1;
    var v, rest := ReadMembers(s, read).value.0, ReadMembers(s, read).value.1;
    var head := MemberSpelled(s);
    var t := SkipSpace(after);
    MemberEnds(s, read, m, after, t);
    InsertKeepsOrder(read, m);
    var pad := SkippedIsPad(after);
    Opens(t, t[0]);
    if t[0] == CLOSE_OBJECT {
      f := LastFieldSpelled(s, head, m, pad, rest);
      written := [m];
      GathersLast(v, read, m);
    } else {
      var before := SkippedIsPad(t[1..]);
      var more, others := MembersSpelled(SkipSpace(t[1..]), WithMember(read, m));
      f := NextFieldSpelled(s, head, m, pad, before, SkipSpace(t[1..]), more, others, rest);
      written := [m] + others;
      GathersOne(v, read, m, others);
    }
  }

  /** What follows one member of an object that reads. */
  lemma {:induction false} MemberEnds(s: Bytes, read: seq<Member>, m: Member, after: Bytes, t: Bytes)
    requires ReadMembers(s, read).Some? && ReadMember(s) == Some((m, after)) && t == SkipSpace(after)
    ensures t != [] && !HasKey(read, m.key) && |SkipSpace(t[1..])| < |s|
    ensures if t[0] == CLOSE_OBJECT then ReadMembers(s, read).value == (Obj(WithMember(read, m)), t[1..])
            else t[0] == COMMA && ReadMembers(SkipSpace(t[1..]), WithMember(read, m)) == ReadMembers(s, read)
  {
  }

  lemma {:induction false} GathersLast(v: Json, read: seq<Member>, m: Member)
    requires v == Obj(WithMember(read, m)) && Ascending(WithMember(read, m))
    ensures Gathers(v, read, [m])
  {
    GathersOne(v, read, m, []);
    assert [m] + [] == [m];
  }

  // ----- values -----

  lemma {:induction false} ListSpelled(s: Bytes, pad: Bytes, inner: Bytes, r: Rows, items: seq<Json>, rest: Bytes) returns (d: Doc)
    requires s == [OPEN_ARRAY] + (pad + inner) && Spaces(pad) && WritesRows(inner, r, items, rest) && r.before == []
    ensures Writes(s, d, Arr(items), rest)
  {
    assert Ask(true);
    var rows := r.(before := pad);
    RowMoves(r, pad, items, rest);
    RowsTextIs(rows, rest);
    d := List(rows);
    assert DocText(d) + rest == [OPEN_ARRAY] + (RowsText(rows) + [CLOSE_ARRAY] + rest);
  }

  lemma {:induction false} TableSpelled(s: Bytes, pad: Bytes, inner: Bytes, f: Fields, written: seq<Member>, v: Json, rest: Bytes)
    returns (d: Doc)
    requires s == [OPEN_OBJECT] + (pad + inner) && Spaces(pad) && WritesFields(inner, f, written, rest) && f.before == []
    requires Gathers(v, [], written)
    ensures Writes(s, d, v, rest)
  {
    assert Ask(true);
    var fields := f.(before := pad);
    FieldMoves(f, pad, written, rest);
    FieldsTextIs(fields, rest);
    d := Table(fields);
    ByKeyIff(v.members);
    assert Arranges(v.members, written);
    assert DocText(d) + rest == [OPEN_OBJECT] + (FieldsText(fields) + [CLOSE_OBJECT] + rest);
  }

  lemma {:induction false} EmptySpelled(s: Bytes, pad: Bytes, open: uint8, close: uint8, rest: Bytes)
    requires s == [open] + (pad + ([close] + rest))
    ensures s == [open] + pad + [close] + rest
  {
  }

  lemma {:induction false} ArraySpelled(s: Bytes) returns (d: Doc)
    requires s != [] && s[0] == OPEN_ARRAY && ReadValue(s).Some?
    ensures Writes(s, d, ReadValue(s).value.0, ReadValue(s).value.1)
    decreases |s|, 0, 0
  {
    var t, rest := SkipSpace(s[1..]), ReadValue(s).value.1;
    var pad := SkippedIsPad(s[1..]);
    Opens(s, OPEN_ARRAY);
    if t[0] == CLOSE_ARRAY {
      Opens(t, CLOSE_ARRAY);
      EmptySpelled(s, pad, OPEN_ARRAY, CLOSE_ARRAY, rest);
      d := EmptyList(pad);
    } else {
      var r, items := ItemsSpelled(t, []);
      assert [] + items == items;
      d := ListSpelled(s, pad, t, r, items, rest);
    }
  }

  lemma {:induction false} ObjectSpelled(s: Bytes) returns (d: Doc)
    requires s != [] && s[0] == OPEN_OBJECT && ReadValue(s).Some?
    ensures Writes(s, d, ReadValue(s).value.0, ReadValue(s).value.1)
    decreases |s|, 0, 0
  {
    var t, v, rest := SkipSpace(s[1..]), ReadValue(s).value.0, ReadValue(s).value.1;
    var pad := SkippedIsPad(s[1..]);
    Opens(s, OPEN_OBJECT);
    if t[0] == CLOSE_OBJECT {
      Opens(t, CLOSE_OBJECT);
      EmptySpelled(s, pad, OPEN_OBJECT, CLOSE_OBJECT, rest);
      d := EmptyTable(pad);
    } else {
      var f, written := MembersSpelled(t, []);
      d := TableSpelled(s, pad, t, f, written, v, rest);
    }
  }

  lemma {:induction false} ValueSpelled(s: Bytes) returns (d: Doc)
    requires ReadValue(s).Some?
    ensures Writes(s, d, ReadValue(s).value.0, ReadValue(s).value.1)
    decreases |s|, 0, 1
  {
    if s[0] == OPEN_OBJECT {
      d := ObjectSpelled(s);
    } else if s[0] == OPEN_ARRAY {
      d := ArraySpelled(s);
    } else if s[0] == QUOTE {
      d := QuotedSpelled(s);
    } else {
      d := NumSpelled(s, ReadInteger(s).value.0, ReadInteger(s).value.1);
    }
  }

  // ----- whole texts -----

  /** The text is a document of that meaning, between spaces. */
  ghost predicate IsWritten(s: Bytes, v: Json, before: Bytes, d: Doc, after: Bytes) {
    Spaces(before) && Spaces(after) && s == before + DocText(d) + after && Means(d, v)
  }

  lemma {:induction false} SpacesClose(pad: Bytes)
    requires Spaces(pad)
    ensures Closed(pad) && SkipSpace(pad) == []
  {
    assert pad + [] == pad;
    PadIsSkipped(pad, []);
  }

  lemma {:induction false} ParsesAs(s: Bytes, t: Bytes, v: Json, after: Bytes)
    requires SkipSpace(s) == t && ReadsValue(t, v, after) && SkipSpace(after) == []
    ensures Parse(s) == Some(v)
  {
    assert Ask(true);
  }

  lemma {:induction false} WrittenParses(s: Bytes, v: Json, before: Bytes, d: Doc, after: Bytes)
    requires IsWritten(s, v, before, d, after)
    ensures Parse(s) == Some(v)
  {
    var t := DocText(d) + after;
    Regroup2(before, DocText(d), after);
    DocStarts(d, v);
    Front(DocText(d), after);
    PadIsSkipped(before, t);
    SpacesClose(after);
    DocReads(d, v, after);
    ParsesAs(s, t, v, after);
  }

  lemma {:induction false} ParsedIsWritten(s: Bytes) returns (before: Bytes, d: Doc, after: Bytes)
    requires Parse(s).Some?
    ensures IsWritten(s, Parse(s).value, before, d, after)
  {
    var t := SkipSpace(s);
    before := SkippedIsPad(s);
    d := ValueSpelled(t);
    after := ReadValue(t).value.1;
    var pad := SkippedIsPad(after);
    assert pad + [] == pad;
    assert Ask(true);
    assert before + (DocText(d) + after) == before + DocText(d) + after;
  }

  /** A text parses as a value exactly when it is written as a document that
      means it. */
  lemma {:induction false} ParsesIff(s: Bytes, v: Json)
    ensures Parse(s) == Some(v) <==> exists before, d, after :: IsWritten(s, v, before, d, after)
  {
    if Parse(s) == Some(v) {
      var before, d, after := ParsedIsWritten(s);
    }
    if exists before, d, after :: IsWritten(s, v, before, d, after) {
      var before, d, after :| IsWritten(s, v, before, d, after);
      WrittenParses(s, v, before, d, after);
    }
  }
}
