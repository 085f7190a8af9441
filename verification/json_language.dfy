/** The parser's language: a text parses as a value if and only if some document
    of the grammar spells it, between spaces, and means the value. */
module JsonLanguage {
  import opened Domain
  import opened Folding
  import opened StrictJson
  import opened JsonTheorems
  import opened JsonCanonical
  import opened JsonStrings
  import opened JsonGrammar

  // ----- the text from a row or field to the end -----

  /** What follows the first item: spaces, then the bracket or a comma and the rest. */
  function AfterRow(r: Rows, tail: Bytes): Bytes
    decreases r, 0
  {
    r.after + (if r.more.Some? then [COMMA] + (r.more.value.before + RowText(r.more.value, tail)) else [CLOSE_ARRAY] + tail)
  }

  function RowText(r: Rows, tail: Bytes): Bytes
    decreases r, 1
  {
    DocText(r.doc) + AfterRow(r, tail)
  }

  function AfterField(f: Fields, tail: Bytes): Bytes
    decreases f, 0
  {
    f.after + (if f.more.Some? then [COMMA] + (f.more.value.before + FieldText(f.more.value, tail)) else [CLOSE_OBJECT] + tail)
  }

  function FieldText(f: Fields, tail: Bytes): Bytes
    decreases f, 1
  {
    [QUOTE] + (PiecesText(f.key) + [QUOTE] + (f.beforeColon + ([COLON] + (f.afterColon + (DocText(f.doc) + AfterField(f, tail))))))
  }

  lemma {:induction false} Regroup5(a: Bytes, b: Bytes, c: Bytes, d: Bytes, e: Bytes)
    ensures a + b + c + d + e == a + (b + (c + (d + e)))
  {
  }

  lemma {:induction false} RowsTextIs(r: Rows, tail: Bytes)
    ensures RowsText(r) + [CLOSE_ARRAY] + tail == r.before + RowText(r, tail)
  {
    var close := [CLOSE_ARRAY] + tail;
    assert RowsText(r) + [CLOSE_ARRAY] + tail == RowsText(r) + close;
    if r.more.Some? {
      var more := r.more.value;
      RowsTextIs(more, tail);
      Regroup5(r.before, DocText(r.doc), r.after, [COMMA] + RowsText(more), close);
      assert [COMMA] + RowsText(more) + close == [COMMA] + (RowsText(more) + [CLOSE_ARRAY] + tail);
    } else {
      Regroup5(r.before, DocText(r.doc), r.after, [], close);
      assert [] + close == close;
    }
  }

  lemma {:induction false} FieldsTextSplits(f: Fields, more: Bytes, close: Bytes)
    ensures f.before + [QUOTE] + PiecesText(f.key) + [QUOTE] + f.beforeColon + [COLON] + f.afterColon + DocText(f.doc) + f.after + more + close
         == f.before + ([QUOTE] + (PiecesText(f.key) + [QUOTE]
                        + (f.beforeColon + ([COLON] + (f.afterColon + (DocText(f.doc) + (f.after + (more + close))))))))
  {
    var front := f.before + [QUOTE] + PiecesText(f.key) + [QUOTE];
    Regroup5(front + f.beforeColon, [COLON], f.afterColon, DocText(f.doc), f.after + more + close);
    Regroup5(front, f.beforeColon, [], [], [COLON] + (f.afterColon + (DocText(f.doc) + (f.after + more + close))));
  }

  lemma {:induction false} FieldsTextIs(f: Fields, tail: Bytes)
    ensures FieldsText(f) + [CLOSE_OBJECT] + tail == f.before + FieldText(f, tail)
  {
    var close := [CLOSE_OBJECT] + tail;
    Regroup2(FieldsText(f), [CLOSE_OBJECT], tail);
    if f.more.Some? {
      var more := f.more.value;
      FieldsTextIs(more, tail);
      FieldsTextSplits(f, [COMMA] + FieldsText(more), close);
      Regroup2([COMMA], FieldsText(more), close);
      Regroup2(FieldsText(more), [CLOSE_OBJECT], tail);
    } else {
      FieldsTextSplits(f, [], close);
      assert [] + close == close;
    }
  }

  // ----- every document reads as what it means -----

  /** What may follow a number without being taken for a part of it. */
  predicate Closed(tail: Bytes) {
    tail == [] || !(IsDigit(tail[0]) || tail[0] == DOT || tail[0] == LOWER_E || tail[0] == UPPER_E)
  }

  lemma {:induction false} DocStarts(d: Doc, v: Json)
    requires Means(d, v)
    ensures DocText(d) != [] && !IsSpace(DocText(d)[0])
    ensures DocText(d)[0] != CLOSE_ARRAY && DocText(d)[0] != CLOSE_OBJECT
  {
  }

  lemma {:induction false} NumReads(negative: bool, digits: Bytes, value: int64, tail: Bytes)
    requires NumMeans(negative, digits, value) && Closed(tail)
    ensures ReadInteger((if negative then [MINUS] else []) + digits + tail) == Some((value, tail))
  {
    NumberIsDecimal(digits);
    DigitsEnd(digits, tail);
    Front(digits, tail);
    var s := (if negative then [MINUS] else []) + digits + tail;
    if negative {
      assert s == [MINUS] + (digits + tail);
      TailOf(MINUS, digits + tail);
    } else {
      assert s == digits + tail;
    }
    NumParts(s, negative, digits + tail, |digits|, value);
  }

  lemma {:induction false} NumParts(s: Bytes, negative: bool, body: Bytes, n: nat, value: int64)
    requires s != [] && negative == (s[0] == MINUS) && body == if negative then s[1..] else s
    requires DigitCount(body) == n > 0 && (body[0] == ZERO ==> n == 1) && Closed(body[n..])
    requires value == if negative then 0 - Number(body[..n]) else Number(body[..n])
    ensures ReadInteger(s) == Some((value, body[n..]))
  {
  }

  lemma {:induction false} NumDocReads(d: Doc, v: Json, tail: Bytes)
    requires d.Num? && Means(d, v) && Closed(tail)
    ensures ReadsValue(DocText(d) + tail, v, tail)
  {
    var s := DocText(d) + tail;
    NumReads(d.negative, d.digits, v.value, tail);
    NumStarts(d.negative, d.digits, tail);
    IntegerIsRead(s, v.value, tail);
  }

  lemma {:induction false} NumStarts(negative: bool, digits: Bytes, tail: Bytes)
    requires digits != [] && AllDigits(digits)
    ensures var s := (if negative then [MINUS] else []) + digits + tail; s != [] && (s[0] == MINUS || IsDigit(s[0]))
  {
  }

  lemma {:induction false} IntegerIsRead(s: Bytes, value: int64, tail: Bytes)
    requires s != [] && (s[0] == MINUS || IsDigit(s[0])) && ReadInteger(s) == Some((value, tail))
    ensures ReadsValue(s, Int(value), tail)
  {
  }

  lemma {:induction false} QuotedReads(pieces: seq<Piece>, text: Bytes, s: Bytes, tail: Bytes)
    requires PiecesMean(pieces, text) && s == [QUOTE] + (PiecesText(pieces) + [QUOTE] + tail)
    ensures ReadsText(s, text, tail)
  {
    TailOf(QUOTE, PiecesText(pieces) + [QUOTE] + tail);
    PiecesRead(pieces, text, tail, []);
    assert [] + text == text;
  }

  lemma {:induction false} QuotedDocReads(d: Doc, v: Json, tail: Bytes)
    requires d.Quoted? && Means(d, v)
    ensures ReadsValue(DocText(d) + tail, v, tail)
  {
    var s := DocText(d) + tail;
    QuotesAround(PiecesText(d.pieces), tail);
    QuotedReads(d.pieces, v.text, s, tail);
    TextReads(s, v.text, tail);
  }

  lemma {:induction false} QuotesAround(text: Bytes, tail: Bytes)
    ensures [QUOTE] + text + [QUOTE] + tail == [QUOTE] + (text + [QUOTE] + tail)
  {
  }

  lemma {:induction false} TextReads(s: Bytes, text: Bytes, tail: Bytes)
    requires ReadsText(s, text, tail)
    ensures ReadsValue(s, Str(text), tail)
  {
    assert Ask(true);
  }

  // ----- one step of each reader, with spaces -----

  lemma {:induction false} ArrayOpensPadded(s: Bytes, pad: Bytes, inner: Bytes, v: Json, tail: Bytes)
    requires Spaces(pad) && s == [OPEN_ARRAY] + (pad + inner) && inner != [] && !IsSpace(inner[0])
    requires if inner[0] == CLOSE_ARRAY then v == Arr([]) && tail == inner[1..] else ReadsItems(inner, [], v, tail)
    ensures ReadsValue(s, v, tail)
  {
    assert Ask(true);
    TailOf(OPEN_ARRAY, pad + inner);
    PadIsSkipped(pad, inner);
  }

  lemma {:induction false} ObjectOpensPadded(s: Bytes, pad: Bytes, inner: Bytes, v: Json, tail: Bytes)
    requires Spaces(pad) && s == [OPEN_OBJECT] + (pad + inner) && inner != [] && !IsSpace(inner[0])
    requires if inner[0] == CLOSE_OBJECT then v == Obj([]) && tail == inner[1..] else ReadsMembers(inner, [], v, tail)
    ensures ReadsValue(s, v, tail)
  {
    assert Ask(true);
    TailOf(OPEN_OBJECT, pad + inner);
    PadIsSkipped(pad, inner);
  }

  lemma {:induction false} EmptyDocReads(d: Doc, v: Json, tail: Bytes)
    requires (d.EmptyList? || d.EmptyTable?) && Means(d, v)
    ensures ReadsValue(DocText(d) + tail, v, tail)
  {
    var open, close := if d.EmptyList? then OPEN_ARRAY else OPEN_OBJECT, if d.EmptyList? then CLOSE_ARRAY else CLOSE_OBJECT;
    var s := DocText(d) + tail;
    assert s == [open] + (d.pad + ([close] + tail));
    TailOf(close, tail);
    if d.EmptyList? {
      ArrayOpensPadded(s, d.pad, [close] + tail, v, tail);
    } else {
      ObjectOpensPadded(s, d.pad, [close] + tail, v, tail);
    }
  }

  lemma {:induction false} LastRow(s: Bytes, read: seq<Json>, item: Json, pad: Bytes, tail: Bytes, items: seq<Json>)
    requires Spaces(pad) && ReadsValue(s, item, pad + ([CLOSE_ARRAY] + tail)) && items == read + [item]
    ensures ReadsItems(s, read, Arr(items), tail)
  {
    assert Ask(true);
    TailOf(CLOSE_ARRAY, tail);
    PadIsSkipped(pad, [CLOSE_ARRAY] + tail);
  }

  lemma {:induction false} NextRow(s: Bytes, read: seq<Json>, item: Json, pad: Bytes, before: Bytes, next: Bytes, items: seq<Json>,
                                   v: Json, tail: Bytes)
    requires Spaces(pad) && Spaces(before) && (next == [] || !IsSpace(next[0]))
    requires ReadsValue(s, item, pad + ([COMMA] + (before + next)))
    requires items == read + [item] && ReadsItems(next, items, v, tail)
    ensures ReadsItems(s, read, v, tail)
  {
    assert Ask(true);
    TailOf(COMMA, before + next);
    PadIsSkipped(pad, [COMMA] + (before + next));
    PadIsSkipped(before, next);
  }

  lemma {:induction false} LastField(s: Bytes, read: seq<Member>, m: Member, pad: Bytes, tail: Bytes, members: seq<Member>)
    requires Spaces(pad) && ReadsMember(s, m, pad + ([CLOSE_OBJECT] + tail)) && Joins(read, m, members)
    ensures ReadsMembers(s, read, Obj(members), tail)
  {
    assert Ask(true);
    TailOf(CLOSE_OBJECT, tail);
    PadIsSkipped(pad, [CLOSE_OBJECT] + tail);
  }

  lemma {:induction false} NextField(s: Bytes, read: seq<Member>, m: Member, pad: Bytes, before: Bytes, next: Bytes,
                                     members: seq<Member>, v: Json, tail: Bytes)
    requires Spaces(pad) && Spaces(before) && (next == [] || !IsSpace(next[0]))
    requires ReadsMember(s, m, pad + ([COMMA] + (before + next)))
    requires Joins(read, m, members) && ReadsMembers(next, members, v, tail)
    ensures ReadsMembers(s, read, v, tail)
  {
    var after := pad + ([COMMA] + (before + next));
    TailOf(COMMA, before + next);
    PadIsSkipped(pad, [COMMA] + (before + next));
    PadIsSkipped(before, next);
    assert ReadMember(s) == Some((m, after)) by { assert Ask(true); }
    OneMemberOn(s, read, m, after, next, members);
  }

  lemma {:induction false} FieldParts(s: Bytes, m: Member, pad: Bytes, before: Bytes, text: Bytes, after: Bytes)
    requires Spaces(pad) && Spaces(before) && (text == [] || !IsSpace(text[0]))
    requires ReadsText(s, m.key, pad + ([COLON] + (before + text))) && ReadsValue(text, m.value, after)
    ensures ReadsMember(s, m, after)
  {
    assert Ask(true);
    TailOf(COLON, before + text);
    PadIsSkipped(pad, [COLON] + (before + text));
    PadIsSkipped(before, text);
  }

  // ----- the induction over documents -----

  lemma {:induction false} PadCloses(pad: Bytes, more: Bytes)
    requires Spaces(pad) && more != [] && Closed(more)
    ensures Closed(pad + more)
  {
    if pad != [] { assert (pad + more)[0] == pad[0]; } else { assert pad + more == more; }
  }

  lemma {:induction false} RowsRead(r: Rows, items: seq<Json>, read: seq<Json>, tail: Bytes)
    requires RowsMean(r, items)
    ensures ReadsItems(RowText(r, tail), read, Arr(read + items), tail)
    ensures RowText(r, tail) != [] && !IsSpace(RowText(r, tail)[0]) && RowText(r, tail)[0] != CLOSE_ARRAY
    decreases r
  {
    var s := RowText(r, tail);
    DocStarts(r.doc, items[0]);
    Front(DocText(r.doc), AfterRow(r, tail));
    if r.more.Some? {
      var more := r.more.value;
      var next := RowText(more, tail);
      TailOf(COMMA, more.before + next);
      PadCloses(r.after, [COMMA] + (more.before + next));
      DocReads(r.doc, items[0], AfterRow(r, tail));
      RowsRead(more, items[1..], read + [items[0]], tail);
      ItemsGrow(read, items);
      NextRow(s, read, items[0], r.after, more.before, next, read + [items[0]], Arr(read + items), tail);
    } else {
      TailOf(CLOSE_ARRAY, tail);
      PadCloses(r.after, [CLOSE_ARRAY] + tail);
      DocReads(r.doc, items[0], AfterRow(r, tail));
      assert items == [items[0]];
      LastRow(s, read, items[0], r.after, tail, read + items);
    }
  }

  lemma {:induction false} ItemsGrow<T>(read: seq<T>, items: seq<T>)
    requires items != []
    ensures read + [items[0]] + items[1..] == read + items
  {
  }

  lemma {:induction false} FieldReads(f: Fields, m: Member, tail: Bytes)
    requires Spaces(f.beforeColon) && Spaces(f.afterColon) && Spaces(f.after) && PiecesMean(f.key, m.key) && Means(f.doc, m.value)
    ensures ReadsMember(FieldText(f, tail), m, AfterField(f, tail))
    decreases f, 0
  {
    var after := AfterField(f, tail);
    var text := DocText(f.doc) + after;
    FieldCloses(f, tail);
    DocReads(f.doc, m.value, after);
    DocStarts(f.doc, m.value);
    Front(DocText(f.doc), after);
    QuotedReads(f.key, m.key, FieldText(f, tail), f.beforeColon + ([COLON] + (f.afterColon + text)));
    FieldParts(FieldText(f, tail), m, f.beforeColon, f.afterColon, text, after);
  }

  lemma {:induction false} FieldCloses(f: Fields, tail: Bytes)
    requires Spaces(f.after)
    ensures Closed(AfterField(f, tail))
  {
    if f.more.Some? {
      var next := f.more.value.before + FieldText(f.more.value, tail);
      TailOf(COMMA, next);
      PadCloses(f.after, [COMMA] + next);
    } else {
      TailOf(CLOSE_OBJECT, tail);
      PadCloses(f.after, [CLOSE_OBJECT] + tail);
    }
  }

  /** Members that can be arranged together with those read join them one by one. */
  lemma {:induction false} MemberIsNew(members: seq<Member>, read: seq<Member>, written: seq<Member>)
    requires written != [] && Ascending(members) && Ascending(read) && multiset(members) == multiset(read) + multiset(written)
    ensures Joins(read, written[0], WithMember(read, written[0])) && Ascending(WithMember(read, written[0]))
    ensures multiset(members) == multiset(WithMember(read, written[0])) + multiset(written[1..])
  {
    var m := written[0];
    assert written == [m] + written[1..];
    forall i | 0 <= i < |read| ensures read[i].key != m.key {
      KeysDiffer(members, read, written, i);
    }
    InsertKeepsOrder(read, m);
    InsertAdds(read, m);
  }

  lemma {:induction false} KeysDiffer(members: seq<Member>, read: seq<Member>, written: seq<Member>, i: nat)
    requires Ascending(members) && multiset(members) == multiset(read) + multiset(written) && i < |read| && written != []
    ensures read[i].key != written[0].key
  {
    var a, b := read[i], written[0];
    assert a in multiset(read) && b in multiset(written);
    assert a in multiset(members) && b in multiset(members);
    var j :| 0 <= j < |members| && members[j] == a;
    if a == b {
      assert multiset(members)[a] >= 2;
      OnceIn(members, j);
      assert false;
    }
    var k :| 0 <= k < |members| && members[k] == b;
    KeyLessIrreflexive(a.key);
    assert KeyLess(members[j].key, members[k].key) || KeyLess(members[k].key, members[j].key);
  }

  lemma {:induction false} OnceIn(members: seq<Member>, j: nat)
    requires Ascending(members) && j < |members|
    ensures multiset(members)[members[j]] == 1
  {
    var m := members[j];
    forall i, k | 0 <= i < k < |members| ensures members[i] != members[k] {
      KeyLessIrreflexive(members[k].key);
    }
    DistinctCounts(members, m);
  }

  lemma {:induction false} FieldsRead(f: Fields, written: seq<Member>, read: seq<Member>, members: seq<Member>, tail: Bytes)
    requires FieldsMean(f, written) && Ascending(members) && Ascending(read) && multiset(members) == multiset(read) + multiset(written)
    ensures ReadsMembers(FieldText(f, tail), read, Obj(members), tail)
    decreases f, 1
  {
    var s, m := FieldText(f, tail), written[0];
    var joined := WithMember(read, m);
    FieldReads(f, m, tail);
    MemberIsNew(members, read, written);
    if f.more.Some? {
      var more := f.more.value;
      var next := FieldText(more, tail);
      FieldsRead(more, written[1..], joined, members, tail);
      TailOf(QUOTE, next[1..]);
      NextField(s, read, m, f.after, more.before, next, joined, Obj(members), tail);
    } else {
      assert written[1..] == [];
      SameArrangement(members, joined);
      LastField(s, read, m, f.after, tail, members);
    }
  }

  lemma {:induction false} ListReads(d: Doc, v: Json, tail: Bytes)
    requires d.List? && Means(d, v)
    ensures ReadsValue(DocText(d) + tail, v, tail)
    decreases d, 0
  {
    var s, inner := DocText(d) + tail, RowText(d.rows, tail);
    RowsTextIs(d.rows, tail);
    assert s == [OPEN_ARRAY] + (RowsText(d.rows) + [CLOSE_ARRAY] + tail);
    RowsRead(d.rows, v.items, [], tail);
    assert [] + v.items == v.items;
    ArrayOpensPadded(s, d.rows.before, inner, v, tail);
  }

  lemma {:induction false} TableReads(d: Doc, v: Json, tail: Bytes)
    requires d.Table? && Means(d, v)
    ensures ReadsValue(DocText(d) + tail, v, tail)
    decreases d, 0
  {
    var written :| Arranges(v.members, written) && FieldsMean(d.fields, written);
    var s, inner := DocText(d) + tail, FieldText(d.fields, tail);
    FieldsTextIs(d.fields, tail);
    assert s == [OPEN_OBJECT] + (FieldsText(d.fields) + [CLOSE_OBJECT] + tail);
    ByKeyIff(v.members);
    FieldsRead(d.fields, written, [], v.members, tail);
    ObjectOpensPadded(s, d.fields.before, inner, v, tail);
  }

  lemma {:induction false} DocReads(d: Doc, v: Json, tail: Bytes)
    requires Means(d, v) && Closed(tail)
    ensures ReadsValue(DocText(d) + tail, v, tail)
    decreases d, 1
  {
    match d {
      case Num(_, _) => NumDocReads(d, v, tail);
      case Quoted(_) => QuotedDocReads(d, v, tail);
      case EmptyList(_) => EmptyDocReads(d, v, tail);
      case List(_) => ListReads(d, v, tail);
      case EmptyTable(_) => EmptyDocReads(d, v, tail);
      case Table(_) => TableReads(d, v, tail);
    }
  }
}
