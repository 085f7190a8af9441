/** The documents of the grammar, written out with their spaces and spellings,
    and what each means. */
module JsonGrammar {
  import opened Domain
  import opened StrictJson
  import opened JsonStrings

  datatype Doc =
    | Num(negative: bool, digits: Bytes)
    | Quoted(pieces: seq<Piece>)
    | EmptyList(pad: Bytes)
    | List(rows: Rows)
    | EmptyTable(pad: Bytes)
    | Table(fields: Fields)

  /** An item with the spaces around it, and those after the comma, if any. */
  datatype Rows = Rows(before: Bytes, doc: Doc, after: Bytes, more: Option<Rows>)

  datatype Fields = Fields(before: Bytes, key: seq<Piece>, beforeColon: Bytes, afterColon: Bytes, doc: Doc, after: Bytes,
                           more: Option<Fields>)

  // ----- texts -----

  function DocText(d: Doc): Bytes {
    match d
    case Num(negative, digits) => (if negative then [45] else []) + digits
    case Quoted(pieces) => [34] + PiecesText(pieces) + [34]
    case EmptyList(pad) => [91] + pad + [93]
    case List(rows) => [91] + RowsText(rows) + [93]
    case EmptyTable(pad) => [123] + pad + [125]
    case Table(fields) => [123] + FieldsText(fields) + [125]
  }

  function RowsText(r: Rows): Bytes {
    r.before + DocText(r.doc) + r.after + (if r.more.Some? then [44] + RowsText(r.more.value) else [])
  }

  function FieldsText(f: Fields): Bytes {
    f.before + [34] + PiecesText(f.key) + [34] + f.beforeColon + [58] + f.afterColon + DocText(f.doc) + f.after
    + (if f.more.Some? then [44] + FieldsText(f.more.value) else [])
  }

  // ----- meanings -----

  /** Spaces, tabs and ends of lines. */
  predicate Spaces(pad: Bytes) {
    forall i | 0 <= i < |pad| :: pad[i] == 32 || pad[i] == 9 || pad[i] == 10 || pad[i] == 13
  }

  predicate AllDigits(digits: Bytes) { forall i | 0 <= i < |digits| :: 48 <= digits[i] <= 57 }

  function Power(n: nat): nat { if n == 0 then 1 else 10 * Power(n - 1) }

  /** The number that decimal digits write. */
  function Decimal(digits: Bytes): nat
    requires AllDigits(digits)
  {
    if digits == [] then 0 else (digits[0] - 48) * Power(|digits| - 1) + Decimal(digits[1..])
  }

  ghost predicate NumMeans(negative: bool, digits: Bytes, value: int) {
    && digits != [] && AllDigits(digits) && (digits[0] == 48 ==> |digits| == 1)
    && value == if negative then 0 - Decimal(digits) else Decimal(digits)
  }

  /** Two keys differ first at `k`, and there the first is the lower or at its end. */
  ghost predicate DifferAt(a: Bytes, b: Bytes, k: nat) {
    k <= |a| && k < |b| && a[..k] == b[..k] && (k == |a| || a[k] < b[k])
  }

  ghost predicate ComesBefore(a: Bytes, b: Bytes) { exists k: nat :: DifferAt(a, b, k) }

  ghost predicate ByKey(members: seq<Member>) {
    forall i, j | 0 <= i < j < |members| :: ComesBefore(members[i].key, members[j].key)
  }

  /** The members are those written, in the order of their keys. */
  ghost predicate Arranges(members: seq<Member>, written: seq<Member>) {
    ByKey(members) && multiset(members) == multiset(written)
  }

  ghost predicate Means(d: Doc, v: Json) {
    match d
    case Num(negative, digits) => v.Int? && NumMeans(negative, digits, v.value)
    case Quoted(pieces) => v.Str? && PiecesMean(pieces, v.text)
    case EmptyList(pad) => Spaces(pad) && v == Arr([])
    case List(rows) => v.Arr? && RowsMean(rows, v.items)
    case EmptyTable(pad) => Spaces(pad) && v == Obj([])
    case Table(fields) => v.Obj? && exists written :: Arranges(v.members, written) && FieldsMean(fields, written)
  }

  ghost predicate RowsMean(r: Rows, items: seq<Json>) {
    && Spaces(r.before) && Spaces(r.after) && items != [] && Means(r.doc, items[0])
    && if r.more.Some? then RowsMean(r.more.value, items[1..]) else |items| == 1
  }

  ghost predicate FieldsMean(f: Fields, written: seq<Member>) {
    && Spaces(f.before) && Spaces(f.beforeColon) && Spaces(f.afterColon) && Spaces(f.after)
    && written != [] && PiecesMean(f.key, written[0].key) && Means(f.doc, written[0].value)
    && if f.more.Some? then FieldsMean(f.more.value, written[1..]) else |written| == 1
  }

  // ----- spaces -----

  lemma {:induction false} PadIsSkipped(pad: Bytes, s: Bytes)
    requires Spaces(pad) && (s == [] || !IsSpace(s[0]))
    ensures SkipSpace(pad + s) == s
  {
    if pad == [] {
      assert pad + s == s;
    } else {
      assert (pad + s)[1..] == pad[1..] + s && (pad + s)[0] == pad[0];
      PadIsSkipped(pad[1..], s);
    }
  }

  /** What is skipped is spaces. */
  lemma {:induction false} SkippedIsPad(s: Bytes) returns (pad: Bytes)
    ensures Spaces(pad) && s == pad + SkipSpace(s)
    ensures SkipSpace(s) == [] || !IsSpace(SkipSpace(s)[0])
  {
    if s != [] && IsSpace(s[0]) {
      var more := SkippedIsPad(s[1..]);
      pad := [s[0]] + more;
      assert s == [s[0]] + s[1..];
    } else {
      pad := [];
    }
  }

  // ----- numbers -----

  lemma {:induction false} DecimalOfMore(digits: Bytes, last: uint8)
    requires AllDigits(digits) && 48 <= last <= 57
    ensures AllDigits(digits + [last]) && Decimal(digits + [last]) == Decimal(digits) * 10 + (last - 48)
  {
    var all := digits + [last];
    assert forall i | 0 <= i < |all| :: 48 <= all[i] <= 57;
    if digits == [] {
      assert all[1..] == [];
      assert Power(0) == 1;
    } else {
      assert all[1..] == digits[1..] + [last] && all[0] == digits[0];
      DecimalOfMore(digits[1..], last);
      Shifted(digits[0] - 48, Power(|digits| - 1));
    }
  }

  lemma {:induction false} Shifted(digit: nat, power: nat)
    ensures digit * (10 * power) == digit * power * 10
  {
  }

  lemma {:induction false} NumberIsDecimal(digits: Bytes)
    requires AllDigits(digits)
    ensures forall i | 0 <= i < |digits| :: IsDigit(digits[i])
    ensures Number(digits) == Decimal(digits)
  {
    if digits != [] {
      var front, last := digits[..|digits| - 1], digits[|digits| - 1];
      NumberIsDecimal(front);
      DecimalOfMore(front, last);
      assert digits == front + [last];
    }
  }

  // ----- the order of keys -----

  lemma {:induction false} KeyLessIff(a: Bytes, b: Bytes)
    ensures KeyLess(a, b) <==> ComesBefore(a, b)
  {
    if b == [] {
    } else if a == [] {
      assert DifferAt(a, b, 0);
    } else if a[0] != b[0] {
      DifferAtOnce(a, b);
    } else {
      KeyLessIff(a[1..], b[1..]);
      DifferLater(a, b);
    }
  }

  lemma {:induction false} DifferAtOnce(a: Bytes, b: Bytes)
    requires a != [] && b != [] && a[0] != b[0]
    ensures ComesBefore(a, b) <==> a[0] < b[0]
  {
    assert forall k: nat | 0 < k <= |a| && k <= |b| :: a[..k][0] != b[..k][0];
    if a[0] < b[0] {
      assert a[..0] == b[..0];
      assert DifferAt(a, b, 0);
    }
  }

  lemma {:induction false} DifferLater(a: Bytes, b: Bytes)
    requires a != [] && b != [] && a[0] == b[0]
    ensures ComesBefore(a, b) <==> ComesBefore(a[1..], b[1..])
  {
    if ComesBefore(a, b) {
      var k: nat :| DifferAt(a, b, k);
      assert k > 0 && a[1..][..k - 1] == a[..k][1..] && b[1..][..k - 1] == b[..k][1..];
      assert DifferAt(a[1..], b[1..], k - 1);
    }
    if ComesBefore(a[1..], b[1..]) {
      var k: nat :| DifferAt(a[1..], b[1..], k);
      assert a[..k + 1] == [a[0]] + a[1..][..k] && b[..k + 1] == [b[0]] + b[1..][..k];
      assert DifferAt(a, b, k + 1);
    }
  }

  lemma {:induction false} ByKeyIff(members: seq<Member>)
    ensures ByKey(members) <==> Ascending(members)
  {
    forall i, j | 0 <= i < j < |members|
      ensures KeyLess(members[i].key, members[j].key) <==> ComesBefore(members[i].key, members[j].key)
    {
      KeyLessIff(members[i].key, members[j].key);
    }
  }

  // ----- arranging members -----

  lemma {:induction false} InsertAdds(members: seq<Member>, m: Member)
    ensures multiset(WithMember(members, m)) == multiset(members) + multiset{m}
  {
    if members != [] {
      var front, last := members[..|members| - 1], members[|members| - 1];
      assert members == front + [last];
      if !KeyLess(last.key, m.key) {
        InsertAdds(front, m);
      }
    }
  }

  /** There is one way to arrange members. */
  lemma {:induction false} SameArrangement(a: seq<Member>, b: seq<Member>)
    requires Ascending(a) && Ascending(b) && multiset(a) == multiset(b)
    ensures a == b
  {
    if a == [] {
      assert |multiset(b)| == 0;
    } else {
      assert |multiset(a)| > 0;
      FirstAgrees(a, b);
      RestAgrees(a, b);
      SameArrangement(a[1..], b[1..]);
      assert a == [a[0]] + a[1..] && b == [b[0]] + b[1..];
    }
  }

  lemma {:induction false} FirstAgrees(a: seq<Member>, b: seq<Member>)
    requires Ascending(a) && Ascending(b) && multiset(a) == multiset(b) && a != [] && b != []
    ensures a[0] == b[0]
  {
    assert b[0] in multiset(b) && a[0] in multiset(a);
    LeastIsFirst(a, b[0]);
    LeastIsFirst(b, a[0]);
    KeyLessAsymmetric(a[0].key, b[0].key);
  }

  lemma {:induction false} KeyLessAsymmetric(a: Bytes, b: Bytes)
    ensures !(KeyLess(a, b) && KeyLess(b, a))
  {
    if a != [] && b != [] && a[0] == b[0] {
      KeyLessAsymmetric(a[1..], b[1..]);
    }
  }

  lemma {:induction false} RestAgrees(a: seq<Member>, b: seq<Member>)
    requires multiset(a) == multiset(b) && a != [] && b != [] && a[0] == b[0]
    ensures multiset(a[1..]) == multiset(b[1..])
  {
    assert a == [a[0]] + a[1..] && b == [b[0]] + b[1..];
    assert multiset(a[1..]) == multiset(a) - multiset{a[0]};
    assert multiset(b[1..]) == multiset(b) - multiset{b[0]};
  }

  lemma {:induction false} LeastIsFirst(a: seq<Member>, m: Member)
    requires Ascending(a) && m in multiset(a)
    ensures a != [] && (m != a[0] ==> KeyLess(a[0].key, m.key))
  {
    var i :| 0 <= i < |a| && a[i] == m;
  }
}
