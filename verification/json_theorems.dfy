/** Reading a value's canonical text gives the value back. */
module JsonTheorems {
  import opened Domain
  import opened Folding
  import opened StrictJson

  // ----- strings -----

  lemma {:induction false} HexCharReads(n: nat)
    requires n < 16
    ensures HexDigit(HexChar(n)) == Some(n)
  {
  }

  lemma {:induction false} ControlEscapeReads(c: uint8, tail: Bytes)
    requires c < 32
    ensures UnicodeEscape([ZERO, ZERO, HexChar(c / 16), HexChar(c % 16)] + tail) == Some(([c], tail))
  {
    var s := [ZERO, ZERO, HexChar(c / 16), HexChar(c % 16)] + tail;
    HexCharReads(c / 16);
    HexCharReads(c % 16);
    assert HexDigit(s[0]) == Some(0) && HexDigit(s[1]) == Some(0);
    assert HexQuad(s) == Some(c);
    assert s[4..] == tail;
  }

  lemma {:induction false} ByteReads(c: uint8, tail: Bytes, read: Bytes)
    ensures ReadString(CanonicalByte(c) + tail, read) == ReadString(tail, read + [c])
  {
    var s := CanonicalByte(c) + tail;
    if c < 32 || c == QUOTE || c == BACKSLASH {
      assert s[0] == BACKSLASH;
      var code := CanonicalByte(c)[1];
      assert s[1..] == CanonicalByte(c)[1..] + tail;
      assert s[1..][0] == code;
      if |CanonicalByte(c)| == 2 {
        assert s[1..][1..] == tail;
      } else {
        ControlEscapeReads(c, tail);
        assert s[1..][1..] == [ZERO, ZERO, HexChar(c / 16), HexChar(c % 16)] + tail;
      }
      assert ReadEscape(s[1..]) == Some(([c], tail));
    } else {
      assert s[1..] == tail;
    }
  }

  lemma {:induction false} Regroup3(a: Bytes, b: Bytes, c: Bytes, d: Bytes)
    ensures a + b + c + d == a + (b + c + d)
  {
  }

  lemma {:induction false} FirstAndRest(read: Bytes, text: Bytes)
    requires text != []
    ensures read + [text[0]] + text[1..] == read + text
  {
  }

  lemma {:induction false} BytesRead(text: Bytes, tail: Bytes, read: Bytes)
    ensures ReadString(CanonicalBytes(text) + [QUOTE] + tail, read) == Some((read + text, tail))
    decreases |text|
  {
    if text == [] {
      assert [] + [QUOTE] + tail == [QUOTE] + tail;
      TailOf(QUOTE, tail);
      assert read + [] == read;
    } else {
      var more := CanonicalBytes(text[1..]) + [QUOTE] + tail;
      Regroup3(CanonicalByte(text[0]), CanonicalBytes(text[1..]), [QUOTE], tail);
      ByteReads(text[0], more, read);
      BytesRead(text[1..], tail, read + [text[0]]);
      FirstAndRest(read, text);
    }
  }

  /** A canonical string reads back from after its opening quote. */
  lemma {:induction false} StringReads(text: Bytes, tail: Bytes)
    ensures ReadsText(CanonicalString(text) + tail, text, tail)
  {
    var s := CanonicalString(text) + tail;
    assert s[1..] == CanonicalBytes(text) + [QUOTE] + tail;
    BytesRead(text, tail, []);
    assert [] + text == text;
  }

  // ----- integers -----

  /** What may follow a value in canonical text: the end, or a delimiter. */
  predicate Delimited(tail: Bytes) {
    tail == [] || tail[0] == COMMA || tail[0] == CLOSE_ARRAY || tail[0] == CLOSE_OBJECT
  }

  lemma {:induction false} NumberOfDigits(n: nat)
    ensures Number(Digits(n)) == n
  {
    if n >= 10 {
      NumberOfDigits(n / 10);
      assert Digits(n)[..|Digits(n)| - 1] == Digits(n / 10);
    } else {
      assert Digits(n)[..0] == [];
    }
  }

  lemma {:induction false} DigitsEnd(digits: Bytes, tail: Bytes)
    requires forall i | 0 <= i < |digits| :: IsDigit(digits[i])
    requires tail == [] || !IsDigit(tail[0])
    ensures DigitCount(digits + tail) == |digits|
  {
    if digits != [] {
      assert (digits + tail)[0] == digits[0] && (digits + tail)[1..] == digits[1..] + tail;
      DigitsEnd(digits[1..], tail);
    } else {
      assert digits + tail == tail;
    }
  }

  lemma {:induction false} Front(a: Bytes, b: Bytes)
    requires a != []
    ensures (a + b)[..|a|] == a && (a + b)[|a|..] == b && (a + b)[0] == a[0] && a + b != []
  {
  }

  lemma {:induction false} IntegerParts(s: Bytes, negative: bool, body: Bytes, n: nat, tail: Bytes, value: int64)
    requires s != [] && negative == (s[0] == MINUS) && body == if negative then s[1..] else s
    requires DigitCount(body) == n > 0 && (body[0] == ZERO ==> n == 1) && tail == body[n..] && Delimited(tail)
    requires value == if negative then 0 - Number(body[..n]) else Number(body[..n])
    ensures ReadInteger(s) == Some((value, tail))
  {
  }

  lemma {:induction false} NaturalReads(n: nat, tail: Bytes)
    requires Delimited(tail)
    ensures var body := Digits(n) + tail; var k := |Digits(n)|;
      && DigitCount(body) == k > 0 && (body[0] == ZERO ==> k == 1) && tail == body[k..] && Number(body[..k]) == n
      && IsDigit(body[0])
  {
    NumberOfDigits(n);
    DigitsEnd(Digits(n), tail);
    Front(Digits(n), tail);
  }

  lemma {:induction false} IntegerReads(v: int64, tail: Bytes)
    requires Delimited(tail)
    ensures ReadInteger(CanonicalInt(v) + tail) == Some((v, tail))
  {
    var magnitude: nat := if v < 0 then 0 - v else v;
    var body := Digits(magnitude) + tail;
    NaturalReads(magnitude, tail);
    if v < 0 {
      var s := [MINUS] + body;
      assert CanonicalInt(v) + tail == s;
      TailOf(MINUS, body);
      IntegerParts(s, true, body, |Digits(magnitude)|, tail, v);
    } else {
      IntegerParts(body, false, body, |Digits(magnitude)|, tail, v);
    }
  }

  // ----- values -----

  lemma {:induction false} NoSpace(s: Bytes)
    requires s == [] || !IsSpace(s[0])
    ensures SkipSpace(s) == s
  {
  }

  /** Canonical text starts a value: no space, no closing bracket. */
  lemma {:induction false} CanonicalStarts(v: Json)
    ensures Canonical(v) != [] && !IsSpace(Canonical(v)[0])
    ensures Canonical(v)[0] != CLOSE_ARRAY && Canonical(v)[0] != CLOSE_OBJECT
    ensures v.Int? ==> Canonical(v)[0] == MINUS || IsDigit(Canonical(v)[0])
  {
  }

  lemma {:induction false} ScalarReads(v: Json, tail: Bytes)
    requires (v.Int? || v.Str?) && Delimited(tail)
    ensures ReadsValue(Canonical(v) + tail, v, tail)
  {
    var s := Canonical(v) + tail;
    CanonicalStarts(v);
    assert s[0] == Canonical(v)[0];
    if v.Int? {
      IntegerReads(v.value, tail);
    } else {
      StringReads(v.text, tail);
      assert Ask(true);
    }
  }

  lemma {:induction false} AppendsInOrder(members: seq<Member>, k: nat)
    requires Ascending(members) && k < |members|
    ensures Joins(members[..k], members[k], members[..k + 1])
  {
    KeyLessIrreflexive(members[k].key);
    assert forall i | 0 <= i < k :: KeyLess(members[..k][i].key, members[k].key);
    assert members[..k] + [members[k]] == members[..k + 1];
  }

  lemma {:induction false} KeyLessIrreflexive(a: Bytes)
    ensures !KeyLess(a, a)
  {
    if a != [] { KeyLessIrreflexive(a[1..]); }
  }

  // ----- sequences -----

  lemma {:induction false} OneMore<T>(s: seq<T>, k: nat)
    requires k < |s|
    ensures s[..k] + [s[k]] == s[..k + 1]
    ensures k + 1 == |s| ==> s[..k + 1] == s
  {
  }

  lemma {:induction false} TailOf(first: uint8, rest: Bytes)
    ensures ([first] + rest)[1..] == rest && ([first] + rest)[0] == first
  {
  }

  lemma {:induction false} Regroup(a: Bytes, b: Bytes, c: Bytes, d: Bytes, e: Bytes, f: Bytes)
    ensures a + b + c + d + e + f == a + (b + (c + (d + e + f)))
  {
  }

  // ----- what a text reads as; folded, so that texts and readers meet one step at a time -----

  ghost predicate ReadsValue(s: Bytes, v: Json, rest: Bytes) {
    forall now {:trigger Ask(now)} :: Ask(now) ==> ReadValue(s) == Some((v, rest))
  }

  ghost predicate ReadsItems(s: Bytes, read: seq<Json>, v: Json, rest: Bytes) {
    forall now {:trigger Ask(now)} :: Ask(now) ==> ReadItems(s, read) == Some((v, rest))
  }

  ghost predicate ReadsMember(s: Bytes, m: Member, rest: Bytes) {
    forall now {:trigger Ask(now)} :: Ask(now) ==> ReadMember(s) == Some((m, rest))
  }

  ghost predicate ReadsMembers(s: Bytes, read: seq<Member>, v: Json, rest: Bytes) {
    forall now {:trigger Ask(now)} :: Ask(now) ==> ReadMembers(s, read) == Some((v, rest))
  }

  ghost predicate ReadsText(s: Bytes, text: Bytes, rest: Bytes) {
    forall now {:trigger Ask(now)} :: Ask(now) ==> s != [] && s[0] == QUOTE && ReadString(s[1..], []) == Some((text, rest))
  }

  // ----- one step of each reader, on any text -----

  lemma {:induction false} LastItem(s: Bytes, read: seq<Json>, item: Json, after: Bytes, tail: Bytes, items: seq<Json>)
    requires ReadsValue(s, item, after) && after == [CLOSE_ARRAY] + tail && items == read + [item]
    ensures ReadsItems(s, read, Arr(items), tail)
  {
    assert Ask(true);
    TailOf(CLOSE_ARRAY, tail);
  }

  lemma {:induction false} NextItem(s: Bytes, read: seq<Json>, item: Json, after: Bytes, next: Bytes, items: seq<Json>, v: Json, tail: Bytes)
    requires ReadsValue(s, item, after) && after == [COMMA] + next && (next == [] || !IsSpace(next[0]))
    requires items == read + [item] && ReadsItems(next, items, v, tail)
    ensures ReadsItems(s, read, v, tail)
  {
    assert Ask(true);
    TailOf(COMMA, next);
    NoSpace(after);
    NoSpace(next);
  }

  /** The member is new to those read, and is inserted among them. */
  predicate Joins(read: seq<Member>, m: Member, members: seq<Member>) {
    !HasKey(read, m.key) && members == WithMember(read, m)
  }

  lemma {:induction false} LastMember(s: Bytes, read: seq<Member>, m: Member, after: Bytes, tail: Bytes, members: seq<Member>)
    requires ReadsMember(s, m, after) && Joins(read, m, members) && after == [CLOSE_OBJECT] + tail
    ensures ReadsMembers(s, read, Obj(members), tail)
  {
    assert Ask(true);
    TailOf(CLOSE_OBJECT, tail);
    NoSpace(after);
  }

  lemma {:induction false} NextMember(s: Bytes, read: seq<Member>, m: Member, after: Bytes, next: Bytes, members: seq<Member>,
                                      v: Json, tail: Bytes)
    requires ReadsMember(s, m, after) && Joins(read, m, members) && after == [COMMA] + next
    requires (next == [] || !IsSpace(next[0])) && ReadsMembers(next, members, v, tail)
    ensures ReadsMembers(s, read, v, tail)
  {
    TailOf(COMMA, next);
    NoSpace(after);
    NoSpace(next);
    assert ReadMember(s) == Some((m, after)) by { assert Ask(true); }
    OneMemberOn(s, read, m, after, next, members);
  }

  lemma {:induction false} OneMemberOn(s: Bytes, read: seq<Member>, m: Member, after: Bytes, next: Bytes, members: seq<Member>)
    requires ReadMember(s) == Some((m, after)) && Joins(read, m, members)
    requires SkipSpace(after) != [] && SkipSpace(after)[0] == COMMA && SkipSpace(SkipSpace(after)[1..]) == next
    ensures ReadMembers(s, read) == ReadMembers(next, members)
  {
  }

  lemma {:induction false} MemberParts(s: Bytes, m: Member, colon: Bytes, text: Bytes, after: Bytes)
    requires ReadsText(s, m.key, colon) && colon == [COLON] + text && (text == [] || !IsSpace(text[0]))
    requires ReadsValue(text, m.value, after)
    ensures ReadsMember(s, m, after)
  {
    assert Ask(true);
    TailOf(COLON, text);
    NoSpace(colon);
    NoSpace(text);
  }

  lemma {:induction false} ArrayOpens(s: Bytes, inner: Bytes, v: Json, tail: Bytes)
    requires s == [OPEN_ARRAY] + inner && inner != [] && !IsSpace(inner[0])
    requires if inner[0] == CLOSE_ARRAY then v == Arr([]) && tail == inner[1..] else ReadsItems(inner, [], v, tail)
    ensures ReadsValue(s, v, tail)
  {
    assert Ask(true);
    TailOf(OPEN_ARRAY, inner);
    NoSpace(inner);
  }

  lemma {:induction false} ObjectOpens(s: Bytes, inner: Bytes, v: Json, tail: Bytes)
    requires s == [OPEN_OBJECT] + inner && inner != [] && !IsSpace(inner[0])
    requires if inner[0] == CLOSE_OBJECT then v == Obj([]) && tail == inner[1..] else ReadsMembers(inner, [], v, tail)
    ensures ReadsValue(s, v, tail)
  {
    assert Ask(true);
    TailOf(OPEN_OBJECT, inner);
    NoSpace(inner);
  }

  // ----- the text after one item or member -----

  function AfterItem(v: Json, k: nat, tail: Bytes): Bytes
    requires v.Arr? && k < |v.items|
  {
    if k + 1 == |v.items| then [CLOSE_ARRAY] + tail else [COMMA] + ItemsText(v, k + 1, tail)
  }

  function ItemsText(v: Json, k: nat, tail: Bytes): Bytes
    requires v.Arr? && k <= |v.items|
  {
    CanonicalItems(v, k) + [CLOSE_ARRAY] + tail
  }

  lemma {:induction false} ItemsTextSplits(v: Json, k: nat, tail: Bytes)
    requires v.Arr? && k < |v.items|
    ensures ItemsText(v, k, tail) == Canonical(v.items[k]) + AfterItem(v, k, tail)
    ensures ItemsText(v, k, tail) != [] && !IsSpace(ItemsText(v, k, tail)[0]) && ItemsText(v, k, tail)[0] != CLOSE_ARRAY
  {
    var item := Canonical(v.items[k]);
    CanonicalStarts(v.items[k]);
    if k + 1 < |v.items| {
      assert CanonicalItems(v, k) == item + ([COMMA] + CanonicalItems(v, k + 1));
      assert item + ([COMMA] + CanonicalItems(v, k + 1)) + [CLOSE_ARRAY] + tail
          == item + ([COMMA] + (CanonicalItems(v, k + 1) + [CLOSE_ARRAY] + tail));
    } else {
      assert CanonicalItems(v, k) == item + [] == item;
      assert item + [CLOSE_ARRAY] + tail == item + ([CLOSE_ARRAY] + tail);
    }
  }

  function AfterMember(v: Json, k: nat, tail: Bytes): Bytes
    requires v.Obj? && k < |v.members|
  {
    if k + 1 == |v.members| then [CLOSE_OBJECT] + tail else [COMMA] + MembersText(v, k + 1, tail)
  }

  function MembersText(v: Json, k: nat, tail: Bytes): Bytes
    requires v.Obj? && k <= |v.members|
  {
    CanonicalMembers(v, k) + [CLOSE_OBJECT] + tail
  }

  lemma {:induction false} MembersTextSplits(v: Json, k: nat, tail: Bytes)
    requires v.Obj? && k < |v.members|
    ensures MembersText(v, k, tail)
            == CanonicalString(v.members[k].key) + ([COLON] + (Canonical(v.members[k].value) + AfterMember(v, k, tail)))
    ensures MembersText(v, k, tail) != [] && MembersText(v, k, tail)[0] == QUOTE
  {
    var key, value := CanonicalString(v.members[k].key), Canonical(v.members[k].value);
    if k + 1 < |v.members| {
      var more := CanonicalMembers(v, k + 1);
      Regroup(key, [COLON], value, [COMMA] + more, [CLOSE_OBJECT], tail);
      assert [COMMA] + more + [CLOSE_OBJECT] + tail == [COMMA] + (more + [CLOSE_OBJECT] + tail);
    } else {
      Regroup(key, [COLON], value, [], [CLOSE_OBJECT], tail);
      assert [] + [CLOSE_OBJECT] + tail == [CLOSE_OBJECT] + tail;
    }
  }

  // ----- the induction over values -----

  /** Reading the rest of an array after its first `k` items. */
  lemma {:induction false} ItemsRead(v: Json, k: nat, tail: Bytes)
    requires v.Arr? && k < |v.items| && Ordered(v)
    ensures ReadsItems(ItemsText(v, k, tail), v.items[..k], v, tail)
    decreases v, 0, |v.items| - k
  {
    var s, item, after := ItemsText(v, k, tail), v.items[k], AfterItem(v, k, tail);
    ItemsTextSplits(v, k, tail);
    ValueReads(item, after);
    OneMore(v.items, k);
    if k + 1 == |v.items| {
      LastItem(s, v.items[..k], item, after, tail, v.items[..k + 1]);
    } else {
      ItemsTextSplits(v, k + 1, tail);
      ItemsRead(v, k + 1, tail);
      NextItem(s, v.items[..k], item, after, ItemsText(v, k + 1, tail), v.items[..k + 1], v, tail);
    }
  }

  lemma {:induction false} MemberReads(v: Json, k: nat, tail: Bytes)
    requires v.Obj? && k < |v.members| && Ordered(v)
    ensures ReadsMember(MembersText(v, k, tail), v.members[k], AfterMember(v, k, tail))
    decreases v, 0, 0
  {
    var m, after := v.members[k], AfterMember(v, k, tail);
    var text := Canonical(m.value) + after;
    var colon := [COLON] + text;
    MembersTextSplits(v, k, tail);
    StringReads(m.key, colon);
    CanonicalStarts(m.value);
    Front(Canonical(m.value), after);
    ValueReads(m.value, after);
    MemberParts(MembersText(v, k, tail), m, colon, text, after);
  }

  lemma {:induction false} MembersRead(v: Json, k: nat, tail: Bytes)
    requires v.Obj? && k < |v.members| && Ordered(v)
    ensures ReadsMembers(MembersText(v, k, tail), v.members[..k], v, tail)
    decreases v, 0, |v.members| - k
  {
    var s, m, after := MembersText(v, k, tail), v.members[k], AfterMember(v, k, tail);
    MemberReads(v, k, tail);
    AppendsInOrder(v.members, k);
    OneMore(v.members, k);
    if k + 1 == |v.members| {
      LastMember(s, v.members[..k], m, after, tail, v.members[..k + 1]);
    } else {
      MembersTextSplits(v, k + 1, tail);
      MembersRead(v, k + 1, tail);
      NextMember(s, v.members[..k], m, after, MembersText(v, k + 1, tail), v.members[..k + 1], v, tail);
    }
  }

  lemma {:induction false} ArrayReads(v: Json, tail: Bytes)
    requires v.Arr? && Ordered(v)
    ensures ReadsValue(Canonical(v) + tail, v, tail)
    decreases v, 0, |v.items| + 1
  {
    var inner := ItemsText(v, 0, tail);
    assert Canonical(v) + tail == [OPEN_ARRAY] + inner;
    if v.items == [] {
      assert inner == [CLOSE_ARRAY] + tail;
      TailOf(CLOSE_ARRAY, tail);
    } else {
      ItemsTextSplits(v, 0, tail);
      ItemsRead(v, 0, tail);
      assert v.items[..0] == [];
    }
    ArrayOpens(Canonical(v) + tail, inner, v, tail);
  }

  lemma {:induction false} ObjectReads(v: Json, tail: Bytes)
    requires v.Obj? && Ordered(v)
    ensures ReadsValue(Canonical(v) + tail, v, tail)
    decreases v, 0, |v.members| + 1
  {
    var inner := MembersText(v, 0, tail);
    assert Canonical(v) + tail == [OPEN_OBJECT] + inner;
    if v.members == [] {
      assert inner == [CLOSE_OBJECT] + tail;
      TailOf(CLOSE_OBJECT, tail);
    } else {
      MembersTextSplits(v, 0, tail);
      MembersRead(v, 0, tail);
      assert v.members[..0] == [];
    }
    ObjectOpens(Canonical(v) + tail, inner, v, tail);
  }

  /** A value's canonical text reads back as the value, whatever delimiter follows. */
  lemma {:induction false} ValueReads(v: Json, tail: Bytes)
    requires Ordered(v) && Delimited(tail)
    ensures ReadsValue(Canonical(v) + tail, v, tail)
    decreases v, 1, 0
  {
    match v {
      case Int(_) => ScalarReads(v, tail);
      case Str(_) => ScalarReads(v, tail);
      case Arr(_) => ArrayReads(v, tail);
      case Obj(_) => ObjectReads(v, tail);
    }
  }

  /** Round trip: parsing a value's canonical text gives the value back. */
  lemma {:induction false} ParseOfCanonical(v: Json)
    requires Ordered(v)
    ensures Parse(Canonical(v)) == Some(v)
  {
    ValueReads(v, []);
    assert Canonical(v) + [] == Canonical(v);
    CanonicalStarts(v);
    NoSpace(Canonical(v));
    assert Ask(true);
  }
}
