/** The parser, advancing a position through its input. */
module JsonParser {
  import opened Domain
  import opened StrictJson

  /** The reader and the loop agree: both fail, or both read the same and stop at the same place. */
  ghost predicate Agrees<T>(spec: Option<(T, Bytes)>, r: Option<T>, left: Bytes) {
    if spec.Some? then r == Some(spec.value.0) && left == spec.value.1 else r.None?
  }

  class Parser {
    const input: Bytes
    var position: nat

    constructor (input: Bytes)
      ensures this.input == input && position == 0
    {
      this.input, position := input, 0;
    }

    ghost predicate Valid()
      reads this
    {
      position <= |input|
    }

    /** The input from the position on. */
    ghost function Left(): Bytes
      requires Valid()
      reads this
    {
      input[position..]
    }

    method Skip()
      requires Valid()
      modifies this
      ensures Valid() && old(position) <= position && Left() == SkipSpace(old(Left()))
    {
      while position < |input| && IsSpace(input[position])
        invariant Valid() && old(position) <= position && SkipSpace(Left()) == SkipSpace(old(Left()))
      {
        assert Left()[1..] == input[position + 1..];
        position := position + 1;
      }
    }

    method ParseHexQuad() returns (r: Option<nat>)
      requires Valid()
      modifies this
      ensures Valid() && old(position) <= position
      ensures r == HexQuad(old(Left())) && (r.Some? ==> position == old(position) + 4)
    {
      if |input| - position < 4 {
        return None;
      }
      ghost var s := Left();
      var value := 0;
      for i := 0 to 4
        invariant Valid() && position == old(position) + i && |s| >= 4 && s == old(Left())
        invariant forall k | 0 <= k < i :: HexDigit(s[k]).Some?
        invariant i == 0 ==> value == 0
        invariant i == 1 ==> value == HexDigit(s[0]).value
        invariant i == 2 ==> value == HexDigit(s[0]).value * 16 + HexDigit(s[1]).value
        invariant i == 3 ==> value == (HexDigit(s[0]).value * 16 + HexDigit(s[1]).value) * 16 + HexDigit(s[2]).value
        invariant i == 4 ==> HexQuad(s) == Some(value)
      {
        assert s[i] == input[position];
        var digit := HexDigit(input[position]);
        position := position + 1;
        if digit.None? {
          return None;
        }
        value := value * 16 + digit.value;
      }
      r := Some(value);
    }

    /** From after `\\u`. */
    method ParseUnicode() returns (r: Option<Bytes>)
      requires Valid()
      modifies this
      ensures Valid() && old(position) <= position && Agrees(UnicodeEscape(old(Left())), r, Left())
    {
      ghost var s := Left();
      var high := ParseHexQuad();
      if high.None? {
        return None;
      }
      assert Left() == s[4..];
      if 0xd800 <= high.value <= 0xdbff {
        if |input| - position < 6 || input[position] != BACKSLASH || input[position + 1] != LOWER_U {
          return None;
        }
        position := position + 2;
        assert Left() == s[6..];
        var low := ParseHexQuad();
        if low.None? || low.value < 0xdc00 || low.value > 0xdfff {
          return None;
        }
        assert Left() == s[10..];
        return Some(Utf8(0x10000 + (high.value - 0xd800) * 0x400 + (low.value - 0xdc00)));
      } else if 0xdc00 <= high.value <= 0xdfff {
        return None;
      }
      r := Some(Utf8(high.value));
    }

    method ParseEscape() returns (r: Option<Bytes>)
      requires Valid()
      modifies this
      ensures Valid() && old(position) <= position && Agrees(ReadEscape(old(Left())), r, Left())
    {
      ghost var s := Left();
      if position == |input| {
        return None;
      }
      var c := input[position];
      position := position + 1;
      assert s[0] == c && Left() == s[1..];
      if SimpleEscape(c).Some? {
        return Some([SimpleEscape(c).value]);
      }
      if c != LOWER_U {
        return None;
      }
      r := ParseUnicode();
    }

    /** From the opening quote. */
    method ParseString() returns (r: Option<Bytes>)
      requires Valid() && position < |input|
      modifies this
      ensures Valid() && old(position) < position && Agrees(ReadString(old(Left())[1..], []), r, Left())
    {
      ghost var s := Left()[1..];
      position := position + 1;
      assert Left() == s;
      var value := [];
      while position < |input|
        invariant Valid() && old(position) < position && ReadString(Left(), value) == ReadString(s, [])
        decreases |input| - position
      {
        ghost var left := Left();
        var c := input[position];
        position := position + 1;
        assert left[0] == c && Left() == left[1..];
        if c == QUOTE {
          return Some(value);
        }
        if c < 32 {
          return None;
        }
        if c != BACKSLASH {
          value := value + [c];
        } else {
          var escape := ParseEscape();
          if escape.None? {
            return None;
          }
          value := value + escape.value;
        }
      }
      r := None;
    }

    /** Moves past the digits and gives them. */
    method TakeDigits() returns (digits: Bytes)
      requires Valid()
      modifies this
      ensures Valid() && old(position) <= position
      ensures var n := DigitCount(old(Left())); digits == old(Left())[..n] && Left() == old(Left())[n..]
    {
      ghost var s := Left();
      var start := position;
      while position < |input| && IsDigit(input[position])
        invariant Valid() && start <= position
        invariant DigitCount(s) == position - start + DigitCount(Left())
      {
        assert Left()[1..] == input[position + 1..];
        position := position + 1;
      }
      digits := input[start..position];
    }

    method ParseInteger() returns (r: Option<int64>)
      requires Valid() && position < |input|
      modifies this
      ensures Valid() && old(position) <= position && Agrees(ReadInteger(old(Left())), r, Left())
    {
      ghost var s := Left();
      var negative := input[position] == MINUS;
      if negative {
        position := position + 1;
      }
      ghost var body := Left();
      assert body == if negative then s[1..] else s;
      var digits := TakeDigits();
      if digits == [] {
        return None;
      }
      if digits[0] == ZERO && |digits| > 1 {
        return None;
      }
      if position < |input| && (input[position] == DOT || input[position] == LOWER_E || input[position] == UPPER_E) {
        return None;
      }
      var value: int := if negative then 0 - Number(digits) else Number(digits);
      r := if INT64_MIN <= value <= INT64_MAX then Some(value) else None;
    }

    /** The next byte that is not space. */
    method TakeDelimiter() returns (r: Option<uint8>)
      requires Valid()
      modifies this
      ensures Valid() && old(position) <= position
      ensures var t := SkipSpace(old(Left()));
        if t == [] then r.None? else r == Some(t[0]) && Left() == t[1..] && old(position) < position
    {
      Skip();
      if position == |input| {
        return None;
      }
      ghost var t := Left();
      r := Some(input[position]);
      position := position + 1;
      assert Left() == t[1..];
    }

    /** The items of an array, from the first one on. */
    method ParseItems() returns (r: Option<Json>)
      requires Valid()
      modifies this
      ensures Valid() && old(position) <= position && Agrees(ReadItems(old(Left()), []), r, Left())
      decreases |input| - position, 3
    {
      ghost var s := Left();
      var items := [];
      while true
        invariant Valid() && old(position) <= position && ReadItems(Left(), items) == ReadItems(s, [])
        decreases |input| - position
      {
        ghost var left, read := Left(), items;
        var item := ParseValue();
        if item.None? {
          return None;
        }
        items := items + [item.value];
        var delimiter := TakeDelimiter();
        ItemsStep(left, read);
        if delimiter.None? {
          return None;
        }
        if delimiter.value == CLOSE_ARRAY {
          return Some(Arr(items));
        }
        if delimiter.value != COMMA {
          return None;
        }
        Skip();
      }
    }

    method ParseArray() returns (r: Option<Json>)
      requires Valid() && position < |input| && input[position] == OPEN_ARRAY
      modifies this
      ensures Valid() && old(position) <= position && Agrees(ReadValue(old(Left())), r, Left())
      decreases |input| - position, 1
    {
      ghost var s := Left();
      position := position + 1;
      assert Left() == s[1..];
      Skip();
      if position < |input| && input[position] == CLOSE_ARRAY {
        ghost var t := Left();
        position := position + 1;
        assert Left() == t[1..];
        return Some(Arr([]));
      }
      r := ParseItems();
    }

    /** A key, a colon and a value. */
    method ParseMember() returns (r: Option<Member>)
      requires Valid()
      modifies this
      ensures Valid() && old(position) <= position && Agrees(ReadMember(old(Left())), r, Left())
      ensures r.Some? ==> old(position) < position
      decreases |input| - position, 3
    {
      ghost var s := Left();
      MemberStep(s);
      if position == |input| || input[position] != QUOTE {
        return None;
      }
      assert s[0] == QUOTE;
      var key := ParseString();
      if key.None? {
        return None;
      }
      var colon := TakeDelimiter();
      if colon != Some(COLON) {
        return None;
      }
      Skip();
      var value := ParseValue();
      r := if value.None? then None else Some(Member(key.value, value.value));
    }

    method ParseMembers() returns (r: Option<Json>)
      requires Valid()
      modifies this
      ensures Valid() && old(position) <= position && Agrees(ReadMembers(old(Left()), []), r, Left())
      decreases |input| - position, 4
    {
      ghost var s := Left();
      var members := [];
      while true
        invariant Valid() && old(position) <= position && ReadMembers(Left(), members) == ReadMembers(s, [])
        decreases |input| - position
      {
        ghost var left, read := Left(), members;
        var member := ParseMember();
        MembersStep(left, read);
        if member.None? || HasKey(members, member.value.key) {
          return None;
        }
        members := WithMember(members, member.value);
        var delimiter := TakeDelimiter();
        if delimiter.None? {
          return None;
        }
        if delimiter.value == CLOSE_OBJECT {
          return Some(Obj(members));
        }
        if delimiter.value != COMMA {
          return None;
        }
        Skip();
      }
    }

    method ParseObject() returns (r: Option<Json>)
      requires Valid() && position < |input| && input[position] == OPEN_OBJECT
      modifies this
      ensures Valid() && old(position) <= position && Agrees(ReadValue(old(Left())), r, Left())
      decreases |input| - position, 1
    {
      ghost var s := Left();
      position := position + 1;
      assert Left() == s[1..];
      Skip();
      if position < |input| && input[position] == CLOSE_OBJECT {
        ghost var t := Left();
        position := position + 1;
        assert Left() == t[1..];
        return Some(Obj([]));
      }
      r := ParseMembers();
    }

    method ParseValue() returns (r: Option<Json>)
      requires Valid()
      modifies this
      ensures Valid() && old(position) <= position && Agrees(ReadValue(old(Left())), r, Left())
      ensures r.Some? ==> old(position) < position
      decreases |input| - position, 2
    {
      ghost var s := Left();
      if position == |input| {
        return None;
      }
      assert s[0] == input[position];
      if input[position] == OPEN_OBJECT {
        r := ParseObject();
      } else if input[position] == OPEN_ARRAY {
        r := ParseArray();
      } else if input[position] == QUOTE {
        var text := ParseString();
        r := if text.None? then None else Some(Str(text.value));
      } else {
        var number := ParseInteger();
        r := if number.None? then None else Some(Int(number.value));
      }
    }
  }

  /** One turn of the loop over an array's items. */
  lemma {:induction false} ItemsStep(s: Bytes, read: seq<Json>)
    ensures ReadItems(s, read)
            == var item := ReadValue(s);
               if item.None? then None
               else
                 var t, items := SkipSpace(item.value.1), read + [item.value.0];
                 if t == [] then None
                 else if t[0] == CLOSE_ARRAY then Some((Arr(items), t[1..]))
                 else if t[0] != COMMA then None
                 else ReadItems(SkipSpace(t[1..]), items)
  {
  }

  lemma {:induction false} MemberStep(s: Bytes)
    ensures ReadMember(s)
            == if s == [] || s[0] != QUOTE then None
               else
                 var key := ReadString(s[1..], []);
                 if key.None? then None
                 else
                   var t := SkipSpace(key.value.1);
                   if t == [] || t[0] != COLON then None
                   else
                     var value := ReadValue(SkipSpace(t[1..]));
                     if value.None? then None else Some((Member(key.value.0, value.value.0), value.value.1))
  {
  }

  lemma {:induction false} MembersStep(s: Bytes, read: seq<Member>)
    ensures ReadMembers(s, read)
            == var member := ReadMember(s);
               if member.None? || HasKey(read, member.value.0.key) then None
               else
                 var t, members := SkipSpace(member.value.1), WithMember(read, member.value.0);
                 if t == [] then None
                 else if t[0] == CLOSE_OBJECT then Some((Obj(members), t[1..]))
                 else if t[0] != COMMA then None
                 else ReadMembers(SkipSpace(t[1..]), members)
  {
  }

  method ParseText(input: Bytes) returns (r: Option<Json>)
    ensures r == Parse(input)
  {
    var parser := new Parser(input);
    assert parser.Left() == input;
    parser.Skip();
    var value := parser.ParseValue();
    if value.None? {
      return None;
    }
    parser.Skip();
    if parser.position != |parser.input| {
      return None;
    }
    r := value;
  }
}
