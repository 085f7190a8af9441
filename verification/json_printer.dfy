/** The printer, appending canonical text piece by piece. */
module JsonPrinter {
  import opened StrictJson

  lemma {:induction false} Assoc(a: Bytes, b: Bytes, c: Bytes)
    ensures (a + b) + c == a + (b + c)
  {
  }

  lemma {:induction false} Closed(start: Bytes, first: Bytes, body: Bytes, last: Bytes, output: Bytes)
    requires output == start + first + body
    ensures output + last == start + (first + body + last)
  {
  }

  /** What is still to print before item `k`, its comma included. */
  function ItemsFrom(v: Json, k: nat): Bytes
    requires v.Arr? && k <= |v.items|
  {
    if 0 < k < |v.items| then [COMMA] + CanonicalItems(v, k) else CanonicalItems(v, k)
  }

  function MembersFrom(v: Json, k: nat): Bytes
    requires v.Obj? && k <= |v.members|
  {
    if 0 < k < |v.members| then [COMMA] + CanonicalMembers(v, k) else CanonicalMembers(v, k)
  }

  function Separator(k: nat): Bytes { if k == 0 then [] else [COMMA] }

  lemma {:induction false} ItemsFromSplits(v: Json, k: nat)
    requires v.Arr? && k < |v.items|
    ensures ItemsFrom(v, k) == Separator(k) + (Canonical(v.items[k]) + ItemsFrom(v, k + 1))
  {
    assert [] + CanonicalItems(v, k) == CanonicalItems(v, k);
  }

  lemma {:induction false} MembersFromSplits(v: Json, k: nat)
    requires v.Obj? && k < |v.members|
    ensures MembersFrom(v, k)
            == Separator(k) + (CanonicalString(v.members[k].key) + ([COLON] + (Canonical(v.members[k].value) + MembersFrom(v, k + 1))))
  {
    var key, value, rest := CanonicalString(v.members[k].key), Canonical(v.members[k].value), MembersFrom(v, k + 1);
    assert CanonicalMembers(v, k) == key + [COLON] + value + rest;
    Assoc(key + [COLON], value, rest);
    Assoc(key, [COLON], value + rest);
    assert [] + CanonicalMembers(v, k) == CanonicalMembers(v, k);
  }

  class Printer {
    var output: Bytes

    constructor ()
      ensures output == []
    {
      output := [];
    }

    method Push(piece: Bytes, ghost rest: Bytes)
      modifies this
      ensures output == old(output) + piece
      ensures old(output) + (piece + rest) == output + rest
    {
      Assoc(output, piece, rest);
      output := output + piece;
    }

    method AppendString(text: Bytes)
      modifies this
      ensures output == old(output) + CanonicalString(text)
    {
      output := output + [QUOTE];
      ghost var all := output + CanonicalBytes(text);
      assert text[0..] == text;
      for i := 0 to |text|
        invariant output + CanonicalBytes(text[i..]) == all
      {
        assert text[i..][1..] == text[i + 1..];
        Push(CanonicalByte(text[i]), CanonicalBytes(text[i + 1..]));
      }
      assert output + [] == output;
      Closed(old(output), [QUOTE], CanonicalBytes(text), [QUOTE], output);
      output := output + [QUOTE];
    }

    method Append(v: Json)
      modifies this
      ensures output == old(output) + Canonical(v)
      decreases v, 1
    {
      match v {
        case Int(value) => output := output + CanonicalInt(value);
        case Str(text) => AppendString(text);
        case Arr(_) => AppendArray(v);
        case Obj(_) => AppendObject(v);
      }
    }

    method AppendArray(v: Json)
      requires v.Arr?
      modifies this
      ensures output == old(output) + Canonical(v)
      decreases v, 0
    {
      output := output + [OPEN_ARRAY];
      ghost var all := output + CanonicalItems(v, 0);
      var first := true;
      for k := 0 to |v.items|
        invariant (first <==> k == 0) && output + ItemsFrom(v, k) == all
      {
        ItemsFromSplits(v, k);
        Push(if first then [] else [COMMA], Canonical(v.items[k]) + ItemsFrom(v, k + 1));
        first := false;
        Assoc(output, Canonical(v.items[k]), ItemsFrom(v, k + 1));
        Append(v.items[k]);
      }
      assert output + [] == output;
      Closed(old(output), [OPEN_ARRAY], CanonicalItems(v, 0), [CLOSE_ARRAY], output);
      output := output + [CLOSE_ARRAY];
    }

    method AppendObject(v: Json)
      requires v.Obj?
      modifies this
      ensures output == old(output) + Canonical(v)
      decreases v, 0
    {
      output := output + [OPEN_OBJECT];
      ghost var all := output + CanonicalMembers(v, 0);
      var first := true;
      for k := 0 to |v.members|
        invariant (first <==> k == 0) && output + MembersFrom(v, k) == all
      {
        ghost var key, value, rest := CanonicalString(v.members[k].key), Canonical(v.members[k].value), MembersFrom(v, k + 1);
        MembersFromSplits(v, k);
        Push(if first then [] else [COMMA], key + ([COLON] + (value + rest)));
        first := false;
        Assoc(output, key, [COLON] + (value + rest));
        AppendString(v.members[k].key);
        Push([COLON], value + rest);
        Assoc(output, value, rest);
        Append(v.members[k].value);
      }
      assert output + [] == output;
      Closed(old(output), [OPEN_OBJECT], CanonicalMembers(v, 0), [CLOSE_OBJECT], output);
      output := output + [CLOSE_OBJECT];
    }
  }

  method Canonicalize(v: Json) returns (text: Bytes)
    ensures text == Canonical(v)
  {
    var printer := new Printer();
    printer.Append(v);
    text := printer.output;
    assert [] + Canonical(v) == Canonical(v);
  }
}
