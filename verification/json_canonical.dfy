/** What parsing gives is an ordered value, so canonicalizing is idempotent. */
module JsonCanonical {
  import opened Domain
  import opened Folding
  import opened StrictJson
  import opened JsonTheorems

  // ----- byte order is a strict total order -----

  lemma {:induction false} KeyLessTotal(a: Bytes, b: Bytes)
    requires a != b
    ensures KeyLess(a, b) || KeyLess(b, a)
  {
    if a != [] && b != [] && a[0] == b[0] {
      assert a == [a[0]] + a[1..] && b == [b[0]] + b[1..];
      KeyLessTotal(a[1..], b[1..]);
    }
  }

  lemma {:induction false} KeyLessTransitive(a: Bytes, b: Bytes, c: Bytes)
    requires KeyLess(a, b) && KeyLess(b, c)
    ensures KeyLess(a, c)
  {
    if a != [] && a[0] == b[0] == c[0] {
      KeyLessTransitive(a[1..], b[1..], c[1..]);
    }
  }

  // ----- inserting keeps the order -----

  ghost predicate AllBelow(members: seq<Member>, key: Bytes) {
    forall i | 0 <= i < |members| :: KeyLess(members[i].key, key)
  }

  lemma {:induction false} InsertedBelow(members: seq<Member>, m: Member, key: Bytes)
    requires AllBelow(members, key) && KeyLess(m.key, key)
    ensures AllBelow(WithMember(members, m), key)
  {
    if members != [] && !KeyLess(members[|members| - 1].key, m.key) {
      InsertedBelow(members[..|members| - 1], m, key);
    }
  }

  lemma {:induction false} InsertKeepsOrder(members: seq<Member>, m: Member)
    requires Ascending(members) && !HasKey(members, m.key)
    ensures Ascending(WithMember(members, m))
    ensures forall x | x in WithMember(members, m) :: x == m || x in members
  {
    if members != [] {
      var front, last := members[..|members| - 1], members[|members| - 1];
      if KeyLess(last.key, m.key) {
        forall i | 0 <= i < |members| ensures KeyLess(members[i].key, m.key) {
          if i < |members| - 1 { KeyLessTransitive(members[i].key, last.key, m.key); }
        }
      } else {
        KeyLessTotal(last.key, m.key);
        assert forall i | 0 <= i < |front| :: front[i] == members[i];
        InsertKeepsOrder(front, m);
        InsertedBelow(front, m, last.key);
      }
    }
  }

  // ----- parsed values are ordered -----

  ghost predicate AllOrdered(items: seq<Json>) {
    forall i | 0 <= i < |items| :: Ordered(items[i])
  }

  /** The order of what has been read so far, folded while reading goes on. */
  ghost predicate OrderedSoFar(v: Json) {
    forall now {:trigger Ask(now)} :: Ask(now) ==> Ordered(v)
  }

  lemma {:induction false} ReadIsOrdered(s: Bytes)
    ensures ReadValue(s).Some? ==> Ordered(ReadValue(s).value.0)
    decreases |s|, 0
  {
    if s != [] && s[0] == OPEN_OBJECT {
      MembersAreOrdered(SkipSpace(s[1..]), []);
      assert Ask(true);
    } else if s != [] && s[0] == OPEN_ARRAY {
      ItemsAreOrdered(SkipSpace(s[1..]), []);
    }
  }

  lemma {:induction false} ItemsAreOrdered(s: Bytes, read: seq<Json>)
    requires AllOrdered(read)
    ensures ReadItems(s, read).Some? ==> Ordered(ReadItems(s, read).value.0)
    decreases |s|, 1
  {
    ReadIsOrdered(s);
    var item := ReadValue(s);
    if item.Some? {
      var t, items := SkipSpace(item.value.1), read + [item.value.0];
      if t != [] && t[0] == COMMA {
        ItemsAreOrdered(SkipSpace(t[1..]), items);
      }
    }
  }

  lemma {:induction false} MemberIsOrdered(s: Bytes)
    ensures ReadMember(s).Some? ==> OrderedSoFar(ReadMember(s).value.0.value)
    decreases |s|, 1
  {
    if s != [] && s[0] == QUOTE {
      var key := ReadString(s[1..], []);
      if key.Some? {
        var t := SkipSpace(key.value.1);
        if t != [] && t[0] == COLON {
          ReadIsOrdered(SkipSpace(t[1..]));
        }
      }
    }
  }

  /** Reading members from here gives an ordered value, if it gives one. */
  ghost predicate MembersOrdered(s: Bytes, read: seq<Member>) {
    forall now {:trigger Ask(now)} :: Ask(now) && ReadMembers(s, read).Some? ==> Ordered(ReadMembers(s, read).value.0)
  }

  lemma {:induction false} OneMember(s: Bytes, read: seq<Member>, m: Member, rest: Bytes, t: Bytes, members: seq<Member>)
    requires ReadMember(s) == Some((m, rest)) && t == SkipSpace(rest) && Joins(read, m, members)
    requires OrderedSoFar(Obj(members))
    requires t != [] && t[0] == COMMA ==> MembersOrdered(SkipSpace(t[1..]), members)
    ensures MembersOrdered(s, read)
  {
    assert Ask(true);
  }

  lemma {:induction false} MembersAreOrdered(s: Bytes, read: seq<Member>)
    requires OrderedSoFar(Obj(read))
    ensures MembersOrdered(s, read)
    decreases |s|, 2
  {
    MemberIsOrdered(s);
    var member := ReadMember(s);
    if member.Some? && !HasKey(read, member.value.0.key) {
      var m, rest := member.value.0, member.value.1;
      var t, members := SkipSpace(rest), WithMember(read, m);
      MemberJoins(read, m, members);
      if t != [] && t[0] == COMMA {
        MembersAreOrdered(SkipSpace(t[1..]), members);
      }
      OneMember(s, read, m, rest, t, members);
    }
  }

  lemma {:induction false} MemberJoins(read: seq<Member>, m: Member, members: seq<Member>)
    requires OrderedSoFar(Obj(read)) && OrderedSoFar(m.value) && !HasKey(read, m.key) && members == WithMember(read, m)
    ensures OrderedSoFar(Obj(members))
  {
    assert Ask(true);
    InsertKeepsOrder(read, m);
    forall i | 0 <= i < |members| ensures Ordered(members[i].value) {
      assert members[i] in members;
    }
  }

  /** Canonicalizing any text that parses is idempotent: its canonical text
      parses to the same value, and so has itself as canonical text. */
  lemma {:induction false} CanonicalizeIsIdempotent(s: Bytes)
    requires Parse(s).Some?
    ensures Ordered(Parse(s).value)
    ensures Parse(Canonical(Parse(s).value)) == Parse(s)
  {
    ReadIsOrdered(SkipSpace(s));
    ParseOfCanonical(Parse(s).value);
  }

  /** Different values have different canonical texts. */
  lemma {:induction false} CanonicalIsInjective(v: Json, w: Json)
    requires Ordered(v) && Ordered(w) && Canonical(v) == Canonical(w)
    ensures v == w
  {
    ParseOfCanonical(v);
    ParseOfCanonical(w);
  }
}
