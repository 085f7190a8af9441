/** Local time and back: piecewise offsets, and the moments a local second names. */
module TimeZones {
  import opened Domain
  import opened Sorting

  /** When daylight time applies is the footer's own rule; only its offset matters here. */
  datatype Daylight = Daylight(offset: int32, applies: int -> bool)

  datatype Footer = Footer(standard: int32, daylight: Option<Daylight>)

  datatype Zone = Zone(transitions: seq<int64>, types: seq<nat>, offsets: seq<int32>, footer: Footer) {
    /** What reading a zone file guarantees. */
    predicate Valid() {
      && offsets != [] && |types| == |transitions|
      && (forall i | 0 <= i < |types| :: types[i] < |offsets|)
      && (forall i, j | 0 <= i < j < |transitions| :: transitions[i] < transitions[j])
    }

    /** The offset in force after the first `k` transitions. */
    function Offset(k: nat): int32
      requires Valid() && k <= |transitions|
    {
      if k == 0 then offsets[0] else offsets[types[k - 1]]
    }

    /** The offset at a moment if only the first `k` transitions had happened. */
    function OffsetAmong(k: nat, utc: int): int32
      requires Valid() && k <= |transitions|
    {
      if k == 0 || transitions[k - 1] <= utc then Offset(k) else OffsetAmong(k - 1, utc)
    }

    function FooterOffset(utc: int): int32 {
      if footer.daylight.Some? && footer.daylight.value.applies(utc) then footer.daylight.value.offset else footer.standard
    }

    /** The footer speaks after the last transition. */
    predicate AfterLast(utc: int) { transitions != [] && transitions[|transitions| - 1] < utc }

    function OffsetAt(utc: int): int32
      requires Valid()
    {
      if AfterLast(utc) then FooterOffset(utc) else OffsetAmong(|transitions|, utc)
    }

    predicate Means(utc: int, local: int)
      requires Valid()
    {
      utc + OffsetAt(utc) == local
    }
  }

  // ----- offsets -----

  /** `std::upper_bound`: how many transitions are no later than the moment. */
  method UpperBound(ts: seq<int64>, utc: int) returns (n: nat)
    requires forall i, j | 0 <= i < j < |ts| :: ts[i] < ts[j]
    ensures n <= |ts| && (forall i | 0 <= i < n :: ts[i] <= utc) && (forall i | n <= i < |ts| :: utc < ts[i])
  {
    var hi := |ts|;
    n := 0;
    while n < hi
      invariant n <= hi <= |ts| && (forall i | 0 <= i < n :: ts[i] <= utc) && (forall i | hi <= i < |ts| :: utc < ts[i])
    {
      var mid := n + (hi - n) / 2;
      if ts[mid] <= utc { n := mid + 1; } else { hi := mid; }
    }
  }

  lemma {:induction false} AmongIsPassed(z: Zone, k: nat, utc: int, n: nat)
    requires z.Valid() && n <= k <= |z.transitions|
    requires (n == 0 || z.transitions[n - 1] <= utc) && forall i | n <= i < k :: utc < z.transitions[i]
    ensures z.OffsetAmong(k, utc) == z.Offset(n)
  {
    if n < k {
      AmongIsPassed(z, k - 1, utc, n);
    }
  }

  method OffsetAtUtc(z: Zone, utc: int) returns (offset: int32)
    requires z.Valid()
    ensures offset == z.OffsetAt(utc)
  {
    if z.transitions == [] || utc <= z.transitions[|z.transitions| - 1] {
      var n := UpperBound(z.transitions, utc);
      AmongIsPassed(z, |z.transitions|, utc, n);
      return if n == 0 then z.offsets[0] else z.offsets[z.types[n - 1]];
    }
    offset := z.FooterOffset(utc);
  }

  // ----- sorting and removing repeats -----

  function Ascending(): (int, int) -> bool { (a: int, b: int) => a < b }

  predicate StrictlyAscends(s: seq<int>) {
    forall i, j | 0 <= i < j < |s| :: s[i] < s[j]
  }

  /** `std::unique`. */
  method RemoveRepeats(s: seq<int>) returns (r: seq<int>)
    requires Sorted(Ascending(), s)
    ensures StrictlyAscends(r) && forall x :: x in r <==> x in s
  {
    r := [];
    for k := 0 to |s|
      invariant StrictlyAscends(r) && (forall x :: x in r <==> x in s[..k])
      invariant r != [] ==> k > 0 && r[|r| - 1] == s[k - 1]
      invariant r == [] ==> k == 0
    {
      ghost var before := s[..k];
      assert s[..k + 1] == before + [s[k]];
      if r == [] || r[|r| - 1] != s[k] {
        assert k > 0 ==> !Ascending()(s[k], s[k - 1]);
        r := r + [s[k]];
      }
    }
    assert s[..|s|] == s;
  }

  method SortUnique(s: seq<int>) returns (r: seq<int>)
    ensures StrictlyAscends(r) && forall x :: x in r <==> x in s
  {
    var sorted := Sort(Ascending(), s);
    SortSorts(Ascending(), s);
    SameElements(s, sorted);
    r := RemoveRepeats(sorted);
  }

  method AvailableOffsets(z: Zone) returns (r: seq<int>)
    requires z.Valid()
    ensures StrictlyAscends(r) && forall utc :: z.OffsetAt(utc) in r
  {
    var all: seq<int> := z.offsets + [z.footer.standard];
    if z.footer.daylight.Some? {
      all := all + [z.footer.daylight.value.offset];
    }
    forall utc ensures z.OffsetAt(utc) in all {
      AmongIsListed(z, |z.transitions|, utc);
    }
    r := SortUnique(all);
  }

  lemma {:induction false} AmongIsListed(z: Zone, k: nat, utc: int)
    requires z.Valid() && k <= |z.transitions|
    ensures z.OffsetAmong(k, utc) in z.offsets
  {
    if k > 0 && utc < z.transitions[k - 1] {
      AmongIsListed(z, k - 1, utc);
    }
  }

  // ----- the moments a local second names -----

  /** `utc_candidates`: every moment the local second names, and no other; with
      a required offset, those at that offset. */
  method UtcCandidates(z: Zone, local: int, required: Option<int32>) returns (r: seq<int>)
    requires z.Valid()
    ensures StrictlyAscends(r)
    ensures forall utc :: utc in r <==> z.Means(utc, local) && (required.Some? ==> z.OffsetAt(utc) == required.value)
  {
    var offsets := AvailableOffsets(z);
    var found: seq<int> := [];
    for k := 0 to |offsets|
      invariant forall utc :: utc in found <==>
        z.Means(utc, local) && (required.Some? ==> z.OffsetAt(utc) == required.value) && z.OffsetAt(utc) in offsets[..k]
    {
      ghost var before := offsets[..k];
      assert offsets[..k + 1] == before + [offsets[k]];
      if required.None? || offsets[k] == required.value {
        var utc := local - offsets[k];
        var offset := OffsetAtUtc(z, utc);
        if offset == offsets[k] {
          found := found + [utc];
        }
      }
    }
    assert offsets[..|offsets|] == offsets;
    r := SortUnique(found);
  }

  // ----- gaps and folds -----

  /** A half-open interval of local seconds skipped, or passed twice. */
  datatype Discontinuity = Gap(first: int, last: int) | Fold(first: int, last: int) {
    predicate Holds(local: int) { first <= local < last }
  }

  function DiscontinuityAt(z: Zone, k: nat): seq<Discontinuity>
    requires z.Valid() && k < |z.transitions|
  {
    Between(z.transitions[k] + z.Offset(k), z.transitions[k] + z.Offset(k + 1))
  }

  /** What a clock that jumps from one local second to another leaves out or repeats. */
  function Between(before: int, after: int): seq<Discontinuity> {
    if after > before then [Gap(before, after)] else if after < before then [Fold(after, before)] else []
  }

  function Discontinuities(z: Zone, k: nat): seq<Discontinuity>
    requires z.Valid() && k <= |z.transitions|
  {
    if k == 0 then [] else Discontinuities(z, k - 1) + DiscontinuityAt(z, k - 1)
  }

  method BuildDiscontinuities(z: Zone) returns (r: seq<Discontinuity>)
    requires z.Valid()
    ensures r == Discontinuities(z, |z.transitions|)
  {
    r := [];
    var activeType := 0;
    for k := 0 to |z.transitions|
      invariant r == Discontinuities(z, k)
      invariant activeType == if k == 0 then 0 else z.types[k - 1]
    {
      var nextType := z.types[k];
      var before := z.transitions[k] + z.offsets[activeType];
      var after := z.transitions[k] + z.offsets[nextType];
      r := AddBetween(r, before, after);
      activeType := nextType;
    }
  }

  method AddBetween(ds: seq<Discontinuity>, before: int, after: int) returns (r: seq<Discontinuity>)
    ensures r == ds + Between(before, after)
  {
    r := ds;
    if after > before {
      r := r + [Gap(before, after)];
    } else if after < before {
      r := r + [Fold(after, before)];
    }
  }

  /** Folds that hold the local second, less the gaps that do. */
  function Surplus(ds: seq<Discontinuity>, local: int): int {
    if ds == [] then 0
    else
      var d := ds[|ds| - 1];
      Surplus(ds[..|ds| - 1], local) + if !d.Holds(local) then 0 else if d.Fold? then 1 else -1
  }

  // ----- how many moments -----

  function Before(s: set<int>, t: int): set<int> { set m | m in s && m < t }

  function From(s: set<int>, t: int): set<int> { set m | m in s && t <= m }

  /** The moments named when only the first `k` transitions have happened: those
      before the latest one stay, and the latest offset names at most one more. */
  function Moments(z: Zone, k: nat, local: int): set<int>
    requires z.Valid() && k <= |z.transitions|
  {
    if k == 0 then {local - z.offsets[0]}
    else
      var t, u := z.transitions[k - 1], local - z.Offset(k);
      Before(Moments(z, k - 1, local), t) + if t <= u then {u} else {}
  }

  lemma {:induction false} MomentsAreNamed(z: Zone, k: nat, local: int, utc: int)
    requires z.Valid() && k <= |z.transitions|
    ensures utc in Moments(z, k, local) <==> utc + z.OffsetAmong(k, utc) == local
  {
    if k > 0 {
      MomentsAreNamed(z, k - 1, local, utc);
    }
  }

  /** Exactly the moments named when only the first `k` transitions have happened. */
  ghost predicate AreNamed(z: Zone, k: nat, local: int, s: set<int>)
    requires z.Valid() && k <= |z.transitions|
  {
    forall utc :: utc in s <==> utc + z.OffsetAmong(k, utc) == local
  }

  lemma {:induction false} NamedMoments(z: Zone, k: nat, local: int) returns (s: set<int>)
    requires z.Valid() && k <= |z.transitions|
    ensures AreNamed(z, k, local, s)
  {
    s := Moments(z, k, local);
    forall utc ensures utc in s <==> utc + z.OffsetAmong(k, utc) == local {
      MomentsAreNamed(z, k, local, utc);
    }
  }

  /** Past the latest transition there is at most the one moment its offset names. */
  lemma {:induction false} LateMoments(z: Zone, k: nat, local: int, s: set<int>, t: int)
    requires z.Valid() && k <= |z.transitions| && (k > 0 ==> z.transitions[k - 1] <= t) && AreNamed(z, k, local, s)
    ensures var u := local - z.Offset(k);
      From(s, t) == if t <= u then {u} else {}
  {
    var u := local - z.Offset(k);
    forall m | t <= m ensures m in s <==> m == u {
      assert z.OffsetAmong(k, m) == z.Offset(k);
    }
  }

  /** Before it nothing changes. */
  lemma {:induction false} EarlyMoments(z: Zone, k: nat, local: int, s: set<int>, next: set<int>)
    requires z.Valid() && k < |z.transitions| && AreNamed(z, k, local, s) && AreNamed(z, k + 1, local, next)
    ensures Before(s, z.transitions[k]) == Before(next, z.transitions[k])
  {
    forall m | m < z.transitions[k] ensures m in s <==> m in next {
      assert z.OffsetAmong(k + 1, m) == z.OffsetAmong(k, m);
    }
  }

  lemma {:induction false} SplitSize(s: set<int>, t: int)
    ensures |s| == |Before(s, t)| + |From(s, t)|
  {
    assert s == Before(s, t) + From(s, t);
    assert Before(s, t) !! From(s, t);
  }

  /** A transition adds a moment exactly in its fold and removes one in its gap. */
  lemma {:induction false} OneTransition(z: Zone, k: nat, local: int, s: set<int>, next: set<int>)
    requires z.Valid() && k < |z.transitions| && AreNamed(z, k, local, s) && AreNamed(z, k + 1, local, next)
    ensures |next| == |s| + Surplus(DiscontinuityAt(z, k), local)
  {
    var t := z.transitions[k];
    SplitSize(s, t);
    SplitSize(next, t);
    EarlyMoments(z, k, local, s, next);
    LateMoments(z, k, local, s, t);
    LateMoments(z, k + 1, local, next, t);
    var d := DiscontinuityAt(z, k);
    assert |d| == 1 ==> d[..0] == [];
  }

  lemma {:induction false} SurplusAdds(a: seq<Discontinuity>, b: seq<Discontinuity>, local: int)
    requires |b| <= 1
    ensures Surplus(a + b, local) == Surplus(a, local) + Surplus(b, local)
  {
    if |b| == 1 {
      assert (a + b)[..|a|] == a && b[..0] == [];
    } else {
      assert a + b == a;
    }
  }

  lemma {:induction false} FirstMoment(z: Zone, local: int, s: set<int>)
    requires z.Valid() && AreNamed(z, 0, local, s)
    ensures |s| == 1
  {
    var u := local - z.offsets[0];
    forall m ensures m in s <==> m == u {
      assert z.OffsetAmong(0, m) == z.offsets[0];
    }
    assert s == {u};
  }

  lemma {:induction false} MomentCount(z: Zone, k: nat, local: int, s: set<int>)
    requires z.Valid() && k <= |z.transitions| && AreNamed(z, k, local, s)
    ensures |s| == 1 + Surplus(Discontinuities(z, k), local)
  {
    if k == 0 {
      FirstMoment(z, local, s);
    } else {
      var before := NamedMoments(z, k - 1, local);
      MomentCount(z, k - 1, local, before);
      OneTransition(z, k - 1, local, before, s);
      SurplusAdds(Discontinuities(z, k - 1), DiscontinuityAt(z, k - 1), local);
    }
  }

  // ----- the footer -----

  /** The first moment the footer speaks for. */
  function FirstLate(z: Zone): int
    requires z.transitions != []
  {
    var last: int := z.transitions[|z.transitions| - 1];
    last + 1
  }

  /** The moment an offset names is after the last transition, and the footer is at that offset there. */
  predicate LateAt(z: Zone, local: int, offset: int32) {
    z.AfterLast(local - offset) && z.FooterOffset(local - offset) == offset
  }

  /** How many moments the footer names. */
  function FooterCount(z: Zone, local: int): nat {
    (if LateAt(z, local, z.footer.standard) then 1 else 0) +
    if z.footer.daylight.Some? && z.footer.daylight.value.offset != z.footer.standard
       && LateAt(z, local, z.footer.daylight.value.offset) then 1 else 0
  }

  lemma {:induction false} LateIs(z: Zone, local: int, utc: int)
    requires z.Valid()
    ensures z.AfterLast(utc) && z.Means(utc, local) <==>
      || (utc == local - z.footer.standard && LateAt(z, local, z.footer.standard))
      || (z.footer.daylight.Some? && utc == local - z.footer.daylight.value.offset && LateAt(z, local, z.footer.daylight.value.offset))
  {
  }

  lemma {:induction false} AtMostTwo(s: set<int>, u: int, v: int, a: bool, b: bool)
    requires forall x :: x in s <==> (x == u && a) || (x == v && b)
    ensures |s| == (if a then 1 else 0) + (if b && (v != u || !a) then 1 else 0)
  {
    var t := (if a then {u} else {}) + (if b then {v} else {});
    assert forall x :: x in s <==> x in t;
    assert s == t;
  }

  lemma {:induction false} FooterMoments(z: Zone, local: int, s: set<int>)
    requires z.Valid() && forall utc :: utc in s <==> z.AfterLast(utc) && z.Means(utc, local)
    ensures |s| == FooterCount(z, local)
  {
    var standard, daylight := z.footer.standard, if z.footer.daylight.Some? then z.footer.daylight.value.offset else 0;
    var a, b := LateAt(z, local, standard), z.footer.daylight.Some? && LateAt(z, local, daylight);
    forall utc ensures utc in s <==> (utc == local - standard && a) || (utc == local - daylight && b) {
      LateIs(z, local, utc);
    }
    AtMostTwo(s, local - standard, local - daylight, a, b);
  }

  /** Up to the last transition the footer changes nothing. */
  lemma {:induction false} MomentsUpToLast(z: Zone, local: int, s: set<int>, named: set<int>)
    requires z.Valid() && z.transitions != [] && AreNamed(z, |z.transitions|, local, s)
    requires forall utc :: utc in named <==> z.Means(utc, local)
    ensures Before(named, FirstLate(z)) == Before(s, FirstLate(z))
  {
    forall m | m < FirstLate(z) ensures m in named <==> m in s {
      assert !z.AfterLast(m);
    }
  }

  /** For every footer: the moments up to the last transition, and those the
      footer names after it. */
  lemma {:induction false} NamedCount(z: Zone, local: int, named: set<int>)
    requires z.Valid() && forall utc :: utc in named <==> z.Means(utc, local)
    ensures var n := |z.transitions|;
      |named| == 1 + Surplus(Discontinuities(z, n), local) - (if z.AfterLast(local - z.Offset(n)) then 1 else 0) + FooterCount(z, local)
  {
    var n := |z.transitions|;
    var s := NamedMoments(z, n, local);
    MomentCount(z, n, local, s);
    if n == 0 {
      forall m ensures m in named <==> m in s {
        assert !z.AfterLast(m) && z.OffsetAt(m) == z.OffsetAmong(0, m);
      }
      assert named == s;
    } else {
      var late := FirstLate(z);
      MomentsUpToLast(z, local, s, named);
      LateMoments(z, n, local, s, late);
      SplitSize(s, late);
      SplitSize(named, late);
      FooterMoments(z, local, From(named, late));
    }
  }

  /** The number of moments a local second names, for every zone. */
  lemma {:induction false} CandidateCount(z: Zone, local: int, candidates: seq<int>)
    requires z.Valid() && StrictlyAscends(candidates) && forall utc :: utc in candidates <==> z.Means(utc, local)
    ensures var n := |z.transitions|;
      |candidates| == 1 + Surplus(Discontinuities(z, n), local) - (if z.AfterLast(local - z.Offset(n)) then 1 else 0) + FooterCount(z, local)
  {
    var named := set utc | utc in candidates;
    assert Distinct(candidates);
    DistinctSize(candidates);
    NamedCount(z, local, named);
  }

  /** If every moment the last offset or the footer could name is no later than
      the last transition, the footer does not matter. */
  lemma {:induction false} EarlyCount(z: Zone, local: int, candidates: seq<int>)
    requires z.Valid() && StrictlyAscends(candidates) && forall utc :: utc in candidates <==> z.Means(utc, local)
    requires !z.AfterLast(local - z.Offset(|z.transitions|)) && !z.AfterLast(local - z.footer.standard)
    requires z.footer.daylight.Some? ==> !z.AfterLast(local - z.footer.daylight.value.offset)
    ensures |candidates| == 1 + Surplus(Discontinuities(z, |z.transitions|), local)
  {
    CandidateCount(z, local, candidates);
  }

  /** The footer says no more than one offset. */
  predicate PlainFooter(z: Zone) { z.transitions == [] || z.footer.daylight.None? }

  /** The clock's last jump, to the footer's offset. */
  function FooterJump(z: Zone): seq<Discontinuity>
    requires z.Valid()
  {
    var n := |z.transitions|;
    if n == 0 then [] else Between(FirstLate(z) + z.Offset(n), FirstLate(z) + z.footer.standard)
  }

  /** Every jump of the clock. */
  function Jumps(z: Zone): seq<Discontinuity>
    requires z.Valid()
  {
    Discontinuities(z, |z.transitions|) + FooterJump(z)
  }

  /** Without daylight time in the footer, a local second names one moment, and
      one more for every fold and one less for every gap that holds it. */
  lemma {:induction false} PlainCount(z: Zone, local: int, candidates: seq<int>)
    requires z.Valid() && PlainFooter(z)
    requires StrictlyAscends(candidates) && forall utc :: utc in candidates <==> z.Means(utc, local)
    ensures |candidates| == 1 + Surplus(Jumps(z), local)
  {
    CandidateCount(z, local, candidates);
    SurplusAdds(Discontinuities(z, |z.transitions|), FooterJump(z), local);
    assert |FooterJump(z)| == 1 ==> FooterJump(z)[..0] == [];
  }

  // ----- zones whose discontinuities do not overlap -----

  predicate Apart(ds: seq<Discontinuity>) {
    forall i, j | 0 <= i < j < |ds| :: ds[i].last <= ds[j].first || ds[j].last <= ds[i].first
  }

  predicate InGap(ds: seq<Discontinuity>, local: int) { exists i | 0 <= i < |ds| :: ds[i].Gap? && ds[i].Holds(local) }

  predicate InFold(ds: seq<Discontinuity>, local: int) { exists i | 0 <= i < |ds| :: ds[i].Fold? && ds[i].Holds(local) }

  lemma {:induction false} SurplusApart(ds: seq<Discontinuity>, local: int)
    requires Apart(ds)
    ensures Surplus(ds, local) == if InGap(ds, local) then -1 else if InFold(ds, local) then 1 else 0
  {
    if ds != [] {
      var front, d := ds[..|ds| - 1], ds[|ds| - 1];
      SurplusApart(front, local);
      assert forall i | 0 <= i < |front| :: front[i] == ds[i];
      if d.Holds(local) {
        assert forall i | 0 <= i < |front| :: !ds[i].Holds(local);
        assert !InGap(front, local) && !InFold(front, local);
      }
    }
  }

  /** Local-time inversion: none in a gap, two in a fold, one anywhere else. */
  lemma {:induction false} GapsAndFolds(z: Zone, local: int, candidates: seq<int>)
    requires z.Valid() && PlainFooter(z) && Apart(Jumps(z))
    requires StrictlyAscends(candidates) && forall utc :: utc in candidates <==> z.Means(utc, local)
    ensures |candidates| == if InGap(Jumps(z), local) then 0 else if InFold(Jumps(z), local) then 2 else 1
  {
    PlainCount(z, local, candidates);
    SurplusApart(Jumps(z), local);
  }
}
