/** The hash of a cache key: FNV-1a over its numbers, most significant byte
    first.  Every step is a bijection on the low bits, and two bytes of the key
    reach all of the low fourteen. */
module CacheHash {
  import opened Domain
  import opened RouteCacheTable

  const WORD: nat := 0x1_0000_0000_0000_0000
  const FNV_OFFSET: nat := 14695981039346656037
  const FNV_PRIME: nat := 1099511628211

  /** Bitwise exclusive or of two numbers of `n` bits. */
  function XorBits(a: nat, b: nat, n: nat): (r: nat)
    ensures r < Power(n)
  {
    if n == 0 then 0 else 2 * XorBits(a / 2, b / 2, n - 1) + if a % 2 == b % 2 then 0 else 1
  }

  function Xor(a: uint8, b: uint8): uint8 {
    assert Power(8) == 256;
    XorBits(a, b, 8)
  }

  /** Only the low byte of the hash meets the byte. */
  function Mix(hash: nat, byte: uint8): nat {
    (hash / 256 * 256 + Xor(hash % 256, byte)) * FNV_PRIME % WORD
  }

  function MixAll(hash: nat, bytes: seq<uint8>): nat
    decreases |bytes|
  {
    if bytes == [] then hash else MixAll(Mix(hash, bytes[0]), bytes[1..])
  }

  /** The low bytes of a number, most significant first. */
  function BigEndian(value: nat, width: nat): (r: seq<uint8>)
    ensures |r| == width
  {
    if width == 0 then [] else BigEndian(value / 256, width - 1) + [value % 256]
  }

  function TwosComplement(value: int, word: nat): nat
    requires 0 <= value + word
  {
    if value < 0 then value + word else value
  }

  function Word32(value: int32): nat { TwosComplement(value, 0x1_0000_0000) }

  function KeyBytes(k: CacheKey): seq<uint8> {
    BigEndian(Word32(k.originLatitude), 4)
    + (BigEndian(Word32(k.originLongitude), 4) + BigEndian(Word32(k.destinationLatitude), 4)
       + BigEndian(Word32(k.destinationLongitude), 4) + BigEndian(TwosComplement(k.departureBucket, WORD), 8)
       + [if k.mode.Walking? then 1 else 2] + BigEndian(k.provider, 4))
  }

  function HashKey(k: CacheKey): nat { MixAll(FNV_OFFSET, KeyBytes(k)) }

  // ----- the low fourteen bits -----

  lemma {:induction false} XorHalves(a: nat, b: nat, n: nat)
    requires n > 0
    ensures XorBits(a, b, n) / 2 == XorBits(a / 2, b / 2, n - 1)
    ensures XorBits(a, b, n) % 2 == if a % 2 == b % 2 then 0 else 1
  {
  }

  lemma {:induction false} SameNumber(a: nat, b: nat)
    requires a / 2 == b / 2 && a % 2 == b % 2
    ensures a == b
  {
  }

  /** Exclusive or undoes itself, on either side. */
  lemma {:induction false} XorBitsTwice(a: nat, b: nat, n: nat)
    requires a < Power(n) && b < Power(n)
    ensures XorBits(XorBits(a, b, n), b, n) == a
    ensures XorBits(a, XorBits(a, b, n), n) == b
  {
    if n > 0 {
      var c := XorBits(a, b, n);
      XorHalves(a, b, n);
      XorBitsTwice(a / 2, b / 2, n - 1);
      XorHalves(c, b, n);
      XorHalves(a, c, n);
      SameNumber(XorBits(c, b, n), a);
      SameNumber(XorBits(a, c, n), b);
    }
  }

  lemma {:induction false} XorTwice(a: uint8, b: uint8)
    ensures Xor(Xor(a, b), b) == a && Xor(a, Xor(a, b)) == b
  {
    assert Power(8) == 256;
    XorBitsTwice(a, b, 8);
  }

  /** Two to the power fourteen. */
  const LOW: nat := 16384

  /** What a byte does to the low bits; 435 is the prime's. */
  function LowMix(low: nat, byte: uint8): (r: nat)
    ensures r < LOW
  {
    (low / 256 * 256 + Xor(low % 256, byte)) * 435 % LOW
  }

  lemma {:induction false} ModuloTwice(y: nat, m: nat)
    requires m > 0
    ensures y % (LOW * m) % LOW == y % LOW
  {
    var n, z := LOW * m, y % (LOW * m);
    assert y == (y / n) * n + z;
    assert z == (z / LOW) * LOW + z % LOW;
    ModuloIs(y, LOW, (y / n) * m + z / LOW, z % LOW);
  }

  lemma {:induction false} TimesPrime(a: nat, r: nat)
    ensures (a * LOW + r) * FNV_PRIME % LOW == r * 435 % LOW
  {
    var c := r * 435;
    ModuloIs((a * LOW + r) * FNV_PRIME, LOW, a * FNV_PRIME + r * 67108864 + c / LOW, c % LOW);
  }

  lemma {:induction false} LowByte(hash: nat)
    ensures hash / 256 * 256 == hash / LOW * LOW + hash % LOW / 256 * 256 && hash % 256 == hash % LOW % 256
  {
  }

  lemma {:induction false} MixLow(hash: nat, byte: uint8)
    ensures Mix(hash, byte) % LOW == LowMix(hash % LOW, byte)
  {
    LowByte(hash);
    var low := hash % LOW / 256 * 256 + Xor(hash % 256, byte);
    ModuloTwice((hash / LOW * LOW + low) * FNV_PRIME, WORD / LOW);
    TimesPrime(hash / LOW, low);
  }

  function LowAll(low: nat, bytes: seq<uint8>): nat
    decreases |bytes|
  {
    if bytes == [] then low else LowAll(LowMix(low, bytes[0]), bytes[1..])
  }

  lemma {:induction false} MixAllLow(hash: nat, bytes: seq<uint8>)
    ensures MixAll(hash, bytes) % LOW == LowAll(hash % LOW, bytes)
    decreases |bytes|
  {
    if bytes != [] {
      MixLow(hash, bytes[0]);
      MixAllLow(Mix(hash, bytes[0]), bytes[1..]);
    }
  }

  // ----- and back -----

  /** Undoes the multiplication: 5499 is the inverse of 435. */
  function Divided(low: nat): (r: nat)
    ensures r < LOW
  {
    low * 5499 % LOW
  }

  lemma {:induction false} TimesInverse(low: nat)
    requires low < LOW
    ensures Divided(low) * 435 % LOW == low
  {
    var q, c := low * 5499 / LOW, low * 5499 % LOW;
    ModuloIs(c * 435, LOW, 146 * low - 435 * q, low);
  }

  /** A number of low bits with another low byte. */
  function WithByte(low: nat, byte: uint8): (r: nat)
    ensures r / 256 == low / 256 && r % 256 == byte
    ensures low < LOW ==> r < LOW
  {
    low / 256 * 256 + byte
  }

  function Unmix(low: nat, byte: uint8): (r: nat)
    ensures r < LOW
  {
    WithByte(Divided(low), Xor(Divided(low) % 256, byte))
  }

  lemma {:induction false} UnmixInverts(low: nat, byte: uint8)
    requires low < LOW
    ensures LowMix(Unmix(low, byte), byte) == low
  {
    XorTwice(Divided(low) % 256, byte);
    TimesInverse(low);
  }

  /** The low bits before the bytes that lead to these after them. */
  function UnmixAll(low: nat, bytes: seq<uint8>): (r: nat)
    ensures low < LOW ==> r < LOW
  {
    if bytes == [] then low else Unmix(UnmixAll(low, bytes[1..]), bytes[0])
  }

  lemma {:induction false} UnmixAllInverts(low: nat, bytes: seq<uint8>)
    requires low < LOW
    ensures LowAll(UnmixAll(low, bytes), bytes) == low
  {
    if bytes != [] {
      UnmixAllInverts(low, bytes[1..]);
      UnmixInverts(UnmixAll(low, bytes[1..]), bytes[0]);
    }
  }

  // ----- two bytes lead anywhere -----

  /** How far to go, in steps of 435 round the circle, to land within 146 after
      the start of a block: 38 steps make a full circle and 146. */
  function StepsTo(from: nat, block: nat): (r: nat)
    requires from < LOW && block < LOW
    ensures r < 256
  {
    var d := (block + LOW - from) % LOW;
    d / 435 + 38 * ((d % 435 + 145) / 146)
  }

  /** Where so many steps and circles lead. */
  lemma {:induction false} Walk(base: nat, q: nat, from: nat, d: nat, i: nat, r: nat, j: nat, block: nat, turns: nat)
    requires base * 435 == q * LOW + from && d == i * 435 + r && from + d == block + turns * LOW
    ensures (base + (i + 38 * j)) * 435 == (q + j + turns) * LOW + (block + (146 * j - r))
  {
  }

  lemma {:induction false} Lands(base: nat, block: nat)
    requires block + 256 <= LOW
    ensures var end := (base + StepsTo(base * 435 % LOW, block)) * 435 % LOW; block <= end < block + 256
  {
    var q, from := base * 435 / LOW, base * 435 % LOW;
    var d, turns := Around(from, block);
    var i, r := d / 435, d % 435;
    var j := (r + 145) / 146;
    Walk(base, q, from, d, i, r, j, block, turns);
    ModuloIs((base + (i + 38 * j)) * 435, LOW, q + j + turns, block + (146 * j - r));
  }

  lemma {:induction false} Around(from: nat, block: nat) returns (d: nat, turns: nat)
    requires from < LOW && block < LOW
    ensures d == (block + LOW - from) % LOW && from + d == block + turns * LOW
  {
    d, turns := (block + LOW - from) % LOW, if from <= block then 0 else 1;
  }

  /** The byte that leads into the target's block, and then the one that leads to it. */
  function FirstByte(lead: nat, target: nat): uint8
    requires target < LOW
  {
    Xor(lead % 256, StepsTo(lead / 256 * 256 * 435 % LOW, target / 256 * 256))
  }

  function SecondByte(lead: nat, target: nat): uint8
    requires target < LOW
  {
    Xor(LowMix(lead, FirstByte(lead, target)) % 256, target % 256)
  }

  lemma {:induction false} ByteSets(low: nat, v: uint8)
    ensures LowMix(low, Xor(low % 256, v)) == (low / 256 * 256 + v) * 435 % LOW
  {
    XorTwice(low % 256, v);
  }

  lemma {:induction false} BlockIs(z: nat, end: nat)
    requires z / 256 * 256 <= end < z / 256 * 256 + 256
    ensures end / 256 * 256 + z % 256 == z
  {
  }

  lemma {:induction false} FirstByteLeads(lead: nat, z: nat)
    requires z < LOW
    ensures z / 256 * 256 <= LowMix(lead, FirstByte(lead, z)) < z / 256 * 256 + 256
  {
    var base, block := lead / 256 * 256, z / 256 * 256;
    ByteSets(lead, StepsTo(base * 435 % LOW, block));
    Lands(base, block);
  }

  lemma {:induction false} SecondByteLeads(end: nat, z: nat)
    requires z / 256 * 256 <= end < z / 256 * 256 + 256
    ensures LowMix(end, Xor(end % 256, z % 256)) == z * 435 % LOW
  {
    ByteSets(end, z % 256);
    BlockIs(z, end);
  }

  lemma {:induction false} TwoBytesLead(lead: nat, target: nat)
    requires target < LOW
    ensures LowMix(LowMix(lead, FirstByte(lead, Divided(target))), SecondByte(lead, Divided(target))) == target
  {
    var z := Divided(target);
    FirstByteLeads(lead, z);
    SecondByteLeads(LowMix(lead, FirstByte(lead, z)), z);
    TimesInverse(target);
  }

  // ----- a key for every home -----

  /** The bytes of a key after its origin's latitude, when all else is zero but
      the departure, the walking mode and the first provider. */
  function Rest(bucket: nat): seq<uint8> {
    BigEndian(0, 4) + BigEndian(0, 4) + BigEndian(0, 4) + BigEndian(bucket, 8) + [1] + BigEndian(1, 4)
  }

  function Lead(): nat { MixAll(FNV_OFFSET, [0, 0]) % LOW }

  function Target(low: nat, bucket: nat): (r: nat)
    requires low < LOW
    ensures r < LOW
  {
    Divided(UnmixAll(low, Rest(bucket)))
  }

  function LatitudeFor(low: nat, bucket: nat): (r: nat)
    requires low < LOW
    ensures r < 65536
  {
    FirstByte(Lead(), Target(low, bucket)) * 256 + SecondByte(Lead(), Target(low, bucket))
  }

  /** A key with this departure whose hash ends in these bits: one from a place
      less than two thirds of a degree north of the equator. */
  function KeyFor(low: nat, bucket: nat): CacheKey
    requires low < LOW && bucket <= INT64_MAX
  {
    CacheKey(LatitudeFor(low, bucket), 0, 0, 0, bucket, Walking, 1)
  }

  lemma {:induction false} MixJoins(hash: nat, a: seq<uint8>, b: seq<uint8>)
    ensures MixAll(hash, a + b) == MixAll(MixAll(hash, a), b)
    decreases |a|
  {
    if a == [] {
      assert a + b == b;
    } else {
      assert (a + b)[1..] == a[1..] + b;
      MixJoins(Mix(hash, a[0]), a[1..], b);
    }
  }

  lemma {:induction false} TwoBytes(hash: nat, first: uint8, second: uint8)
    ensures MixAll(hash, [first, second]) == Mix(Mix(hash, first), second)
  {
    assert [first] + [second] == [first, second];
    MixJoins(hash, [first], [second]);
    OneByte(hash, first);
    OneByte(Mix(hash, first), second);
  }

  lemma {:induction false} FourBytesLow(hash: nat, first: uint8, second: uint8)
    ensures MixAll(hash, [0, 0, first, second]) % LOW == LowMix(LowMix(MixAll(hash, [0, 0]) % LOW, first), second)
  {
    var lead := MixAll(hash, [0, 0]);
    assert [0, 0] + [first, second] == [0, 0, first, second];
    MixJoins(hash, [0, 0], [first, second]);
    TwoBytes(lead, first, second);
    MixLow(lead, first);
    MixLow(Mix(lead, first), second);
  }

  lemma {:induction false} FourBytesLead(hash: nat, lead: nat, z: nat)
    requires lead == MixAll(hash, [0, 0]) % LOW && z < LOW
    ensures MixAll(hash, [0, 0, FirstByte(lead, Divided(z)), SecondByte(lead, Divided(z))]) % LOW == z
  {
    FourBytesLow(hash, FirstByte(lead, Divided(z)), SecondByte(lead, Divided(z)));
    TwoBytesLead(lead, z);
  }

  lemma {:induction false} RestLeads(hash: nat, four: seq<uint8>, rest: seq<uint8>, low: nat)
    requires low < LOW && MixAll(hash, four) % LOW == UnmixAll(low, rest)
    ensures MixAll(hash, four + rest) % LOW == low
  {
    MixJoins(hash, four, rest);
    MixAllLow(MixAll(hash, four), rest);
    UnmixAllInverts(low, rest);
  }

  lemma {:induction false} KeyBytesAre(k: CacheKey, first: uint8, second: uint8, bucket: nat)
    requires bucket <= INT64_MAX && k == CacheKey(first * 256 + second, 0, 0, 0, bucket, Walking, 1)
    ensures KeyBytes(k) == [0, 0, first, second] + Rest(bucket)
  {
    SmallBigEndian(first, second);
  }

  /** For every home in a table of up to two to the fourteenth slots, and every
      departure, there is a key. */
  lemma {:induction false} EveryHomeHasKey(low: nat, bucket: nat)
    requires low < LOW && bucket <= INT64_MAX
    ensures HashKey(KeyFor(low, bucket)) % LOW == low
  {
    var rest, lead := Rest(bucket), Lead();
    var z := UnmixAll(low, rest);
    var first, second := FirstByte(lead, Divided(z)), SecondByte(lead, Divided(z));
    KeyBytesAre(KeyFor(low, bucket), first, second, bucket);
    FourBytesLead(FNV_OFFSET, lead, z);
    RestLeads(FNV_OFFSET, [0, 0, first, second], rest, low);
  }

  lemma {:induction false} OneByte(hash: nat, byte: uint8)
    ensures MixAll(hash, [byte]) == Mix(hash, byte)
  {
    assert [byte][1..] == [];
  }

  lemma {:induction false} SmallBigEndian(first: uint8, second: uint8)
    ensures BigEndian(first * 256 + second, 4) == [0, 0, first, second]
  {
    var value := first * 256 + second;
    assert value / 256 == first && value % 256 == second;
    assert BigEndian(0, 0) == [] && BigEndian(0, 1) == [0] && BigEndian(0, 2) == [0, 0];
    assert BigEndian(first, 3) == [0, 0] + [first];
  }

  // ----- the loop over a number's bytes -----

  function Shifted(places: nat): (r: nat)
    ensures r > 0
  {
    if places == 0 then 1 else 256 * Shifted(places - 1)
  }

  lemma {:induction false} QuotientIs(x: nat, n: nat, q: nat, r: nat)
    requires r < n && x == q * n + r
    ensures x / n == q
  {
    if q < x / n {
      MultiplyMonotone(q + 1, x / n, n);
      assert false;
    } else if x / n < q {
      MultiplyMonotone(x / n + 1, q, n);
      assert false;
    }
  }

  lemma {:induction false} DivideTwice(a: nat, p: nat)
    requires p > 0
    ensures a / 256 / p == a / (256 * p)
  {
    var h, low := a / 256, a % 256;
    var q, r := h / p, h % p;
    assert h == q * p + r;
    assert a == q * (256 * p) + (256 * r + low);
    QuotientIs(a, 256 * p, q, 256 * r + low);
  }

  lemma {:induction false} MostSignificant(value: nat, width: nat)
    requires width > 0
    ensures BigEndian(value, width) == [value / Shifted(width - 1) % 256] + BigEndian(value, width - 1)
  {
    if width > 1 {
      MostSignificant(value / 256, width - 1);
      DivideTwice(value, Shifted(width - 2));
    }
  }

  method AppendBigEndian(hash: nat, value: nat, width: nat) returns (r: nat)
    ensures r == MixAll(hash, BigEndian(value, width))
  {
    r := hash;
    var shift: nat := width;
    while shift != 0
      invariant shift <= width && MixAll(r, BigEndian(value, shift)) == MixAll(hash, BigEndian(value, width))
    {
      MostSignificant(value, shift);
      var byte := value / Shifted(shift - 1) % 256;
      MixJoins(r, [byte], BigEndian(value, shift - 1));
      OneByte(r, byte);
      r := Mix(r, byte);
      shift := shift - 1;
    }
  }

  /** `hash_key`. */
  method ComputeHash(k: CacheKey) returns (r: nat)
    ensures r == HashKey(k)
  {
    var latitude, longitude := BigEndian(Word32(k.originLatitude), 4), BigEndian(Word32(k.originLongitude), 4);
    var latitude', longitude' := BigEndian(Word32(k.destinationLatitude), 4), BigEndian(Word32(k.destinationLongitude), 4);
    var bucket, mode, provider :=
      BigEndian(TwosComplement(k.departureBucket, WORD), 8), [if k.mode.Walking? then 1 else 2], BigEndian(k.provider, 4);
    r := AppendBigEndian(FNV_OFFSET, Word32(k.originLatitude), 4);
    r := AppendBigEndian(r, Word32(k.originLongitude), 4);
    r := AppendBigEndian(r, Word32(k.destinationLatitude), 4);
    r := AppendBigEndian(r, Word32(k.destinationLongitude), 4);
    r := AppendBigEndian(r, TwosComplement(k.departureBucket, WORD), 8);
    r := Mix(r, if k.mode.Walking? then 1 else 2);
    r := AppendBigEndian(r, k.provider, 4);
    SevenParts(FNV_OFFSET, latitude, longitude, latitude', longitude', bucket, mode, provider);
    OneByte(MixAll(MixAll(MixAll(MixAll(MixAll(FNV_OFFSET, latitude), longitude), latitude'), longitude'), bucket), mode[0]);
  }

  lemma {:induction false} SevenParts(hash: nat, a: seq<uint8>, b: seq<uint8>, c: seq<uint8>, d: seq<uint8>, e: seq<uint8>,
                                      f: seq<uint8>, g: seq<uint8>)
    ensures MixAll(hash, a + (b + c + d + e + f + g))
         == MixAll(MixAll(MixAll(MixAll(MixAll(MixAll(MixAll(hash, a), b), c), d), e), f), g)
  {
    MixJoins(hash, a, b + c + d + e + f + g);
    var h := MixAll(hash, a);
    MixJoins(h, b + c + d + e + f, g);
    MixJoins(h, b + c + d + e, f);
    MixJoins(h, b + c + d, e);
    MixJoins(h, b + c, d);
    MixJoins(h, b, c);
  }
}
