/** The two EUI-48 conversion loops of controller/lib/src/util_imp.cpp. */
module Eui48 {
  import opened Basics

  type uint64 = x: nat | x < 0x1_0000_0000_0000_0000

  const TWO_48: nat := 0x1_0000_0000_0000
  const EUI48_LEN: nat := 6

  /** Shifting byte `i` into or out of its place multiplies or divides by its weight. */
  function Weight(i: nat): (w: nat)
    requires i < EUI48_LEN
    ensures w > 0
  {
    match i
    case 0 => 0x100_0000_0000
    case 1 => 0x1_0000_0000
    case 2 => 0x100_0000
    case 3 => 0x1_0000
    case 4 => 0x100
    case _ => 1
  }

  /** Bitwise or, one bit at a time. */
  function Or(a: nat, b: nat): nat
    decreases a + b
  {
    if a == 0 then b
    else if b == 0 then a
    else (if a % 2 == 1 || b % 2 == 1 then 1 else 0) + 2 * Or(a / 2, b / 2)
  }

  /** The number that the bytes stand for, the most significant first. */
  function Value(bytes: seq<uint8>): nat {
    if bytes == [] then 0 else 256 * Value(bytes[..|bytes| - 1]) + bytes[|bytes| - 1]
  }

  /** Six bytes in network order. */
  lemma SixBytes(bytes: seq<uint8>)
    requires |bytes| == 6
    ensures Value(bytes) == bytes[0] as nat * 0x100_0000_0000 + bytes[1] as nat * 0x1_0000_0000 +
                            bytes[2] as nat * 0x100_0000 + bytes[3] as nat * 0x1_0000 +
                            bytes[4] as nat * 0x100 + bytes[5]
  {
    hide Value;
    OneByteMore(bytes, 0);
    OneByteMore(bytes, 1);
    OneByteMore(bytes, 2);
    OneByteMore(bytes, 3);
    OneByteMore(bytes, 4);
    OneByteMore(bytes, 5);
    assert bytes[..6] == bytes;
  }

  lemma OneByteMore(bytes: seq<uint8>, i: nat)
    requires i < |bytes|
    ensures Value(bytes[..i + 1]) == 256 * Value(bytes[..i]) + bytes[i]
    ensures i == 0 ==> Value(bytes[..i]) == 0
  {
    assert bytes[..i + 1][..i] == bytes[..i];
  }

  // ------------------------------------------------------------------------------------------ bits and bytes

  predicate HasBit(n: nat, k: nat) {
    if k == 0 then n % 2 == 1 else HasBit(n / 2, k - 1)
  }

  lemma {:induction false} ZeroHasNoBit(k: nat)
    ensures !HasBit(0, k)
  {
    if k > 0 {
      ZeroHasNoBit(k - 1);
    }
  }

  lemma {:induction false} OrHasTheBitsOfBoth(a: nat, b: nat, k: nat)
    ensures HasBit(Or(a, b), k) <==> HasBit(a, k) || HasBit(b, k)
  {
    ZeroHasNoBit(k);
    if a != 0 && b != 0 && k > 0 {
      OrHasTheBitsOfBoth(a / 2, b / 2, k - 1);
      assert Or(a, b) / 2 == Or(a / 2, b / 2);
    }
  }

  predicate IsPowerOfTwo(p: nat) {
    p == 1 || (p > 1 && p % 2 == 0 && IsPowerOfTwo(p / 2))
  }

  /** Where the bits of two numbers do not meet, or is addition. */
  lemma {:induction false} OrOfDisjointBitsAdds(high: nat, low: nat, p: nat)
    requires IsPowerOfTwo(p) && low < p
    ensures Or(high * p, low) == high * p + low
    decreases p
  {
    if p > 1 && high > 0 && low > 0 {
      assert high * p == 2 * (high * (p / 2));
      OrOfDisjointBitsAdds(high, low / 2, p / 2);
    }
  }

  lemma TimesTwo(p: nat)
    requires IsPowerOfTwo(p)
    ensures IsPowerOfTwo(2 * p)
  {
  }

  lemma TimesTwoFiveSix(p: nat)
    requires IsPowerOfTwo(p)
    ensures IsPowerOfTwo(256 * p)
  {
    hide IsPowerOfTwo;
    TimesTwo(p); TimesTwo(2 * p); TimesTwo(4 * p); TimesTwo(8 * p);
    TimesTwo(16 * p); TimesTwo(32 * p); TimesTwo(64 * p); TimesTwo(128 * p);
  }

  lemma WeightsArePowersOfTwo(i: nat)
    requires i < EUI48_LEN
    ensures IsPowerOfTwo(256 * Weight(i))
  {
    assert IsPowerOfTwo(1);
    hide IsPowerOfTwo;
    TimesTwoFiveSix(1);
    TimesTwoFiveSix(0x100);
    TimesTwoFiveSix(0x1_0000);
    TimesTwoFiveSix(0x100_0000);
    TimesTwoFiveSix(0x1_0000_0000);
    TimesTwoFiveSix(0x100_0000_0000);
  }

  /** Equal numbers have equal bytes. */
  lemma {:induction false} ValueIsInjective(a: seq<uint8>, b: seq<uint8>)
    requires |a| == |b| && Value(a) == Value(b)
    ensures a == b
  {
    if a != [] {
      var n := |a| - 1;
      assert Value(a) % 256 == a[n] && Value(b) % 256 == b[n];
      ValueIsInjective(a[..n], b[..n]);
      assert a == a[..n] + [a[n]] && b == b[..n] + [b[n]];
    }
  }

  // ------------------------------------------------------------------------------------- out of an integer

  /** The byte that the loop shifts out for position `i`. */
  function ByteOf(value: nat, i: nat): uint8
    requires i < EUI48_LEN
  {
    value / Weight(i) % 256
  }

  /** What the first `i + 1` bytes stay below. */
  function Room(i: nat): (r: nat)
    requires i < EUI48_LEN
    ensures r * Weight(i) == TWO_48
  {
    match i
    case 0 => 0x100
    case 1 => 0x1_0000
    case 2 => 0x100_0000
    case 3 => 0x1_0000_0000
    case 4 => 0x100_0000_0000
    case _ => 0x1_0000_0000_0000
  }

  lemma WeightSteps(value: nat, i: nat)
    requires 0 < i < EUI48_LEN
    ensures value / Weight(i) / 256 == value / Weight(i - 1)
  {
    match i
    case 1 => assert value / 0x1_0000_0000 / 256 == value / 0x100_0000_0000;
    case 2 => assert value / 0x100_0000 / 256 == value / 0x1_0000_0000;
    case 3 => assert value / 0x1_0000 / 256 == value / 0x100_0000;
    case 4 => assert value / 0x100 / 256 == value / 0x1_0000;
    case _ => assert value / 1 / 256 == value / 0x100;
  }

  /** The bytes up to position `i` are the number without what lies below, as far as 48 bits reach. */
  lemma {:induction false} BytesOfValue(value: nat, bytes: seq<uint8>, i: nat)
    requires |bytes| == EUI48_LEN && i < EUI48_LEN && value < TWO_48
    requires forall k :: 0 <= k < EUI48_LEN ==> bytes[k] == ByteOf(value, k)
    ensures Value(bytes[..i + 1]) == value / Weight(i)
  {
    assert bytes[..i + 1][..i] == bytes[..i];
    if i == 0 {
      assert Value(bytes[..0]) == 0;
    } else {
      BytesOfValue(value, bytes, i - 1);
      WeightSteps(value, i);
    }
  }

  lemma QuotientIsUnique(n: nat, w: nat, k: nat, rest: nat)
    requires rest < w && n == k * w + rest
    ensures n / w == k
  {
    var gap: int, width: int := n / w - k, w;
    assert gap * width == rest - n % w;
    NoMultipleBetween(gap, width);
  }

  lemma NoMultipleBetween(x: int, w: int)
    requires -w < x * w < w
    ensures x == 0
  {
  }

  lemma DivideSum(a: nat, w: nat, r: nat)
    requires w > 0
    ensures (a * w + r) / w == a + r / w
  {
    assert (a + r / w) * w == a * w + r / w * w;
    QuotientIsUnique(a * w + r, w, a + r / w, r % w);
  }

  lemma MultipleOf256(a: nat, t: nat)
    ensures (256 * a + t) % 256 == t % 256
  {
  }

  lemma HighPartVanishes(q: nat, m: nat, w: nat, r: nat)
    requires w > 0
    ensures (q * (256 * m * w) + r) / w % 256 == r / w % 256
  {
    var a := q * m;
    assert q * (256 * m * w) == 256 * a * w;
    DivideSum(256 * a, w, r);
    MultipleOf256(a, r / w);
  }

  /** Bits above the 48 that are kept do not show in any byte. */
  lemma HighBitsAreCutOff(value: nat, i: nat)
    requires i < EUI48_LEN
    ensures ByteOf(value, i) == ByteOf(value % TWO_48, i)
  {
    HighPartVanishes(value / TWO_48, Room(i) / 256, Weight(i), value % TWO_48);
    assert 256 * (Room(i) / 256) * Weight(i) == TWO_48;
  }

  method ConvertUint64ToEui48(value: uint64, newValue: array<uint8>)
    requires newValue.Length == EUI48_LEN
    modifies newValue
    ensures Value(newValue[..]) == value % TWO_48
  {
    for i := 0 to EUI48_LEN
      invariant forall k :: 0 <= k < i ==> newValue[k] == ByteOf(value, k)
    {
      newValue[i] := value / Weight(i) % 256;
    }
    forall k | 0 <= k < EUI48_LEN ensures newValue[k] == ByteOf(value % TWO_48, k) {
      HighBitsAreCutOff(value, k);
    }
    BytesOfValue(value % TWO_48, newValue[..], EUI48_LEN - 1);
    assert newValue[..][..EUI48_LEN] == newValue[..];
  }

  // ---------------------------------------------------------------------------------------- into an integer

  /** One turn of the loop: the new byte lands where no bit is set yet. */
  lemma OrInOneByte(v: nat, b: uint8, w: nat)
    requires w > 0 && IsPowerOfTwo(256 * w)
    ensures Or(v * (256 * w), b * w) == (256 * v + b) * w
  {
    hide Or, IsPowerOfTwo;
    assert b * w < 256 * w;
    OrOfDisjointBitsAdds(v, b * w, 256 * w);
    assert (256 * v + b) * w == v * (256 * w) + b * w;
  }

  lemma {:induction false} PrefixFits(bytes: seq<uint8>, i: nat)
    requires i < |bytes| == EUI48_LEN
    ensures Value(bytes[..i + 1]) < Room(i)
  {
    assert bytes[..i + 1][..i] == bytes[..i];
    if i == 0 {
      assert Value(bytes[..0]) == 0;
    } else {
      PrefixFits(bytes, i - 1);
    }
  }

  /** After `i` turns the bytes so far stand at the top of 48 bits. */
  predicate HoldsPrefix(newValue: nat, bytes: seq<uint8>, i: nat)
    requires i <= |bytes| == EUI48_LEN
  {
    if i == 0 then newValue == 0 else newValue == Value(bytes[..i]) * Weight(i - 1)
  }

  lemma OneMoreByte(newValue: nat, bytes: seq<uint8>, i: nat)
    requires i < |bytes| == EUI48_LEN && HoldsPrefix(newValue, bytes, i)
    ensures HoldsPrefix(Or(newValue, bytes[i] * Weight(i)), bytes, i + 1)
    ensures Or(newValue, bytes[i] * Weight(i)) < TWO_48
  {
    var v := Value(bytes[..i]);
    assert Value(bytes[..i + 1]) == 256 * v + bytes[i] by {
      assert bytes[..i + 1][..i] == bytes[..i];
    }
    WeightsArePowersOfTwo(i);
    PrefixFits(bytes, i);
    assert newValue == v * (256 * Weight(i)) by {
      if i > 0 {
        assert Weight(i - 1) == 256 * Weight(i);
      } else {
        assert v == 0;
      }
    }
    hide Or, Value, IsPowerOfTwo;
    OrInOneByte(v, bytes[i], Weight(i));
    MoreThanTimes(Value(bytes[..i + 1]), Room(i), Weight(i));
  }

  lemma MoreThanTimes(x: nat, y: nat, w: nat)
    requires x < y && w > 0
    ensures x * w < y * w
  {
  }

  method ConvertEui48ToUint64(value: array<uint8>) returns (newValue: uint64)
    requires value.Length == EUI48_LEN
    ensures newValue == Value(value[..]) < TWO_48
  {
    newValue := 0;
    for i := 0 to EUI48_LEN
      invariant HoldsPrefix(newValue, value[..], i) && newValue < TWO_48
    {
      OneMoreByte(newValue, value[..], i);
      newValue := Or(newValue, value[i] * Weight(i));
    }
    assert value[..][..EUI48_LEN] == value[..];
  }

  /** Both round trips, through the two loops: up to 48 bits of an integer, and all six bytes. */
  method RoundTrips(value: uint64, bytes: array<uint8>) returns (back: uint64, same: array<uint8>)
    requires bytes.Length == EUI48_LEN
    ensures back == value % TWO_48
    ensures fresh(same) && same[..] == bytes[..] == old(bytes[..])
  {
    same := new uint8[EUI48_LEN];
    ConvertUint64ToEui48(value, same);
    back := ConvertEui48ToUint64(same);
    var number := ConvertEui48ToUint64(bytes);
    ConvertUint64ToEui48(number, same);
    ValueIsInjective(bytes[..], same[..]);
  }
}
