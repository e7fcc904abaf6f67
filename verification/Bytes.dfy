/** Bytes, fixed-width integers and byte order: what every wire format of the relay is built from. */
module Bytes {
  type byte = b: int | 0 <= b < 256
  const U32 := 0x1_0000_0000
  const U64 := 0x1_0000_0000_0000_0000
  type u64 = n: int | 0 <= n < U64

  datatype Option<+T> = None | Some(value: T)
  datatype Ordering = Less | Equal | Greater

  function Max(a: int, b: int): int { if a < b then b else a }

  function CompareInt(a: int, b: int): Ordering {
    if a < b then Less else if a == b then Equal else Greater
  }

  /** Lexicographic comparison of byte strings: Rust's slice `cmp`, Go's `bytes.Compare`. */
  function Compare(a: seq<byte>, b: seq<byte>): Ordering {
    if a == [] then (if b == [] then Equal else Less)
    else if b == [] then Greater
    else if a[0] != b[0] then CompareInt(a[0], b[0])
    else Compare(a[1..], b[1..])
  }

  lemma {:induction false} CompareEqual(a: seq<byte>, b: seq<byte>)
    ensures Compare(a, b) == Equal <==> a == b
  {
    if a != [] && b != [] {
      CompareEqual(a[1..], b[1..]);
      assert a == [a[0]] + a[1..] && b == [b[0]] + b[1..];
    }
  }

  lemma {:induction false} CompareTransitive(a: seq<byte>, b: seq<byte>, c: seq<byte>)
    requires Compare(a, b) == Less && Compare(b, c) == Less
    ensures Compare(a, c) == Less
  {
    if a != [] && a[0] == b[0] == c[0] {
      CompareTransitive(a[1..], b[1..], c[1..]);
    }
  }

  lemma {:induction false} CompareFlip(a: seq<byte>, b: seq<byte>)
    ensures Compare(a, b) == Less <==> Compare(b, a) == Greater
  {
    if a != [] && b != [] { CompareFlip(a[1..], b[1..]); }
  }

  /** A common prefix does not matter, a difference in equally long prefixes decides. */
  lemma {:induction false} CompareAppend(a: seq<byte>, b: seq<byte>, x: seq<byte>, y: seq<byte>)
    requires |a| == |b|
    ensures Compare(a + x, b + y) == if a == b then Compare(x, y) else Compare(a, b)
  {
    if a == [] {
      assert a + x == x && b + y == y;
    } else {
      assert (a + x)[1..] == a[1..] + x && (b + y)[1..] == b[1..] + y;
      CompareAppend(a[1..], b[1..], x, y);
      assert a == [a[0]] + a[1..] && b == [b[0]] + b[1..];
    }
  }

  /** A cut of `head + rest` falls inside `head` or leaves a cut of `rest`. */
  lemma {:induction false} SplitSlice(s: seq<byte>, i: nat, head: seq<byte>, rest: seq<byte>, n: nat)
    requires n <= |head| + |rest| && i + n == |s| && s[i..] == (head + rest)[..n]
    ensures if n < |head| then s[i..] == head[..n]
            else head <= s[i..] && s[i + |head|..] == rest[..n - |head|]
  {
    if n >= |head| {
      assert s[i..][..|head|] == head && s[i + |head|..] == s[i..][|head|..];
    }
  }

  /** Dropping the last element and the first `r` in either order. */
  lemma {:induction false} SliceInit<T>(s: seq<T>, r: nat)
    requires r < |s|
    ensures var n := |s| - 1; s[r..][..n - r] == s[..n][r..] && s[r..][n - r] == s[n]
  {
  }

  /** `n` in exactly `w` digits of the given base, most significant first; digit 0 is the byte `zero`. */
  function Digits(base: nat, zero: nat, n: nat, w: nat): (s: seq<byte>)
    requires (base == 10 || base == 256) && base + zero <= 256
    ensures |s| == w
  {
    if w == 0 then [] else Digits(base, zero, n / base, w - 1) + [zero + n % base]
  }

  function Power(base: nat, w: nat): (p: nat)
    ensures base > 0 ==> p > 0
  {
    if w == 0 then 1 else base * Power(base, w - 1)
  }

  /** Numbers that fit the width are ordered as their digit strings are. */
  lemma {:induction false} DigitsOrder(base: nat, zero: nat, m: nat, n: nat, w: nat)
    requires (base == 10 || base == 256) && base + zero <= 256
    requires m < Power(base, w) && n < Power(base, w)
    ensures Compare(Digits(base, zero, m, w), Digits(base, zero, n, w)) == CompareInt(m, n)
  {
    if w > 0 {
      QuotientFits(base, m, w);
      QuotientFits(base, n, w);
      DigitsOrder(base, zero, m / base, n / base, w - 1);
      DigitsOrderStep(base, zero, m, n, w);
    }
  }

  lemma {:induction false} DigitsOrderStep(base: nat, zero: nat, m: nat, n: nat, w: nat)
    requires (base == 10 || base == 256) && base + zero <= 256 && w > 0
    requires Compare(Digits(base, zero, m / base, w - 1), Digits(base, zero, n / base, w - 1))
             == CompareInt(m / base, n / base)
    ensures Compare(Digits(base, zero, m, w), Digits(base, zero, n, w)) == CompareInt(m, n)
  {
    var a, b := Digits(base, zero, m / base, w - 1), Digits(base, zero, n / base, w - 1);
    var x, y := m % base, n % base;
    QuotientOrder(base, m, n);
    LastDigitOrder(a, b, zero + x, zero + y);
    assert CompareInt(zero + x, zero + y) == CompareInt(x, y);
  }

  lemma {:induction false} LastDigitOrder(a: seq<byte>, b: seq<byte>, x: byte, y: byte)
    requires |a| == |b|
    ensures Compare(a + [x], b + [y]) == if Compare(a, b) == Equal then CompareInt(x, y) else Compare(a, b)
  {
    CompareAppend(a, b, [x], [y]);
    CompareEqual(a, b);
    assert Compare([x], [y]) == CompareInt(x, y);
  }

  lemma {:induction false} MulMonotone(b: nat, x: int, y: int)
    ensures x >= y ==> b * x >= b * y
  {
  }

  lemma {:induction false} QuotientFits(base: nat, n: nat, w: nat)
    requires (base == 10 || base == 256) && w > 0 && n < Power(base, w)
    ensures n / base < Power(base, w - 1)
  {
    MulMonotone(base, n / base, Power(base, w - 1));
  }

  /** Division with remainder orders numbers by quotient, then remainder. */
  lemma {:induction false} QuotientOrder(base: nat, m: nat, n: nat)
    requires base == 10 || base == 256
    ensures CompareInt(m, n) == if m / base == n / base then CompareInt(m % base, n % base)
                                else CompareInt(m / base, n / base)
  {
    assert m == base * (m / base) + m % base && n == base * (n / base) + n % base;
    MulMonotone(base, n / base, m / base + 1);
    MulMonotone(base, m / base, n / base + 1);
  }

  function BigEndian(n: nat, w: nat): (s: seq<byte>)
    ensures |s| == w
  {
    Digits(256, 0, n, w)
  }

  /** The value a loop of `value << 8 | byte` reads off. */
  function FromBigEndian(s: seq<byte>): nat {
    if s == [] then 0 else FromBigEndian(s[..|s| - 1]) * 256 + s[|s| - 1]
  }

  lemma {:induction false} BigEndianRoundTrip(n: nat, w: nat)
    requires n < Power(256, w)
    ensures FromBigEndian(BigEndian(n, w)) == n
  {
    if w > 0 {
      QuotientFits(256, n, w);
      BigEndianRoundTrip(n / 256, w - 1);
      assert BigEndian(n, w)[..w - 1] == BigEndian(n / 256, w - 1);
    }
  }

  lemma {:induction false} FromBigEndianRoundTrip(s: seq<byte>)
    ensures FromBigEndian(s) < Power(256, |s|)
    ensures BigEndian(FromBigEndian(s), |s|) == s
  {
    if s != [] {
      FromBigEndianRoundTrip(s[..|s| - 1]);
      assert FromBigEndian(s) / 256 == FromBigEndian(s[..|s| - 1]);
      assert FromBigEndian(s) % 256 == s[|s| - 1];
    }
  }

  function LittleEndian(n: nat, w: nat): (s: seq<byte>)
    ensures |s| == w
  {
    if w == 0 then [] else [n % 256] + LittleEndian(n / 256, w - 1)
  }

  function FromLittleEndian(s: seq<byte>): nat {
    if s == [] then 0 else s[0] + 256 * FromLittleEndian(s[1..])
  }

  lemma {:induction false} LittleEndianRoundTrip(n: nat, w: nat)
    requires n < Power(256, w)
    ensures FromLittleEndian(LittleEndian(n, w)) == n
  {
    if w > 0 {
      QuotientFits(256, n, w);
      LittleEndianRoundTrip(n / 256, w - 1);
      assert LittleEndian(n, w)[1..] == LittleEndian(n / 256, w - 1);
    }
  }

  lemma {:induction false} FromLittleEndianBound(s: seq<byte>)
    ensures FromLittleEndian(s) < Power(256, |s|)
  {
    if s != [] { FromLittleEndianBound(s[1..]); }
  }

  lemma {:induction false} FromLittleEndianRoundTrip(s: seq<byte>)
    ensures LittleEndian(FromLittleEndian(s), |s|) == s
  {
    if s != [] {
      FromLittleEndianRoundTrip(s[1..]);
      assert FromLittleEndian(s) / 256 == FromLittleEndian(s[1..]) && FromLittleEndian(s) % 256 == s[0];
    }
  }

  lemma {:induction false} FromBigEndianSplit(a: seq<byte>, b: seq<byte>)
    ensures FromBigEndian(a + b) == FromBigEndian(a) * Power(256, |b|) + FromBigEndian(b)
  {
    if b == [] {
      assert a + b == a;
    } else {
      var n := |b| - 1;
      FromBigEndianSplit(a, b[..n]);
      assert (a + b)[..|a| + n] == a + b[..n] && (a + b)[|a| + n] == b[n];
      Shifted(FromBigEndian(a), Power(256, n));
    }
  }

  lemma {:induction false} Shifted(x: nat, p: nat)
    ensures x * (256 * p) == x * p * 256
  {
  }

  lemma {:induction false} FromBigEndianZero(s: seq<byte>)
    ensures FromBigEndian(s) == 0 <==> forall i :: 0 <= i < |s| ==> s[i] == 0
  {
    if s != [] {
      FromBigEndianZero(s[..|s| - 1]);
      assert s == s[..|s| - 1] + [s[|s| - 1]];
    }
  }

  /** The 64-bit two's-complement reading: Rust's `as i64`, Go's `int(length)` and `int` addition. */
  function Wrap64(i: int): int {
    (i + U64 / 2) % U64 - U64 / 2
  }

  /** It is the one number in the signed 64-bit range that differs from `i` by a multiple of 2^64. */
  lemma {:induction false} Wrap64Exact(i: int, w: int)
    ensures Wrap64(i) == w <==> -0x8000_0000_0000_0000 <= w < 0x8000_0000_0000_0000 && (i - w) % U64 == 0
    ensures -0x8000_0000_0000_0000 <= i < 0x8000_0000_0000_0000 ==> Wrap64(i) == i
  {
    var q := (i + U64 / 2) / U64;
    assert i - Wrap64(i) == q * U64;
    if -0x8000_0000_0000_0000 <= w < 0x8000_0000_0000_0000 && (i - w) % U64 == 0 {
      var p := (i - w) / U64;
      assert i - w == p * U64 && w - Wrap64(i) == (q - p) * U64;
    }
  }

  lemma {:induction false} Powers()
    ensures Power(256, 1) == 0x100 && Power(256, 2) == 0x1_0000
    ensures Power(256, 4) == U32 && Power(256, 8) == U64
  {
    assert Power(256, 3) == 0x100_0000 by { assert Power(256, 2) == 0x1_0000; }
    assert Power(256, 6) == 0x1_0000_0000_0000 by { assert Power(256, 5) == 0x100_0000_0000; }
  }
}
