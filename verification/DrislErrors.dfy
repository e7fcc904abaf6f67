/** What each refusal of the DRISL validator says about the bytes it points at. */
module DrislErrors {
  import opened Bytes
  import opened DrislValue
  import opened Drisl
  import opened DrislExact
  import opened Utf8

  /** Bytes of argument that follow a head with additional information 24 to 27. */
  function ArgumentBytes(ai: nat): nat
    requires 24 <= ai <= 27
  {
    Power(2, ai - 24)
  }

  lemma {:induction false} WidthIsPower(ai: nat)
    requires 24 <= ai <= 27
    ensures ArgumentBytes(ai) == Width(ai)
  {
    assert Power(2, 3) == 8 by { assert Power(2, 2) == 4; }
  }

  /** A head is refused at its own offset, as indefinite for 31, as reserved for 28 to 30, as truncated when
      its argument runs past the end, and as non-minimal when a shorter head would carry it. */
  lemma {:induction false} HeadRefused(data: seq<byte>, offset: nat)
    requires offset < |data|
    ensures var ai, r, left := data[offset] % 32, Arg(data, offset), |data| - offset - 1;
            && (r.Err? ==> r.error.offset == offset)
            && (r == Fail(offset, Indefinite) <==> ai == 31)
            && (r == Fail(offset, ReservedInfo) <==> 28 <= ai < 31)
            && (r == Fail(offset, TruncatedArgument) <==> 24 <= ai < 28 && left < ArgumentBytes(ai))
            && (r == Fail(offset, NonMinimal) <==>
                  24 <= ai < 28 && left >= ArgumentBytes(ai) && ShorterFits(data, offset, ai))
            && (r.Err? ==> r.error.violation in {Indefinite, ReservedInfo, TruncatedArgument, NonMinimal})
  {
    hide FromBigEndian, Head, Power, ArgumentBytes, BigEndian;
    var ai := data[offset] % 32;
    if 24 <= ai < 28 {
      WidthIsPower(ai);
      if |data| - offset - 1 >= Width(ai) {
        var bytes := data[offset + 1..offset + 1 + Width(ai)];
        FromBigEndianRoundTrip(bytes);
        ShorterIsSmaller(ai, FromBigEndian(bytes));
      }
    }
  }

  /** The argument read there has a shorter head. */
  predicate ShorterFits(data: seq<byte>, offset: nat, ai: nat)
    requires 24 <= ai <= 27 && offset + 1 + ArgumentBytes(ai) <= |data|
  {
    var value := FromBigEndian(data[offset + 1..offset + 1 + ArgumentBytes(ai)]);
    value < U64 && |Head(0, value)| < 1 + ArgumentBytes(ai)
  }

  lemma {:induction false} ShorterIsSmaller(ai: nat, value: nat)
    requires 24 <= ai <= 27 && value < Power(256, Width(ai))
    ensures value < U64 && (|Head(0, value)| < 1 + Width(ai) <==> value < Minimal(ai))
  {
    hide Digits, Power;
    Powers();
  }

  // ---- floats and simple values ----

  const FRACTION: nat := 0x10_0000_0000_0000

  /** Sign, exponent and fraction of a binary64 as numbers. */
  lemma {:induction false} FloatFields(bits: seq<byte>)
    requires |bits| == 8
    ensures var n, a: int, b: int := FromBigEndian(bits), bits[0], bits[1];
            && n / FRACTION % 2048 == a % 128 * 16 + b / 16
            && (n % FRACTION == 0 <==> bits[1] % 16 == 0 && forall i :: 2 <= i < 8 ==> bits[i] == 0)
  {
    var rest := bits[2..];
    assert bits == [bits[0], bits[1]] + rest;
    FromBigEndianSplit([bits[0], bits[1]], rest);
    FromBigEndianPair(bits[0], bits[1]);
    FromBigEndianRoundTrip(rest);
    FromBigEndianZero(rest);
    assert Power(256, 6) == 0x1_0000_0000_0000 by { assert Power(256, 3) == 0x100_0000; }
    hide FromBigEndian, Power;
    forall i | 2 <= i < 8 ensures bits[i] == rest[i - 2] {}
    FieldsOf(bits[0], bits[1], FromBigEndian(rest), FromBigEndian(bits));
  }

  lemma {:induction false} FromBigEndianPair(a: byte, b: byte)
    ensures FromBigEndian([a, b]) == a * 256 + b
  {
    assert [a, b][..1] == [a] && [a][..0] == [];
    assert FromBigEndian([a]) == FromBigEndian([]) * 256 + a;
  }

  lemma {:induction false} FieldsOf(a: int, b: int, rest: nat, n: nat)
    requires 0 <= a < 256 && 0 <= b < 256 && rest < 0x1_0000_0000_0000 && n == (a * 256 + b) * 0x1_0000_0000_0000 + rest
    ensures n / FRACTION % 2048 == a % 128 * 16 + b / 16
    ensures n % FRACTION == 0 <==> b % 16 == 0 && rest == 0
  {
    var top := a * 16 + b / 16;
    assert n == top * FRACTION + (b % 16 * 0x1_0000_0000_0000 + rest);
  }

  /** Exponent all ones: an infinity without a fraction, NaN with one. */
  lemma {:induction false} NonFiniteExact(bits: seq<byte>)
    requires |bits| == 8
    ensures var n := FromBigEndian(bits);
            && (NonFinite(bits) <==> n / FRACTION % 2048 == 2047)
            && (IsNan(bits) <==> n / FRACTION % 2048 == 2047 && n % FRACTION != 0)
  {
    FloatFields(bits);
    hide FromBigEndian;
  }

  /** What stands for a major type 7 item: false, true and null in one byte, a finite binary64 in nine; each
      other byte has its own refusal. */
  lemma {:induction false} SimpleExact(data: seq<byte>, offset: nat)
    requires offset < |data|
    ensures var b, r := data[offset], SimpleItem(data, offset);
            var whole := offset + 9 <= |data|;
            var n := if whole then FromBigEndian(data[offset + 1..offset + 9]) else 0;
            && (r.Err? ==> r.error.offset == offset)
            && (r == Ok(Parsed(False, offset + 1)) <==> b == 0xf4)
            && (r == Ok(Parsed(True, offset + 1)) <==> b == 0xf5)
            && (r == Ok(Parsed(Null, offset + 1)) <==> b == 0xf6)
            && (b == 0xfb && whole && n / FRACTION % 2048 != 2047 ==>
                  r == Ok(Parsed(Float(data[offset + 1..offset + 9]), offset + 9)))
            && (r == Fail(offset, TruncatedFloat) <==> b == 0xfb && !whole)
            && (r == Fail(offset, NotANumber) <==>
                  b == 0xfb && whole && n / FRACTION % 2048 == 2047 && n % FRACTION != 0)
            && (r == Fail(offset, Infinite) <==>
                  b == 0xfb && whole && n / FRACTION % 2048 == 2047 && n % FRACTION == 0)
            && (r == Fail(offset, HalfFloat) <==> b == 0xf9) && (r == Fail(offset, SingleFloat) <==> b == 0xfa)
            && (r == Fail(offset, Undefined) <==> b == 0xf7) && (r == Fail(offset, BreakCode) <==> b == 0xff)
            && (r == Fail(offset, SimpleValue) <==> b < 0xf4 || b == 0xf8 || 0xfb < b < 0xff)
  {
    if offset + 9 <= |data| { NonFiniteExact(data[offset + 1..offset + 9]); }
    hide NonFinite, IsNan, FromBigEndian;
  }

  // ---- strings and tags ----

  /** A string's bytes are refused right after its head: too few, or text that encodes no sequence of Unicode
      scalars. */
  lemma {:induction false} StringRefused(data: seq<byte>, offset: nat)
    requires offset < |data| && (data[offset] / 32 == 2 || data[offset] / 32 == 3) && Arg(data, offset).Ok?
    ensures var a, r := Arg(data, offset).value, StringItem(data, offset);
            var fits := a.value <= |data| - a.end;
            && (r == Fail(a.end, TruncatedString) <==> !fits)
            && (r == Fail(a.end, BadUtf8) <==>
                  (fits && data[offset] / 32 == 3 &&
                   !exists cs :: Scalars(cs) && EncodeText(cs) == data[a.end..a.end + a.value]))
            && (r.Err? ==> r.error.offset == a.end)
  {
    hide Arg, ValidUtf8;
    var a := Arg(data, offset).value;
    if a.value <= |data| - a.end { ValidExactly(data[a.end..a.end + a.value]); }
  }

  /** A tag other than 42 is refused at the tag, content that is no byte string at the content, and a CID
      without the zero byte in front at the content's bytes. */
  lemma {:induction false} TagRefused(data: seq<byte>, offset: nat, depth: nat)
    requires offset < |data| && data[offset] / 32 == 6 && depth <= MAX_DEPTH && Arg(data, offset).Ok?
    ensures var a, r := Arg(data, offset).value, Item(data, offset, depth);
            && (a.value != 42 ==> r == Fail(offset, ForbiddenTag))
            && (a.value == 42 && (a.end == |data| || data[a.end] / 32 != 2) ==> r == Fail(a.end, TagNotBytes))
            && (a.value == 42 && Item(data, a.end, depth + 1).Ok? && data[a.end] / 32 == 2 ==>
                  var p := Item(data, a.end, depth + 1).value;
                  var c := p.value.b;
                  r == if c != [] && c[0] == 0 then Ok(Parsed(Cid(c[1..]), p.end)) else Fail(p.end - |c|, CidPrefix))
  {
    hide Arg, StringItem;
  }

  // ---- keys ----

  /** With a text key read, the order check compares it with the key before: a duplicate is the same key
      again, and unsorted is one that comes earlier in length-first order. */
  lemma {:induction false} KeyRefused(
      data: seq<byte>, offset: nat, depth: nat, prev: seq<byte>, key: seq<byte>, end: nat)
    requires |prev| < U64 && |key| < U64
    requires offset < |data| && data[offset] / 32 == 3 && Item(data, offset, depth) == Ok(Parsed(Text(key), end))
    ensures var r := OneEntry(data, offset, depth, Some(EncodeKey(prev)));
            && (key == prev ==> r == Fail(offset, DuplicateKey))
            && (LengthFirst(key, prev) == Less ==> r == Fail(offset, UnsortedKeys))
            && (r.Ok? <==> LengthFirst(prev, key) == Less && Item(data, end, depth).Ok?)
  {
    Sound(data, offset, depth);
    assert data[offset..end] == EncodeKey(key);
    EncodedKeyOrder(prev, key);
    EncodedKeyOrder(key, prev);
    CompareEqual(EncodeKey(prev), EncodeKey(key));
    CompareFlip(EncodeKey(key), EncodeKey(prev));
    hide Item, EncodeKey, Compare, LengthFirst;
  }
}
