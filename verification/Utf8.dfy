/** UTF-8, section 3 of RFC 3629: what the validator's well-formedness test accepts is exactly what encoding
    Unicode scalar values produces. */
module Utf8 {
  import opened Bytes
  import opened DrislValue

  /** A code point that is not a surrogate. */
  predicate Scalar(c: int) {
    0 <= c < 0xd800 || 0xe000 <= c < 0x11_0000
  }

  function EncodeScalar(c: int): (s: seq<byte>)
    requires Scalar(c)
  {
    if c < 0x80 then [c]
    else if c < 0x800 then [0xc0 + c / 0x40, 0x80 + c % 0x40]
    else if c < 0x1_0000 then [0xe0 + c / 0x40 / 0x40, 0x80 + c / 0x40 % 0x40, 0x80 + c % 0x40]
    else [0xf0 + c / 0x40 / 0x40 / 0x40, 0x80 + c / 0x40 / 0x40 % 0x40, 0x80 + c / 0x40 % 0x40, 0x80 + c % 0x40]
  }

  ghost predicate Scalars(cs: seq<int>) { forall i :: 0 <= i < |cs| ==> Scalar(cs[i]) }

  function EncodeText(cs: seq<int>): seq<byte>
    requires Scalars(cs)
  {
    if cs == [] then [] else EncodeScalar(cs[0]) + EncodeText(cs[1..])
  }

  /** The scalar a well-formed text begins with: six bits a byte after the first. */
  function FirstScalar(s: seq<byte>): int
    requires s != [] && ValidUtf8(s)
  {
    var first: int := s[0];
    if first < 0x80 then first
    else if first < 0xe0 then Push(first % 0x20, s[1])
    else if first < 0xf0 then Push(Push(first % 0x10, s[1]), s[2])
    else Push(Push(Push(first % 8, s[1]), s[2]), s[3])
  }

  function Push(c: int, b: int): int { c * 0x40 + b % 0x40 }

  lemma {:induction false} Pushed(c: nat, b: int)
    requires 0x80 <= b < 0xc0
    ensures Push(c, b) / 0x40 == c && 0x80 + Push(c, b) % 0x40 == b
  {
  }

  lemma {:induction false} ReadBack2(a: int, b: int)
    requires 0xc2 <= a < 0xe0 && 0x80 <= b < 0xc0
    ensures var c := Push(a % 0x20, b); Scalar(c) && EncodeScalar(c) == [a, b]
  {
    Pushed(a % 0x20, b);
  }

  lemma {:induction false} ReadBack3(a: int, b: int, d: int)
    requires 0xe0 <= a < 0xf0 && 0x80 <= b < 0xc0 && 0x80 <= d < 0xc0
    requires (a == 0xe0 ==> b >= 0xa0) && (a == 0xed ==> b <= 0x9f)
    ensures var c := Push(Push(a % 0x10, b), d); Scalar(c) && EncodeScalar(c) == [a, b, d]
  {
    Pushed(a % 0x10, b);
    Pushed(Push(a % 0x10, b), d);
  }

  lemma {:induction false} ReadBack4(a: int, b: int, d: int, e: int)
    requires 0xf0 <= a < 0xf5 && 0x80 <= b < 0xc0 && 0x80 <= d < 0xc0 && 0x80 <= e < 0xc0
    requires (a == 0xf0 ==> b >= 0x90) && (a == 0xf4 ==> b <= 0x8f)
    ensures var c := Push(Push(Push(a % 8, b), d), e); Scalar(c) && EncodeScalar(c) == [a, b, d, e]
  {
    Pushed(a % 8, b);
    Pushed(Push(a % 8, b), d);
    Pushed(Push(Push(a % 8, b), d), e);
  }

  lemma {:induction false} FirstIsWritten(s: seq<byte>)
    requires s != [] && ValidUtf8(s)
    ensures var c := FirstScalar(s);
            Scalar(c) && EncodeScalar(c) <= s && ValidUtf8(s[|EncodeScalar(c)|..])
  {
    if s[0] < 0x80 {
    } else if s[0] < 0xe0 {
      ReadBack2(s[0], s[1]);
      hide EncodeScalar, Push, Scalar;
    } else if s[0] < 0xf0 {
      ReadBack3(s[0], s[1], s[2]);
      hide EncodeScalar, Push, Scalar;
    } else {
      ReadBack4(s[0], s[1], s[2], s[3]);
      hide EncodeScalar, Push, Scalar;
    }
  }

  lemma {:induction false} Digit(c: nat)
    ensures Tail(0x80 + c % 0x40) && c == 0x40 * (c / 0x40) + c % 0x40
  {
  }

  lemma {:induction false} WrittenIsValid(c: int, rest: seq<byte>)
    requires Scalar(c)
    ensures ValidUtf8(EncodeScalar(c) + rest) <==> ValidUtf8(rest)
  {
    Digit(c);
    Digit(c / 0x40);
    Digit(c / 0x40 / 0x40);
    var s := EncodeScalar(c) + rest;
    assert s[|EncodeScalar(c)|..] == rest;
  }

  /** Every well-formed text is the encoding of some scalars. */
  lemma {:induction false} Scanned(s: seq<byte>) returns (cs: seq<int>)
    requires ValidUtf8(s)
    ensures Scalars(cs) && EncodeText(cs) == s
  {
    cs := [];
    if s != [] {
      FirstIsWritten(s);
      var c := FirstScalar(s);
      var rest := Scanned(s[|EncodeScalar(c)|..]);
      hide EncodeScalar, ValidUtf8, FirstScalar, Scalar;
      cs := [c] + rest;
      assert cs[1..] == rest && s == EncodeScalar(c) + s[|EncodeScalar(c)|..];
    }
  }

  lemma {:induction false} TextIsValid(cs: seq<int>)
    requires Scalars(cs)
    ensures ValidUtf8(EncodeText(cs))
  {
    if cs != [] {
      hide EncodeScalar, Scalar;
      TextIsValid(cs[1..]);
      WrittenIsValid(cs[0], EncodeText(cs[1..]));
    }
  }

  /** Text is well-formed exactly when it is the encoding of a sequence of Unicode scalar values. */
  lemma {:induction false} ValidExactly(s: seq<byte>)
    ensures ValidUtf8(s) <==> exists cs :: Scalars(cs) && EncodeText(cs) == s
  {
    if ValidUtf8(s) { var cs := Scanned(s); }
    if cs :| Scalars(cs) && EncodeText(cs) == s { TextIsValid(cs); }
  }
}
