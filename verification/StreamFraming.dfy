/** The Go client's wire framing (varint.go, client.go): QUIC variable-length integers of section 16
    of RFC 9000, sized reads, the group header, and the frames of a group under truncation. */
module StreamFraming {
  import opened Bytes
  import opened Subscription

  const MAX_UVARINT: nat := 0x3fff_ffff_ffff_ffff
  const MAX_FRAME: nat := 16 * 0x10_0000
  const MAX_HEADER: nat := 0x1000
  const CHUNK: nat := 64 * 0x400

  // ---- variable-length integers ----

  /** `appendUvarint`; None where the code panics. */
  function AppendUvarint(b: seq<byte>, x: u64): Option<seq<byte>> {
    if x < 0x40 then Some(b + [x])
    else if x < 0x4000 then Some(b + [0x40 + x / 0x100, x % 0x100])
    else if x < 0x4000_0000 then
      Some(b + [0x80 + x / 0x100_0000, x / 0x1_0000 % 0x100, x / 0x100 % 0x100, x % 0x100])
    else if x <= MAX_UVARINT then
      Some(b + [0xc0 + x / 0x100_0000_0000_0000, x / 0x1_0000_0000_0000 % 0x100, x / 0x100_0000_0000 % 0x100,
                x / 0x1_0000_0000 % 0x100, x / 0x100_0000 % 0x100, x / 0x1_0000 % 0x100, x / 0x100 % 0x100, x % 0x100])
    else None
  }

  function Uvarint(x: nat): seq<byte>
    requires x <= MAX_UVARINT
  {
    AppendUvarint([], x).value
  }

  function Width(x: nat): nat {
    if x < 0x40 then 1 else if x < 0x4000 then 2 else if x < 0x4000_0000 then 4 else 8
  }

  /** A read from a stream: a value and the position after it, the end of the stream before the first
      byte, or an end inside the value. */
  datatype Read<+T> = Got(value: T, next: nat) | Eof | UnexpectedEof

  /** The number of bytes the top two bits of the first one announce. */
  function Announced(first: byte): (w: nat)
    ensures w == 1 || w == 2 || w == 4 || w == 8
  {
    match first / 64 case 0 => 1 case 1 => 2 case 2 => 4 case _ => 8
  }

  function UvarintAt(s: seq<byte>, i: nat): (r: Read<nat>)
    requires i <= |s|
    ensures r.Got? ==> i < r.next <= |s|
  {
    if i == |s| then Eof
    else if |s| - i < Announced(s[i]) then UnexpectedEof
    else Got(FromBigEndian([s[i] % 64] + s[i + 1..i + Announced(s[i])]), i + Announced(s[i]))
  }

  /** Marks added to the first byte for each width. */
  function Mark(w: nat): byte {
    match w case 1 => 0 case 2 => 0x40 case 4 => 0x80 case _ => 0xc0
  }

  lemma {:induction false} BigEndianPair(n: nat, w: nat)
    ensures BigEndian(n, w + 2) == BigEndian(n / 0x1_0000, w) + [n / 0x100 % 0x100, n % 0x100]
  {
    assert n / 0x100 / 0x100 == n / 0x1_0000;
    assert BigEndian(n, w + 2) == BigEndian(n / 0x100, w + 1) + [n % 0x100];
    assert BigEndian(n / 0x100, w + 1) == BigEndian(n / 0x100 / 0x100, w) + [n / 0x100 % 0x100];
  }

  lemma {:induction false} BigEndianQuad(n: nat, w: nat)
    ensures BigEndian(n, w + 4) == BigEndian(n / 0x1_0000_0000, w)
              + [n / 0x100_0000 % 0x100, n / 0x1_0000 % 0x100, n / 0x100 % 0x100, n % 0x100]
  {
    var m := n / 0x1_0000;
    BigEndianPair(n, w + 2);
    BigEndianPair(m, w);
    assert m / 0x1_0000 == n / 0x1_0000_0000 && m / 0x100 == n / 0x100_0000;
  }

  lemma {:induction false} ShiftPast32(x: nat)
    ensures var m := x / 0x1_0000_0000;
      && m / 0x100_0000 == x / 0x100_0000_0000_0000 && m / 0x1_0000 == x / 0x1_0000_0000_0000
      && m / 0x100 == x / 0x100_0000_0000
  {
  }

  /** `x` shifted right by each multiple of 8 bits below 64, taken modulo a byte. */
  function EightBytes(x: nat): seq<byte> {
    [x / 0x100_0000_0000_0000 % 0x100, x / 0x1_0000_0000_0000 % 0x100, x / 0x100_0000_0000 % 0x100,
     x / 0x1_0000_0000 % 0x100, x / 0x100_0000 % 0x100, x / 0x1_0000 % 0x100, x / 0x100 % 0x100, x % 0x100]
  }

  lemma {:induction false} BigEndianEight(x: nat)
    ensures BigEndian(x, 8) == EightBytes(x)
  {
    hide Digits;
    var m := x / 0x1_0000_0000;
    ShiftPast32(x);
    BigEndianQuad(x, 4);
    BigEndianQuad(m, 0);
    assert BigEndian(m / 0x1_0000_0000, 0) == [];
  }

  lemma {:induction false} UvarintLong(x: nat)
    requires 0x4000_0000 <= x <= MAX_UVARINT
    ensures EightBytes(x)[0] < 64 && Uvarint(x) == [0xc0 + EightBytes(x)[0]] + EightBytes(x)[1..]
  {
    assert x / 0x100_0000_0000_0000 < 64;
    assert x / 0x100_0000_0000_0000 % 0x100 == x / 0x100_0000_0000_0000;
  }

  lemma {:induction false} NoDigits(n: nat)
    ensures BigEndian(n, 0) == []
  {
  }

  lemma {:induction false} OneDigit(n: nat)
    requires n < 0x100
    ensures BigEndian(n, 1) == [n]
  {
    assert BigEndian(n, 1) == BigEndian(0, 0) + [n];
  }

  /** The bytes of every form are the number in big-endian order, the first one marked with the width. */
  lemma {:induction false} UvarintBigEndian(x: nat)
    requires x <= MAX_UVARINT
    ensures x < Power(256, Width(x)) && BigEndian(x, Width(x))[0] < 64
    ensures Uvarint(x) == [Mark(Width(x)) + BigEndian(x, Width(x))[0]] + BigEndian(x, Width(x))[1..]
  {
    hide Digits, Power, BigEndian;
    Powers();
    NoDigits(x / 0x1_0000);
    NoDigits(x / 0x1_0000_0000);
    if Width(x) == 1 {
      OneDigit(x);
    } else if Width(x) == 2 {
      BigEndianPair(x, 0);
    } else if Width(x) == 4 {
      BigEndianQuad(x, 0);
    } else {
      BigEndianEight(x);
      UvarintLong(x);
    }
  }

  /** A value reads back from any surroundings, and the read ends right after it. */
  lemma {:induction false} UvarintRoundTrip(s: seq<byte>, i: nat, x: nat)
    requires x <= MAX_UVARINT && i + Width(x) <= |s| && s[i..i + Width(x)] == Uvarint(x)
    ensures UvarintAt(s, i) == Got(x, i + Width(x))
  {
    hide Uvarint, FromBigEndian, Digits;
    var w := Width(x);
    var digits := BigEndian(x, w);
    UvarintBigEndian(x);
    BigEndianRoundTrip(x, w);
    assert s[i] == s[i..i + w][0] && s[i + 1..i + w] == s[i..i + w][1..];
    assert [digits[0]] + digits[1..] == digits;
  }

  /** A value cut short is never read as another: the read says so, and tells a stream that ended
      before it from one that ended inside it. */
  lemma {:induction false} UvarintTruncated(s: seq<byte>, i: nat, x: nat)
    requires x <= MAX_UVARINT && i <= |s| < i + Width(x) && s[i..] == Uvarint(x)[..|s| - i]
    ensures UvarintAt(s, i) == if |s| == i then Eof else UnexpectedEof
  {
    hide Uvarint, FromBigEndian, Digits;
    UvarintBigEndian(x);
    if i < |s| { assert s[i] == s[i..][0]; }
  }

  /** Every value read fits 62 bits, and `appendUvarint` writes the shortest form a reader takes for it. */
  lemma {:induction false} UvarintShortest(s: seq<byte>, i: nat)
    requires i <= |s| && UvarintAt(s, i).Got?
    ensures UvarintAt(s, i).value <= MAX_UVARINT && i + Width(UvarintAt(s, i).value) <= UvarintAt(s, i).next
  {
    var w := Announced(s[i]);
    FirstDigitBound(s[i] % 64, s[i + 1..i + w]);
    Powers();
    assert Power(256, 3) == 0x100_0000 && Power(256, 7) == 0x100_0000_0000_0000 by {
      assert Power(256, 6) == 256 * Power(256, 5) && Power(256, 5) == 256 * Power(256, 4);
    }
  }

  lemma {:induction false} FirstDigitBound(d: byte, rest: seq<byte>)
    ensures FromBigEndian([d] + rest) < (d + 1) * Power(256, |rest|)
  {
    if rest == [] {
      assert [d] + rest == [d] && FromBigEndian([d][..0]) == 0;
    } else {
      var n := |rest| - 1;
      FirstDigitBound(d, rest[..n]);
      assert ([d] + rest)[..n + 1] == [d] + rest[..n];
      var p, v := Power(256, n), FromBigEndian([d] + rest[..n]);
      assert (d + 1) * Power(256, n + 1) == 256 * ((d + 1) * p);
    }
  }

  // ---- frames of a group ----

  /** What `readSized` sees: `size` bytes, or an end inside them. */
  function SizedAt(s: seq<byte>, i: nat, size: nat): (r: Read<seq<byte>>)
    requires i <= |s|
    ensures r.Got? ==> i <= r.next <= |s|
  {
    if size <= |s| - i then Got(s[i..i + size], i + size) else UnexpectedEof
  }

  datatype Group = Group(frames: seq<seq<byte>>, ending: Ending)

  /** The frames `readGroup` finds from `i` on, and why it stops. */
  function GroupAt(s: seq<byte>, i: nat): Group
    requires i <= |s|
    decreases |s| - i
  {
    match UvarintAt(s, i)
    case Eof => Group([], Fin)
    case UnexpectedEof => Group([], ReadError)
    case Got(size, j) =>
      if size > MAX_FRAME then Group([], Oversize) else
        match SizedAt(s, j, size)
        case Got(data, k) => var rest := GroupAt(s, k); Group([data] + rest.frames, rest.ending)
        case _ => Group([], ReadError)
  }

  lemma {:induction false} GroupUnfolds(s: seq<byte>, i: nat)
    requires i <= |s|
    ensures match UvarintAt(s, i)
      case Eof => GroupAt(s, i) == Group([], Fin)
      case UnexpectedEof => GroupAt(s, i) == Group([], ReadError)
      case Got(size, j) =>
        if size > MAX_FRAME then GroupAt(s, i) == Group([], Oversize)
        else match SizedAt(s, j, size)
          case Got(data, k) =>
            k <= |s| && GroupAt(s, i) == Group([data] + GroupAt(s, k).frames, GroupAt(s, k).ending)
          case _ => GroupAt(s, i) == Group([], ReadError)
  {
  }

  predicate Sendable(frames: seq<seq<byte>>) {
    forall f :: f in frames ==> |f| <= MAX_FRAME
  }

  /** What a publisher puts on a group stream: every frame behind its length. */
  function Encoded(frames: seq<seq<byte>>): seq<byte>
    requires Sendable(frames)
  {
    if frames == [] then [] else Uvarint(|frames[0]|) + frames[0] + Encoded(frames[1..])
  }

  /** How many frames lie wholly within the first `n` bytes. */
  function WholeFrames(frames: seq<seq<byte>>, n: nat): (k: nat)
    ensures k <= |frames|
  {
    if frames == [] || n < Width(|frames[0]|) + |frames[0]| then 0
    else 1 + WholeFrames(frames[1..], n - Width(|frames[0]|) - |frames[0]|)
  }

  lemma {:induction false} EncodedAppend(frames: seq<seq<byte>>, more: seq<seq<byte>>)
    requires Sendable(frames) && Sendable(more)
    ensures Sendable(frames + more) && Encoded(frames + more) == Encoded(frames) + Encoded(more)
  {
    hide Uvarint;
    if frames == [] {
      assert frames + more == more;
    } else {
      EncodedAppend(frames[1..], more);
      assert (frames + more)[1..] == frames[1..] + more;
    }
  }

  lemma {:induction false} UvarintWidth(x: nat)
    requires x <= MAX_UVARINT
    ensures |Uvarint(x)| == Width(x)
  {
  }

  lemma {:induction false} EncodedFirst(frames: seq<seq<byte>>, k: nat)
    requires Sendable(frames) && k < |frames|
    ensures frames[..k + 1] == [frames[0]] + frames[1..][..k]
    ensures Encoded(frames[..k + 1]) == Uvarint(|frames[0]|) + frames[0] + Encoded(frames[1..][..k])
  {
    assert frames[..k + 1][1..] == frames[1..][..k];
  }

  /** `WholeFrames` means what it says: that many encode into `n` bytes and one more does not. */
  lemma {:induction false} WholeFramesExact(frames: seq<seq<byte>>, n: nat)
    requires Sendable(frames)
    ensures var k := WholeFrames(frames, n);
      |Encoded(frames[..k])| <= n && (k < |frames| ==> n < |Encoded(frames[..k + 1])|)
  {
    hide Uvarint, Encoded;
    var k := WholeFrames(frames, n);
    assert Encoded(frames[..0]) == [] by { EncodedNone(frames[..0]); }
    if frames != [] {
      var m := Width(|frames[0]|) + |frames[0]|;
      UvarintWidth(|frames[0]|);
      EncodedNone(frames[1..][..0]);
      if k < |frames| { EncodedFirst(frames, k); }
      if n >= m {
        WholeFramesExact(frames[1..], n - m);
        EncodedFirst(frames, k - 1);
      }
    }
  }

  lemma {:induction false} EncodedNone(frames: seq<seq<byte>>)
    requires frames == []
    ensures Encoded(frames) == []
  {
  }

  /** A complete frame at `i` is read whole. */
  lemma {:induction false} GroupStep(s: seq<byte>, i: nat, f: seq<byte>)
    requires |f| <= MAX_FRAME && i <= |s| && Uvarint(|f|) + f <= s[i..]
    ensures i + Width(|f|) + |f| <= |s|
    ensures var rest := GroupAt(s, i + Width(|f|) + |f|); GroupAt(s, i) == Group([f] + rest.frames, rest.ending)
  {
    hide Uvarint, UvarintAt;
    UvarintWidth(|f|);
    var w := Width(|f|);
    TwoParts(s, i, Uvarint(|f|), f);
    UvarintRoundTrip(s, i, |f|);
  }

  lemma {:induction false} TwoParts(s: seq<byte>, i: nat, a: seq<byte>, b: seq<byte>)
    requires i <= |s| && a + b <= s[i..]
    ensures i + |a| + |b| <= |s| && s[i..i + |a|] == a && s[i + |a|..i + |a| + |b|] == b
  {
    var both := s[i..i + |a| + |b|];
    assert both == s[i..][..|a| + |b|] == a + b;
    assert both[..|a|] == a && both[|a|..] == b;
  }

  /** A frame cut anywhere before its last byte is dropped; only a cut before its first byte looks
      like the end of the group. */
  lemma {:induction false} GroupCut(s: seq<byte>, i: nat, f: seq<byte>)
    requires |f| <= MAX_FRAME && i <= |s| < i + Width(|f|) + |f|
    requires s[i..] == (Uvarint(|f|) + f)[..|s| - i]
    ensures GroupAt(s, i) == Group([], if i == |s| then Fin else ReadError)
  {
    hide Uvarint, UvarintAt;
    UvarintWidth(|f|);
    var w := Width(|f|);
    if |s| - i < w {
      assert s[i..] == Uvarint(|f|)[..|s| - i];
      UvarintTruncated(s, i, |f|);
    } else {
      FirstPart(s, i, Uvarint(|f|), f);
      UvarintRoundTrip(s, i, |f|);
    }
  }

  lemma {:induction false} FirstPart(s: seq<byte>, i: nat, a: seq<byte>, b: seq<byte>)
    requires i + |a| <= |s| <= i + |a| + |b| && s[i..] == (a + b)[..|s| - i]
    ensures s[i..i + |a|] == a
  {
    assert s[i..i + |a|] == s[i..][..|a|] && (a + b)[..|s| - i][..|a|] == a;
  }

  /** The first of several frames, cut or whole. */
  lemma {:induction false} FirstFrame(s: seq<byte>, i: nat, f: seq<byte>, rest: seq<byte>, n: nat)
    requires |f| <= MAX_FRAME && n <= Width(|f|) + |f| + |rest| && i + n == |s|
    requires s[i..] == (Uvarint(|f|) + f + rest)[..n]
    ensures var m := Width(|f|) + |f|;
      if n < m then GroupAt(s, i) == Group([], if n == 0 then Fin else ReadError)
      else
        && s[i + m..] == rest[..n - m]
        && GroupAt(s, i) == Group([f] + GroupAt(s, i + m).frames, GroupAt(s, i + m).ending)
  {
    UvarintWidth(|f|);
    hide *;
    var head := Uvarint(|f|) + f;
    SplitSlice(s, i, head, rest, n);
    if n < |head| {
      GroupCut(s, i, f);
    } else {
      GroupStep(s, i, f);
    }
  }

  /** Frames cut at any byte: exactly the complete ones are delivered, and the group ends cleanly
      exactly when the cut falls between frames. */
  lemma {:induction false} TruncatedAt(s: seq<byte>, i: nat, frames: seq<seq<byte>>, n: nat)
    requires Sendable(frames) && n <= |Encoded(frames)| && i + n == |s| && s[i..] == Encoded(frames)[..n]
    ensures var k := WholeFrames(frames, n);
      GroupAt(s, i) == Group(frames[..k], if n == |Encoded(frames[..k])| then Fin else ReadError)
    decreases |frames|
  {
    hide Uvarint, UvarintAt, GroupAt, Encoded, WholeFrames, Width;
    WholeFirst(frames, n);
    if frames == [] {
      EmptyGroup(s);
    } else {
      var f, rest := frames[0], Encoded(frames[1..]);
      var m := Width(|f|) + |f|;
      FirstFrame(s, i, f, rest, n);
      if n >= m { TruncatedAt(s, i + m, frames[1..], n - m); }
    }
  }

  /** How many frames are whole, by the first one. */
  lemma {:induction false} WholeFirst(frames: seq<seq<byte>>, n: nat)
    requires Sendable(frames) && n <= |Encoded(frames)|
    ensures var k := WholeFrames(frames, n);
            && Encoded(frames[..0]) == [] && frames[..0] == []
            && (frames == [] ==> n == 0 == k)
            && (frames != [] ==>
                  var f := frames[0];
                  var m := Width(|f|) + |f|;
                  && Encoded(frames) == Uvarint(|f|) + f + Encoded(frames[1..])
                  && |Encoded(frames)| == m + |Encoded(frames[1..])|
                  && if n < m then k == 0 else
                       var l := WholeFrames(frames[1..], n - m);
                       && k == l + 1 && frames[..k] == [f] + frames[1..][..l]
                       && |Encoded(frames[..k])| == m + |Encoded(frames[1..][..l])|)
  {
    EncodedNone(frames[..0]);
    if frames != [] {
      UvarintWidth(|frames[0]|);
      hide Uvarint, Width;
      if WholeFrames(frames, n) > 0 { EncodedFirst(frames, WholeFrames(frames, n) - 1); }
    }
  }

  lemma {:induction false} EmptyGroup(s: seq<byte>)
    ensures GroupAt(s, |s|) == Group([], Fin)
  {
  }

  /** A group stream of published frames of which the first `n` bytes arrive: the frames it yields. */
  lemma {:induction false} Truncated(frames: seq<seq<byte>>, n: nat)
    requires Sendable(frames) && n <= |Encoded(frames)|
    ensures var k := WholeFrames(frames, n);
      && |Encoded(frames[..k])| <= n && (k < |frames| ==> n < |Encoded(frames[..k + 1])|)
      && GroupAt(Encoded(frames)[..n], 0).frames == frames[..k]
      && (GroupAt(Encoded(frames)[..n], 0).ending == Fin <==> n == |Encoded(frames[..k])|)
  {
    var s := Encoded(frames)[..n];
    assert s[0..] == s;
    TruncatedAt(s, 0, frames, n);
    WholeFramesExact(frames, n);
  }

  /** A length above the cap ends the group after the frames before it, whatever follows. */
  lemma {:induction false} OversizeStops(s: seq<byte>, i: nat, frames: seq<seq<byte>>, size: nat)
    requires Sendable(frames) && MAX_FRAME < size <= MAX_UVARINT && i <= |s|
    requires Encoded(frames) + Uvarint(size) <= s[i..]
    ensures GroupAt(s, i) == Group(frames, Oversize)
    decreases |frames|
  {
    hide Uvarint, UvarintAt, GroupAt;
    UvarintWidth(size);
    if frames == [] {
      assert s[i..i + Width(size)] == s[i..][..Width(size)] == Uvarint(size);
      UvarintRoundTrip(s, i, size);
      TooLong(s, i, size);
    } else {
      var f := frames[0];
      UvarintWidth(|f|);
      var m := Width(|f|) + |f|;
      assert Encoded(frames) + Uvarint(size) == (Uvarint(|f|) + f) + (Encoded(frames[1..]) + Uvarint(size));
      GroupStep(s, i, f);
      assert s[i + m..] == s[i..][m..];
      OversizeStops(s, i + m, frames[1..], size);
      assert frames == [f] + frames[1..];
    }
  }

  lemma {:induction false} TooLong(s: seq<byte>, i: nat, size: nat)
    requires i <= |s| && UvarintAt(s, i).Got? && UvarintAt(s, i).value == size > MAX_FRAME
    ensures GroupAt(s, i) == Group([], Oversize)
  {
  }

  lemma {:induction false} OneByte(b: byte)
    ensures FromBigEndian([b]) == b
  {
    assert [b][..0] == [];
  }

  lemma {:induction false} NextByte(s: seq<byte>, b: byte)
    ensures FromBigEndian(s + [b]) == FromBigEndian(s) * 256 + b
  {
    assert (s + [b])[..|s|] == s;
  }

  // ---- the reader's loops ----

  /** A buffered stream: `data` is everything that will arrive before it ends. */
  class Reader {
    const data: seq<byte>
    var pos: nat

    ghost predicate Valid()
      reads this
    {
      pos <= |data|
    }

    constructor (data: seq<byte>)
      ensures Valid() && this.data == data && pos == 0
    {
      this.data := data;
      pos := 0;
    }

    /** `io.ReadFull`: all of `n` bytes, or an error after consuming what there was. */
    method ReadFull(n: nat) returns (r: Read<seq<byte>>)
      requires Valid()
      modifies this
      ensures Valid()
      ensures n <= |data| - old(pos) ==> r == Got(data[old(pos)..old(pos) + n], pos) && pos == old(pos) + n
      ensures n > |data| - old(pos) ==> pos == |data| && r == if old(pos) == |data| then Eof else UnexpectedEof
    {
      if n <= |data| - pos {
        r := Got(data[pos..pos + n], pos + n);
        pos := pos + n;
      } else {
        r := if pos == |data| then Eof else UnexpectedEof;
        pos := |data|;
      }
    }

    method ReadUvarint() returns (r: Read<nat>)
      requires Valid()
      modifies this
      ensures Valid() && r == UvarintAt(data, old(pos))
      ensures pos == if r.Got? then r.next else |data|
    {
      hide FromBigEndian, Announced;
      var at := pos;
      var first := ReadFull(1);
      if !first.Got? { return Eof; }
      var length := Announced(first.value[0]);
      var val: nat := first.value[0] % 64;
      ghost var lead := [first.value[0] % 64];
      OneByte(first.value[0] % 64);
      if length == 1 {
        assert lead + data[at + 1..at + 1] == lead;
        return Got(val, pos);
      }
      var rest := ReadFull(length - 1);
      if !rest.Got? { return UnexpectedEof; }
      assert lead + rest.value[..0] == lead;
      for i := 0 to |rest.value|
        invariant pos == at + length <= |data| && val == FromBigEndian(lead + rest.value[..i])
      {
        NextByte(lead + rest.value[..i], rest.value[i]);
        assert lead + rest.value[..i] + [rest.value[i]] == lead + rest.value[..i + 1];
        val := val * 256 + rest.value[i];
      }
      assert rest.value[..|rest.value|] == rest.value;
      return Got(val, pos);
    }

    /** `peak` is the most the buffer ever held beyond the bytes that had arrived by then. */
    method ReadSized(size: nat) returns (r: Read<seq<byte>>, ghost peak: nat)
      requires Valid()
      modifies this
      ensures Valid() && r == SizedAt(data, old(pos), size) && peak <= CHUNK
      ensures pos == if r.Got? then r.next else |data|
    {
      peak := 0;
      var buf: seq<byte> := [];
      while |buf| < size
        invariant pos <= |data| && pos == old(pos) + |buf| && |buf| <= size && peak <= CHUNK
        invariant buf == data[old(pos)..pos]
      {
        var chunk := if size - |buf| < CHUNK then size - |buf| else CHUNK;
        peak := Max(peak, chunk);
        var got := ReadFull(chunk);
        if !got.Got? { return UnexpectedEof, peak; }
        buf := buf + got.value;
      }
      return Got(buf, pos), peak;
    }

    /** `dispatchGroupStream` up to the lookup of the subscription; None when the stream is cancelled. */
    method ReadHeader() returns (r: Option<Header>)
      requires Valid() && pos == 0
      modifies this
      ensures Valid() && r == HeaderAt(data)
      ensures r.Some? ==> pos == r.value.next
    {
      hide UvarintAt;
      var kind := ReadUvarint();
      if !kind.Got? || kind.value != 0 { return None; }
      var size := ReadUvarint();
      if !size.Got? || size.value > MAX_HEADER { return None; }
      var hdr := ReadFull(size.value);
      if !hdr.Got? { return None; }
      var hr := new Reader(hdr.value);
      var id := hr.ReadUvarint();
      if !id.Got? { return None; }
      var seqNo := hr.ReadUvarint();
      if !seqNo.Got? { return None; }
      return Some(Header(id.value, seqNo.value, pos));
    }

    /** `readGroup` with deliveries that succeed until the subscription closes, after `open` of them. */
    method ReadGroup(open: nat) returns (delivered: seq<seq<byte>>, ending: Option<Ending>)
      requires Valid()
      modifies this
      ensures Valid()
      ensures var g := GroupAt(data, old(pos));
              if |g.frames| <= open then delivered == g.frames && ending == Some(g.ending)
              else delivered == g.frames[..open] && ending == None
    {
      delivered := [];
      while true
        invariant Valid() && |delivered| <= open
        invariant GroupAt(data, old(pos)) == Group(delivered + GroupAt(data, pos).frames, GroupAt(data, pos).ending)
        decreases |data| - pos
      {
        hide GroupAt, UvarintAt, SizedAt;
        ghost var i := pos;
        GroupUnfolds(data, i);
        var size := ReadUvarint();
        if size.Eof? { return delivered, Some(Fin); }
        if size.UnexpectedEof? { return delivered, Some(ReadError); }
        if size.value > MAX_FRAME { return delivered, Some(Oversize); }
        var frame, _ := ReadSized(size.value);
        if !frame.Got? { return delivered, Some(ReadError); }
        ghost var rest := GroupAt(data, pos);
        assert delivered + ([frame.value] + rest.frames) == delivered + [frame.value] + rest.frames;
        if |delivered| == open { return delivered, None; }
        delivered := delivered + [frame.value];
      }
    }
  }

  // ---- from the wire to the subscription ----

  /** The stream the subscription takes when `bytes` of a group arrive after the header. */
  function Received(seqNo: nat, bytes: seq<byte>): GroupStream {
    var g := GroupAt(bytes, 0);
    GroupStream(seqNo, g.frames, g.ending)
  }

  /** A group that arrives whole reaches the subscription as it was published. */
  lemma {:induction false} ReceivedWhole(seqNo: nat, frames: seq<seq<byte>>)
    requires Sendable(frames)
    ensures Received(seqNo, Encoded(frames)) == GroupStream(seqNo, frames, Fin)
  {
    hide *;
    var n := |Encoded(frames)|;
    var k := WholeFrames(frames, n);
    Truncated(frames, n);
    EncodedPrefix(frames, if k < |frames| then k + 1 else k);
    assert Encoded(frames)[..n] == Encoded(frames) && frames[..|frames|] == frames;
    assert Sendable(frames[..k]);
    var g := GroupAt(Encoded(frames), 0);
    assert g.frames == frames && g.ending == Fin;
    ReceivedIs(seqNo, Encoded(frames));
  }

  /** One with an oversized frame reaches it as the frames before that and an ending that fails it. */
  lemma {:induction false} ReceivedOversize(seqNo: nat, frames: seq<seq<byte>>, size: nat, rest: seq<byte>)
    requires Sendable(frames) && MAX_FRAME < size <= MAX_UVARINT
    ensures Received(seqNo, Encoded(frames) + Uvarint(size) + rest) == GroupStream(seqNo, frames, Oversize)
  {
    var s := Encoded(frames) + Uvarint(size) + rest;
    assert s[0..] == s;
    OversizeStops(s, 0, frames, size);
  }

  lemma {:induction false} ReceivedIs(seqNo: nat, bytes: seq<byte>)
    ensures var g := GroupAt(bytes, 0); Received(seqNo, bytes) == GroupStream(seqNo, g.frames, g.ending)
  {
  }

  lemma {:induction false} EncodedPrefix(frames: seq<seq<byte>>, k: nat)
    requires Sendable(frames) && k <= |frames|
    ensures Sendable(frames[..k]) && |Encoded(frames[..k])| <= |Encoded(frames)|
  {
    assert frames[..k] + frames[k..] == frames;
    EncodedAppend(frames[..k], frames[k..]);
  }

  datatype Header = Header(subscription: nat, seqNo: nat, next: nat)

  /** `dispatchGroupStream`: the stream type and the size-prefixed header; None when it is cancelled. */
  function HeaderAt(s: seq<byte>): Option<Header> {
    match UvarintAt(s, 0)
    case Got(kind, i) =>
      if kind != 0 then None else
        (match UvarintAt(s, i)
         case Got(size, j) =>
           if size > MAX_HEADER then None else
             (match SizedAt(s, j, size)
              case Got(hdr, k) =>
                (match UvarintAt(hdr, 0)
                 case Got(id, a) =>
                   (match UvarintAt(hdr, a)
                    case Got(seqNo, _) => Some(Header(id, seqNo, k))
                    case _ => None)
                 case _ => None)
              case _ => None)
         case _ => None)
    case _ => None
  }

  function HeaderBody(id: nat, seqNo: nat): seq<byte>
    requires id <= MAX_UVARINT && seqNo <= MAX_UVARINT
  {
    Uvarint(id) + Uvarint(seqNo)
  }

  function GroupHeader(id: nat, seqNo: nat): seq<byte>
    requires id <= MAX_UVARINT && seqNo <= MAX_UVARINT
  {
    [0, |HeaderBody(id, seqNo)|] + HeaderBody(id, seqNo)
  }

  lemma {:induction false} BodyRoundTrip(id: nat, seqNo: nat)
    requires id <= MAX_UVARINT && seqNo <= MAX_UVARINT
    ensures var hdr := HeaderBody(id, seqNo);
      && |hdr| == Width(id) + Width(seqNo)
      && UvarintAt(hdr, 0) == Got(id, Width(id)) && UvarintAt(hdr, Width(id)) == Got(seqNo, |hdr|)
  {
    hide UvarintAt;
    UvarintWidth(id);
    UvarintWidth(seqNo);
    UvarintRoundTrip(HeaderBody(id, seqNo), 0, id);
    UvarintRoundTrip(HeaderBody(id, seqNo), Width(id), seqNo);
  }

  lemma {:induction false} SmallUvarintAt(s: seq<byte>, i: nat)
    requires i < |s| && s[i] < 64
    ensures UvarintAt(s, i) == Got(s[i], i + 1)
  {
    assert [s[i] % 64] + s[i + 1..i + 1] == [s[i]] && FromBigEndian([s[i]][..0]) == 0;
  }

  lemma {:induction false} HeaderShort(s: seq<byte>, size: nat)
    requires |s| < 2 + size && size < 64 && (|s| > 0 ==> s[0] == 0) && (|s| > 1 ==> s[1] == size)
    ensures HeaderAt(s) == None
  {
    hide UvarintAt;
    AtEnd(s);
    if |s| > 0 {
      SmallUvarintAt(s, 0);
      if |s| > 1 { SmallUvarintAt(s, 1); }
    }
  }

  lemma {:induction false} HeaderWhole(s: seq<byte>, h: seq<byte>, id: nat, seqNo: nat, a: nat)
    requires |h| < 64 && |s| >= 2 + |h| && s[0] == 0 && s[1] == |h| && s[2..2 + |h|] == h
    requires a <= |h| && UvarintAt(h, 0) == Got(id, a) && UvarintAt(h, a) == Got(seqNo, |h|)
    ensures HeaderAt(s) == Some(Header(id, seqNo, 2 + |h|))
  {
    hide UvarintAt;
    SmallUvarintAt(s, 0);
    SmallUvarintAt(s, 1);
  }

  /** A header cut anywhere routes the stream nowhere; a complete one routes it, and the frames start
      right after it. */
  lemma {:induction false} HeaderExact(id: nat, seqNo: nat, rest: seq<byte>, n: nat)
    requires id <= MAX_UVARINT && seqNo <= MAX_UVARINT && n <= |GroupHeader(id, seqNo) + rest|
    ensures var m := |GroupHeader(id, seqNo)|;
      HeaderAt((GroupHeader(id, seqNo) + rest)[..n]) == if n < m then None else Some(Header(id, seqNo, m))
  {
    var h := HeaderBody(id, seqNo);
    BodyRoundTrip(id, seqNo);
    assert GroupHeader(id, seqNo) == [0, |h|] + h && Width(id) + Width(seqNo) <= 16;
    hide *;
    HeaderCut(id, seqNo, h, rest, n, Width(id));
    assert [0, |h|] + h + rest == [0, |h|] + (h + rest);
  }

  /** A stream of another kind than 0, and a header of more than 4096 bytes, are cancelled whatever follows. */
  lemma {:induction false} HeaderRefused(s: seq<byte>, kind: nat, size: nat)
    requires kind <= MAX_UVARINT && size <= MAX_UVARINT
    ensures kind != 0 && Uvarint(kind) <= s ==> HeaderAt(s) == None
    ensures size > 4096 && [0] + Uvarint(size) <= s ==> HeaderAt(s) == None
  {
    UvarintWidth(kind);
    UvarintWidth(size);
    hide Uvarint, UvarintAt, Width, SizedAt;
    if Uvarint(kind) <= s {
      assert s[0..0 + Width(kind)] == Uvarint(kind);
      UvarintRoundTrip(s, 0, kind);
    }
    if [0] + Uvarint(size) <= s {
      SmallUvarintAt(s, 0);
      assert s[1..1 + Width(size)] == s[..1 + Width(size)][1..] == Uvarint(size);
      UvarintRoundTrip(s, 1, size);
    }
  }

  lemma {:induction false} HeaderCut(id: nat, seqNo: nat, h: seq<byte>, rest: seq<byte>, n: nat, a: nat)
    requires |h| < 64 && n <= 2 + |h| + |rest| && a <= |h|
    requires UvarintAt(h, 0) == Got(id, a) && UvarintAt(h, a) == Got(seqNo, |h|)
    ensures HeaderAt(([0, |h|] + (h + rest))[..n]) == if n < 2 + |h| then None else Some(Header(id, seqNo, 2 + |h|))
  {
    hide *;
    var s := ([0, |h|] + (h + rest))[..n];
    if n < 2 + |h| {
      HeaderShort(s, |h|);
    } else {
      assert s[2..2 + |h|] == (h + rest)[..|h|] == h;
      HeaderWhole(s, h, id, seqNo, a);
    }
  }

  lemma {:induction false} AtEnd(s: seq<byte>)
    ensures UvarintAt(s, |s|) == Eof
  {
  }
}
