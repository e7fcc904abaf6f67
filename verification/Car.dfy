/** The CAR reader (car.rs): LEB128 lengths, self-delimiting CIDs, and archives cut anywhere. */
module Car {
  import opened Bytes

  const LONGEST: nat := 10

  /** A varint read: the value and the position after it, or where the reader gave up. */
  datatype Varint = Value(v: nat, next: nat) | Bad(next: nat)

  /** `u64::from(b & 0x7f) << 7k`: bits beyond the 64th are dropped. */
  function Digit(b: byte, k: nat): (d: nat)
    ensures d <= 127 * Power(128, k)
  {
    MulMonotone(Power(128, k), 127, b % 128);
    b % 128 * Power(128, k) % U64
  }

  /** The varint at `i` whose first byte carries bits `7k` and up; an eleventh byte is
      refused. */
  function VarintAt(s: seq<byte>, i: nat, k: nat): (r: Varint)
    requires i <= |s| && k < LONGEST
    ensures i <= r.next <= |s| && (r.Value? ==> i < r.next)
    decreases LONGEST - k
  {
    if i == |s| then Bad(i)
    else
      var low := Digit(s[i], k);
      if s[i] < 128 then Value(low, i + 1)
      else if k + 1 == LONGEST then Bad(i + 1)
      else match VarintAt(s, i + 1, k + 1)
        case Value(v, next) => Value(low + v, next)
        case Bad(next) => Bad(next)
  }

  function Leb(v: nat): (s: seq<byte>)
    ensures s != []
  {
    if v < 128 then [v] else [v % 128 + 128] + Leb(v / 128)
  }

  lemma {:induction false} LebLength(v: nat, k: nat)
    requires v < Power(128, k) && k > 0
    ensures |Leb(v)| <= k
  {
    if v >= 128 {
      assert k > 1 by { assert Power(128, 1) == 128 * Power(128, 0); }
      MulMonotone(128, v / 128, Power(128, k - 1));
      LebLength(v / 128, k - 1);
    }
  }

  lemma {:induction false} Powers128()
    ensures Power(128, 9) == 0x8000_0000_0000_0000
  {
    assert Power(128, 3) == 0x20_0000 by { assert Power(128, 2) == 0x4000; }
    assert Power(128, 6) == 0x400_0000_0000 by { assert Power(128, 5) == 0x8_0000_0000; }
    assert Power(128, 8) == 0x100_0000_0000_0000;
  }

  lemma {:induction false} DigitSmall(b: byte, digit: nat, k: nat)
    requires b % 128 == digit && digit * Power(128, k) < U64
    ensures Digit(b, k) == digit * Power(128, k)
  {
  }

  lemma {:induction false} MoreDigits(s: seq<byte>, i: nat, k: nat, digit: nat, rest: nat, next: nat)
    requires i < |s| && s[i] == digit + 128 && digit < 128 && k + 1 < LONGEST
    requires VarintAt(s, i + 1, k + 1) == Value(rest, next) && digit * Power(128, k) < U64
    ensures VarintAt(s, i, k) == Value(digit * Power(128, k) + rest, next)
  {
    hide Power;
    DigitSmall(s[i], digit, k);
  }

  lemma {:induction false} LastDigit(s: seq<byte>, i: nat, k: nat, digit: nat)
    requires i < |s| && s[i] == digit < 128 && k < LONGEST && digit * Power(128, k) < U64
    ensures VarintAt(s, i, k) == Value(digit * Power(128, k), i + 1)
  {
    hide Power;
    DigitSmall(s[i], digit, k);
  }

  /** With `k` digits already read, what is left of a u64 is read back scaled by them. */
  lemma {:induction false} VarintReads(s: seq<byte>, i: nat, k: nat, v: nat)
    requires i <= |s| && k < LONGEST && v * Power(128, k) < U64 && Leb(v) <= s[i..]
    ensures VarintAt(s, i, k) == Value(v * Power(128, k), i + |Leb(v)|)
    decreases LONGEST - k
  {
    assert s[i] == s[i..][0];
    if v < 128 {
      LastDigit(s, i, k, v);
    } else {
      FitsLonger(v, k);
      Split128(v, Power(128, k));
      assert s[i + 1..] == s[i..][1..] && Leb(v / 128) == Leb(v)[1..];
      hide *;
      VarintReads(s, i + 1, k + 1, v / 128);
      MoreDigits(s, i, k, v % 128, v / 128 * Power(128, k + 1), i + |Leb(v)|);
    }
  }

  lemma {:induction false} FitsLonger(v: nat, k: nat)
    requires 128 <= v && v * Power(128, k) < U64 && k < LONGEST
    ensures k + 1 < LONGEST && Power(128, k + 1) == 128 * Power(128, k)
  {
    Powers128();
    MulMonotone(Power(128, k), v, 128);
  }

  lemma {:induction false} Split128(v: nat, p: nat)
    ensures v * p == v % 128 * p + v / 128 * (128 * p)
    ensures v % 128 * p <= v * p && v / 128 * (128 * p) <= v * p
  {
    assert v == 128 * (v / 128) + v % 128;
  }

  /** Every u64 reads back from its encoding, whatever follows. */
  lemma {:induction false} LebRoundTrip(s: seq<byte>, i: nat, v: u64)
    requires i <= |s| && Leb(v) <= s[i..]
    ensures VarintAt(s, i, 0) == Value(v, i + |Leb(v)|)
  {
    assert v * Power(128, 0) == v;
    VarintReads(s, i, 0, v);
  }

  /** An encoding cut short is refused. */
  lemma {:induction false} VarintTruncated(s: seq<byte>, i: nat, k: nat, v: nat)
    requires i <= |s| && k < LONGEST && |s| - i < |Leb(v)| && s[i..] == Leb(v)[..|s| - i]
    ensures VarintAt(s, i, k).Bad?
    decreases LONGEST - k
  {
    if i < |s| {
      assert s[i] == s[i..][0];
      if k + 1 < LONGEST {
        assert s[i + 1..] == s[i..][1..];
        VarintTruncated(s, i + 1, k + 1, v / 128);
      }
    }
  }

  /** Ten bytes that all announce another are refused, and nothing read exceeds 64 bits. */
  lemma {:induction false} VarintOverflow(s: seq<byte>, i: nat, k: nat)
    requires i <= |s| && k < LONGEST
    ensures i + LONGEST - k <= |s| && (forall j :: i <= j < i + LONGEST - k ==> s[j] >= 128) ==>
              VarintAt(s, i, k) == Bad(i + LONGEST - k)
    ensures VarintAt(s, i, k).Value? ==> i < VarintAt(s, i, k).next <= i + LONGEST - k
    decreases LONGEST - k
  {
    if i < |s| && s[i] >= 128 && k + 1 < LONGEST { VarintOverflow(s, i + 1, k + 1); }
  }

  /** The 7-bit groups of `n` bytes from `i` on, least significant first, as one number of any size. */
  function Groups(s: seq<byte>, i: nat, n: nat): nat
    requires i + n <= |s|
    decreases n
  {
    if n == 0 then 0 else s[i] % 128 + 128 * Groups(s, i + 1, n - 1)
  }

  lemma {:induction false} DigitExact(b: byte, k: nat) returns (q: nat)
    requires k < LONGEST
    ensures b % 128 * Power(128, k) == Digit(b, k) + q * U64
    ensures Digit(b, k) <= U64 - Power(128, k)
    ensures k + 1 < LONGEST ==> Digit(b, k) <= 127 * Power(128, k) && 128 * Power(128, k) <= U64
  {
    var p := Power(128, k);
    PowersFit(k);
    hide Power;
    q := b % 128 * p / U64;
    if k + 1 < LONGEST {
      MulMonotone(p, 127, b % 128);
    } else {
      LastDigitHalf(b % 128);
    }
  }

  lemma {:induction false} LastDigitHalf(d: nat)
    ensures d * 0x8000_0000_0000_0000 % U64 <= 0x8000_0000_0000_0000
  {
    assert d * 0x8000_0000_0000_0000 == d / 2 * U64 + d % 2 * 0x8000_0000_0000_0000;
  }

  lemma {:induction false} PowersFit(k: nat)
    requires k < LONGEST
    ensures k + 1 < LONGEST ==> 128 * Power(128, k) <= U64
    ensures k + 1 == LONGEST ==> Power(128, k) == 0x8000_0000_0000_0000
    decreases LONGEST - k
  {
    Powers128();
    if k + 1 < LONGEST { PowersFit(k + 1); }
  }

  lemma {:induction false} VarintValueFrom(s: seq<byte>, i: nat, k: nat) returns (q: nat)
    requires i <= |s| && k < LONGEST && VarintAt(s, i, k).Value?
    ensures var r := VarintAt(s, i, k);
            r.v <= U64 - Power(128, k) && Groups(s, i, r.next - i) * Power(128, k) == r.v + q * U64
    decreases LONGEST - k
  {
    var p, d := Power(128, k), Digit(s[i], k);
    q := DigitExact(s[i], k);
    if s[i] < 128 {
      assert Groups(s, i, 1) == s[i] % 128 + 128 * Groups(s, i + 1, 0);
    } else {
      var more := VarintValueFrom(s, i + 1, k + 1);
      var rest := VarintAt(s, i + 1, k + 1);
      var g := Groups(s, i + 1, rest.next - (i + 1));
      assert VarintAt(s, i, k) == Varint.Value(d + rest.v, rest.next);
      assert Groups(s, i, rest.next - i) == s[i] % 128 + 128 * g;
      var low: nat := s[i] % 128;
      hide *;
      AddGroups(low, g, p, d, rest.v, q, more);
      q := q + more;
    }
  }

  lemma {:induction false} AddGroups(low: nat, g: nat, p: nat, d: nat, v: nat, q: nat, more: nat)
    requires low * p == d + q * U64 && g * (128 * p) == v + more * U64
    ensures (low + 128 * g) * p == d + v + (q + more) * U64
  {
  }

  /** What a varint reads as: all its 7-bit groups, modulo 2^64. */
  lemma {:induction false} VarintValue(s: seq<byte>, i: nat)
    requires i <= |s| && VarintAt(s, i, 0).Value?
    ensures var r := VarintAt(s, i, 0); r.v == Groups(s, i, r.next - i) % U64
  {
    var q := VarintValueFrom(s, i, 0);
    var g, v := Groups(s, i, VarintAt(s, i, 0).next - i), VarintAt(s, i, 0).v;
    hide VarintAt, Groups;
    assert Power(128, 0) == 1;
    hide *;
    Remainder(g, v, q);
  }

  lemma {:induction false} Remainder(g: nat, v: nat, q: nat)
    requires g * 1 == v + q * U64 && v < U64
    ensures v == g % U64
  {
  }

  /** A varint read looks at no byte past its end, and no proper prefix of it reads as one. */
  lemma {:induction false} VarintLocal(s: seq<byte>, t: seq<byte>, i: nat, k: nat)
    requires i <= |s| && k < LONGEST && VarintAt(s, i, k).Value? && i <= |t|
    ensures s[..VarintAt(s, i, k).next] <= t ==> VarintAt(t, i, k) == VarintAt(s, i, k)
    ensures t < s[..VarintAt(s, i, k).next] ==> VarintAt(t, i, k).Bad?
    decreases LONGEST - k
  {
    if i < |t| && s[i] >= 128 {
      VarintLocal(s, t, i + 1, k + 1);
    }
  }

  // ---- CIDs ----

  /** Length of the binary CIDv1 at the front of an entry; None when it has none. */
  function CidEnd(e: seq<byte>): (r: Option<nat>)
    ensures r.Some? ==> r.value <= |e|
  {
    match VarintAt(e, 0, 0)
    case Bad(_) => None
    case Value(version, a) =>
      if version != 1 then None else
        (match VarintAt(e, a, 0)
         case Bad(_) => None
         case Value(_, b) =>
           (match VarintAt(e, b, 0)
            case Bad(_) => None
            case Value(_, c) =>
              (match VarintAt(e, c, 0)
               case Bad(_) => None
               case Value(n, d) => if n > |e| - d then None else Some(d + n))))
  }

  datatype Cid = Cid(codec: u64, hashCode: u64, digest: seq<byte>)

  function CidBytes(c: Cid): seq<byte> {
    Leb(1) + Leb(c.codec) + Leb(c.hashCode) + Leb(|c.digest|) + c.digest
  }

  /** A CID ends where it says, whatever follows. */
  lemma {:induction false} CidExtends(e: seq<byte>, t: seq<byte>)
    requires CidEnd(e).Some? && e[..CidEnd(e).value] <= t
    ensures CidEnd(t) == CidEnd(e)
  {
    hide VarintAt;
    var a := VarintAt(e, 0, 0).next;
    var b := VarintAt(e, a, 0).next;
    var c := VarintAt(e, b, 0).next;
    VarintLocal(e, t, 0, 0);
    VarintLocal(e, t, a, 0);
    VarintLocal(e, t, b, 0);
    VarintLocal(e, t, c, 0);
  }

  /** No proper prefix of a CID is read as one. */
  lemma {:induction false} CidCut(e: seq<byte>, t: seq<byte>)
    requires CidEnd(e).Some? && t < e[..CidEnd(e).value]
    ensures CidEnd(t) == None
  {
    hide VarintAt;
    var a := VarintAt(e, 0, 0).next;
    var b := VarintAt(e, a, 0).next;
    var c := VarintAt(e, b, 0).next;
    VarintLocal(e, t, 0, 0);
    if a <= |t| {
      VarintLocal(e, t, a, 0);
      if b <= |t| {
        VarintLocal(e, t, b, 0);
        if c <= |t| { VarintLocal(e, t, c, 0); }
      }
    }
  }

  /** A well-formed entry splits into the CID and the block it was made of. */
  lemma {:induction false} CidRoundTrip(c: Cid, block: seq<byte>)
    requires |c.digest| < U64
    ensures CidEnd(CidBytes(c) + block) == Some(|CidBytes(c)|)
  {
    hide VarintAt, Leb;
    var e := CidBytes(c) + block;
    var digest := c.digest + block;
    var length := Leb(|c.digest|) + digest;
    var hash := Leb(c.hashCode) + length;
    var codec := Leb(c.codec) + hash;
    assert e[0..] == Leb(1) + codec;
    var i1 := LebStep(e, 0, 1, codec);
    var i2 := LebStep(e, i1, c.codec, hash);
    var i3 := LebStep(e, i2, c.hashCode, length);
    var i4 := LebStep(e, i3, |c.digest|, digest);
  }

  /** A varint and what follows it. */
  lemma {:induction false} LebStep(e: seq<byte>, i: nat, v: u64, rest: seq<byte>) returns (j: nat)
    requires i <= |e| && e[i..] == Leb(v) + rest
    ensures j == i + |Leb(v)| <= |e| && VarintAt(e, i, 0) == Value(v, j) && e[j..] == rest
  {
    hide VarintAt, Leb;
    j := i + |Leb(v)|;
    LebRoundTrip(e, i, v);
    assert e[j..] == e[i..][|Leb(v)|..];
  }

  /** A CID of any other version than 1 is refused. */
  lemma {:induction false} CidVersion(e: seq<byte>, v: u64)
    requires Leb(v) <= e && v != 1
    ensures CidEnd(e) == None
  {
    assert e[0..] == e;
    LebRoundTrip(e, 0, v);
  }

  /** A digest longer than what is left of the entry is refused; with enough left the CID ends after it. */
  lemma {:induction false} CidDigest(e: seq<byte>, codec: u64, hashCode: u64, length: u64, rest: seq<byte>)
    requires e == Leb(1) + (Leb(codec) + (Leb(hashCode) + (Leb(length) + rest)))
    ensures CidEnd(e) == if length > |rest| then None else Some(|e| - |rest| + length)
  {
    hide VarintAt, Leb;
    assert e[0..] == e;
    var i1 := LebStep(e, 0, 1, Leb(codec) + (Leb(hashCode) + (Leb(length) + rest)));
    var i2 := LebStep(e, i1, codec, Leb(hashCode) + (Leb(length) + rest));
    var i3 := LebStep(e, i2, hashCode, Leb(length) + rest);
    var i4 := LebStep(e, i3, length, rest);
  }

  // ---- archives ----

  type Table = map<seq<byte>, seq<byte>>

  /** The loop body on a complete entry: one whose CID cannot be read is skipped. */
  function Insert(out: Table, entry: seq<byte>): Table {
    match CidEnd(entry)
    case None => out
    case Some(n) => out[entry[..n] := entry[n..]]
  }

  function EntriesAt(s: seq<byte>, i: nat, out: Table): Table
    requires i <= |s|
    decreases |s| - i
  {
    match VarintAt(s, i, 0)
    case Bad(_) => out
    case Value(n, j) => if n > |s| - j then out else EntriesAt(s, j + n, Insert(out, s[j..j + n]))
  }

  /** None when the header is cut short. */
  function Blocks(s: seq<byte>): Option<Table> {
    match VarintAt(s, 0, 0)
    case Bad(_) => None
    case Value(n, j) => if n > |s| - j then None else Some(EntriesAt(s, j + n, map[]))
  }

  function Sized(e: seq<byte>): seq<byte> {
    Leb(|e|) + e
  }

  function Entries(entries: seq<seq<byte>>): seq<byte> {
    if entries == [] then [] else Sized(entries[0]) + Entries(entries[1..])
  }

  function Archive(header: seq<byte>, entries: seq<seq<byte>>): seq<byte> {
    Sized(header) + Entries(entries)
  }

  function Collected(entries: seq<seq<byte>>): Table {
    if entries == [] then map[] else Insert(Collected(entries[..|entries| - 1]), entries[|entries| - 1])
  }

  function WholeEntries(entries: seq<seq<byte>>, n: nat): (k: nat)
    ensures k <= |entries|
  {
    if entries == [] || n < |Sized(entries[0])| then 0
    else 1 + WholeEntries(entries[1..], n - |Sized(entries[0])|)
  }

  predicate Fits(entries: seq<seq<byte>>) {
    forall e :: e in entries ==> |e| < U64
  }

  /** What a sized piece of the input does to a reader standing at its start. */
  lemma {:induction false} SizedAt(s: seq<byte>, i: nat, e: seq<byte>)
    requires |e| < U64 && i <= |s| && Sized(e) <= s[i..]
    ensures VarintAt(s, i, 0) == Value(|e|, i + |Leb(|e|)|)
    ensures i + |Sized(e)| <= |s| && s[i + |Leb(|e|)|..i + |Sized(e)|] == e
  {
    hide VarintAt, Leb;
    var w := |Leb(|e|)|;
    var t := s[i..];
    assert t[..w] == Leb(|e|) && t[w..w + |e|] == e;
    LebRoundTrip(s, i, |e|);
  }

  lemma {:induction false} SizedCut(s: seq<byte>, i: nat, e: seq<byte>)
    requires |e| < U64 && i <= |s| < i + |Sized(e)| && s[i..] == Sized(e)[..|s| - i]
    ensures var r := VarintAt(s, i, 0); r.Bad? || r.v > |s| - r.next
  {
    hide VarintAt, Leb;
    var w := |Leb(|e|)|;
    if |s| - i < w {
      assert s[i..] == Leb(|e|)[..|s| - i];
      VarintTruncated(s, i, 0, |e|);
    } else {
      assert s[i..][..w] == Leb(|e|);
      LebRoundTrip(s, i, |e|);
    }
  }

  lemma {:induction false} EntriesStep(s: seq<byte>, i: nat, out: Table, e: seq<byte>)
    requires |e| < U64 && i <= |s| && Sized(e) <= s[i..]
    ensures EntriesAt(s, i, out) == EntriesAt(s, i + |Sized(e)|, Insert(out, e))
  {
    hide VarintAt, Leb, Insert;
    SizedAt(s, i, e);
  }

  lemma {:induction false} EntriesCut(s: seq<byte>, i: nat, out: Table, e: seq<byte>)
    requires |e| < U64 && i <= |s| < i + |Sized(e)| && s[i..] == Sized(e)[..|s| - i]
    ensures EntriesAt(s, i, out) == out
  {
    hide VarintAt, Leb;
    SizedCut(s, i, e);
  }

  /** Entries cut at any byte: the whole ones are collected, in order, onto those already there. */
  lemma {:induction false} EntriesTruncated(
      s: seq<byte>, i: nat, done: seq<seq<byte>>, entries: seq<seq<byte>>, n: nat)
    requires Fits(entries) && n <= |Entries(entries)| && i + n == |s| && s[i..] == Entries(entries)[..n]
    ensures EntriesAt(s, i, Collected(done)) == Collected(done + entries[..WholeEntries(entries, n)])
    decreases |entries|
  {
    hide VarintAt, Leb, Insert, Sized, EntriesAt, Entries, Collected, WholeEntries;
    WholeFirst(done, entries, n);
    if entries == [] {
      ReadsNothing(s, Collected(done));
    } else {
      var e, rest := entries[0], Entries(entries[1..]);
      SplitSlice(s, i, Sized(e), rest, n);
      if n < |Sized(e)| {
        EntriesCut(s, i, Collected(done), e);
      } else {
        EntriesStep(s, i, Collected(done), e);
        CollectedNext(done, e);
        EntriesTruncated(s, i + |Sized(e)|, done + [e], entries[1..], n - |Sized(e)|);
      }
    }
  }

  /** Which entries are whole, by the first one. */
  lemma {:induction false} WholeFirst(done: seq<seq<byte>>, entries: seq<seq<byte>>, n: nat)
    requires Fits(entries) && n <= |Entries(entries)|
    ensures var whole := done + entries[..WholeEntries(entries, n)];
            && (entries == [] ==> n == 0 && whole == done)
            && (entries != [] ==>
                  var e := entries[0];
                  && Entries(entries) == Sized(e) + Entries(entries[1..])
                  && if n < |Sized(e)| then whole == done
                     else whole == done + [e] + entries[1..][..WholeEntries(entries[1..], n - |Sized(e)|)])
  {
    hide Sized;
  }

  lemma {:induction false} ReadsNothing(s: seq<byte>, out: Table)
    ensures EntriesAt(s, |s|, out) == out
  {
  }

  lemma {:induction false} CollectedNext(done: seq<seq<byte>>, e: seq<byte>)
    ensures Collected(done + [e]) == Insert(Collected(done), e)
  {
    assert (done + [e])[..|done|] == done;
  }

  /** An archive cut at any byte: inside its header it is refused, anywhere later it yields exactly
      its complete entries. */
  lemma {:induction false} BlocksTruncated(header: seq<byte>, entries: seq<seq<byte>>, n: nat)
    requires |header| < U64 && Fits(entries) && n <= |Archive(header, entries)|
    ensures var head := |Sized(header)|;
      Blocks(Archive(header, entries)[..n]) ==
        if n < head then None else Some(Collected(entries[..WholeEntries(entries, n - head)]))
  {
    hide VarintAt, Leb, Sized, EntriesAt, WholeEntries, Entries, Collected;
    var rest := Entries(entries);
    var head := Sized(header);
    var s := (head + rest)[..n];
    assert s[0..] == s && Archive(header, entries) == head + rest;
    SplitSlice(s, 0, head, rest, n);
    HeadSize(header);
    if n < |head| {
      SizedCut(s, 0, header);
    } else {
      SizedAt(s, 0, header);
      EntriesTruncated(s, |head|, [], entries, n - |head|);
      var kept := entries[..WholeEntries(entries, n - |head|)];
      assert [] + kept == kept;
      NoneCollected();
    }
  }

  lemma {:induction false} NoneCollected()
    ensures Collected([]) == map[]
  {
  }

  lemma {:induction false} HeadSize(e: seq<byte>)
    ensures |Sized(e)| == |Leb(|e|)| + |e|
  {
  }

  /** `WholeEntries` counts the entries lying wholly within the first `n` bytes. */
  lemma {:induction false} WholeEntriesExact(entries: seq<seq<byte>>, n: nat)
    ensures var k := WholeEntries(entries, n);
      |Entries(entries[..k])| <= n && (k < |entries| ==> n < |Entries(entries[..k + 1])|)
  {
    hide Sized;
    var k := WholeEntries(entries, n);
    if entries != [] {
      if k < |entries| { assert entries[..k + 1][1..] == entries[1..][..k]; }
      if k > 0 {
        WholeEntriesExact(entries[1..], n - |Sized(entries[0])|);
        assert entries[..k][1..] == entries[1..][..k - 1];
      }
    }
  }

  predicate Holds(entry: seq<byte>, cid: seq<byte>) {
    CidEnd(entry).Some? && entry[..CidEnd(entry).value] == cid
  }

  /** The last entry under a CID. */
  ghost predicate IsLast(entries: seq<seq<byte>>, j: nat, cid: seq<byte>)
    requires j < |entries|
  {
    Holds(entries[j], cid) && forall l :: j < l < |entries| ==> !Holds(entries[l], cid)
  }

  lemma {:induction false} IsLastBefore(entries: seq<seq<byte>>, j: nat, cid: seq<byte>)
    requires j < |entries| - 1 && IsLast(entries, j, cid)
    ensures IsLast(entries[..|entries| - 1], j, cid) && !Holds(entries[|entries| - 1], cid)
  {
    hide Holds;
  }

  /** The table has a key for every readable CID and no other, and the last entry under it wins. */
  lemma {:induction false} LastWins(entries: seq<seq<byte>>, cid: seq<byte>)
    ensures cid in Collected(entries) <==> exists j :: 0 <= j < |entries| && Holds(entries[j], cid)
    ensures forall j :: 0 <= j < |entries| && IsLast(entries, j, cid) ==>
              cid in Collected(entries) && Collected(entries)[cid] == entries[j][CidEnd(entries[j]).value..]
  {
    hide CidEnd, IsLast;
    if entries != [] {
      var n := |entries| - 1;
      var before := entries[..n];
      LastWins(before, cid);
      forall j | 0 <= j < |entries| && IsLast(entries, j, cid)
        ensures CidEnd(entries[j]).Some? && cid in Collected(entries)
        ensures Collected(entries)[cid] == entries[j][CidEnd(entries[j]).value..] {
        IsLastHolds(entries, j, cid);
        if j < n { IsLastBefore(entries, j, cid); }
      }
    }
  }

  lemma {:induction false} IsLastHolds(entries: seq<seq<byte>>, j: nat, cid: seq<byte>)
    requires j < |entries| && IsLast(entries, j, cid)
    ensures Holds(entries[j], cid)
  {
    hide Holds;
  }

  // ---- the reader's loops ----

  class Cursor {
    const data: seq<byte>
    var pos: nat

    ghost predicate Valid()
      reads this
    {
      pos <= |data|
    }

    constructor (data: seq<byte>)
      ensures Valid() && this.data == data && pos == 0
    {
      this.data := data;
      pos := 0;
    }

    /** The digits of different bytes share no bit, so or-ing one in is adding it. */
    method Varint() returns (r: Option<nat>)
      requires Valid()
      modifies this
      ensures Valid() && pos == VarintAt(data, old(pos), 0).next
      ensures r == match VarintAt(data, old(pos), 0) case Value(v, _) => Some(v) case Bad(_) => None
    {
      var value: nat, k: nat := 0, 0;
      while true
        invariant Valid() && k < LONGEST && value < Power(128, k)
        invariant VarintAt(data, old(pos), 0) ==
                  match VarintAt(data, pos, k) case Value(v, n) => Value(value + v, n) case Bad(n) => Bad(n)
        decreases LONGEST - k
      {
        hide Digit;
        if pos == |data| { return None; }
        var b := data[pos];
        pos := pos + 1;
        value := value + Digit(b, k);
        if b < 128 { return Some(value); }
        k := k + 1;
        if 7 * k >= 64 { return None; }
      }
    }

    method ReadCid() returns (cid: Option<seq<byte>>)
      requires Valid() && pos == 0
      modifies this
      ensures Valid()
      ensures cid == match CidEnd(data) case Some(n) => Some(data[..n]) case None => None
      ensures cid.Some? ==> pos == |cid.value|
    {
      hide VarintAt;
      var version := Varint();
      if version != Some(1) { return None; }
      var codec := Varint();
      if codec.None? { return None; }
      var hashCode := Varint();
      if hashCode.None? { return None; }
      var hashLength := Varint();
      if hashLength.None? || hashLength.value > |data| - pos { return None; }
      pos := pos + hashLength.value;
      return Some(data[..pos]);
    }
  }

  method ReadBlocks(data: seq<byte>) returns (r: Option<Table>)
    ensures r == Blocks(data)
  {
    hide VarintAt, CidEnd;
    var cur := new Cursor(data);
    var headerLength := cur.Varint();
    if headerLength.None? || headerLength.value > |data| - cur.pos { return None; }
    cur.pos := cur.pos + headerLength.value;
    var out: Table := map[];
    while cur.pos < |data|
      invariant cur.data == data && cur.Valid()
      invariant Blocks(data) == Some(EntriesAt(data, cur.pos, out))
      decreases |data| - cur.pos
    {
      var length := cur.Varint();
      if length.None? || length.value > |data| - cur.pos { return Some(out); }
      var entry := data[cur.pos..cur.pos + length.value];
      cur.pos := cur.pos + length.value;
      var e := new Cursor(entry);
      var cid := e.ReadCid();
      if cid.Some? { out := out[cid.value := entry[e.pos..]]; }
    }
    return Some(out);
  }
}
