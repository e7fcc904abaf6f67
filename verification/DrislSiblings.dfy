/** The Go and TypeScript validators: bounds arithmetic in machine integers and doubles, previous keys
    kept as offsets with -1 for none, and in TypeScript a hand-written key comparison. Both answer as
    the Rust one does, on every input. */
module DrislSiblings {
  import opened Bytes
  import opened DrislValue
  import opened Drisl
  import opened DrislExact

  /** A Go slice is far shorter than half the `int` range. */
  const GO_MAX_SLICE := 0x1_0000_0000_0000
  /** Doubles hold integers exactly up to here, and a JavaScript buffer is shorter. */
  const TWO_53 := 0x20_0000_0000_0000

  /** The spacing of doubles around `n`. */
  function Quantum(n: nat): (q: nat)
    ensures q >= 1
    ensures n >= TWO_53 ==> q >= 2 && n / q * q >= TWO_53
  {
    if n < TWO_53 then 1 else
      var q := Quantum(n / 2);
      QuantumStep(n, q);
      2 * q
  }

  lemma {:induction false} QuantumStep(n: nat, q: nat)
    requires n >= TWO_53 && q >= 1
    requires n / 2 >= TWO_53 ==> n / 2 / q * q >= TWO_53
    requires n / 2 < TWO_53 ==> q == 1
    ensures n / (2 * q) * (2 * q) >= TWO_53
  {
    if n / 2 >= TWO_53 {
      HalfQuotient(n, q);
    }
  }

  lemma {:induction false} HalfQuotient(n: nat, q: nat)
    requires q >= 1
    ensures n / (2 * q) == n / 2 / q
  {
    var d := n / 2 / q;
    var r := n / 2 % q;
    assert n / 2 == q * d + r;
    assert n == 2 * q * d + (2 * r + n % 2);
    DivisionUnique(n, 2 * q, d, 2 * r + n % 2);
  }

  lemma {:induction false} DivisionUnique(n: nat, b: nat, d: nat, r: nat)
    requires n == b * d + r && r < b
    ensures n / b == d
  {
    var e := n / b;
    assert n == b * e + n % b;
    MulMonotone(b, d, e + 1);
    MulMonotone(b, e, d + 1);
  }

  /** `Number(n)`: the nearest double, ties to even. */
  function Number(n: nat): (d: nat)
    ensures n < TWO_53 ==> d == n
    ensures n >= TWO_53 ==> d >= TWO_53
  {
    var q := Quantum(n);
    var down := n / q * q;
    var rest := n % q;
    if 2 * rest < q || (2 * rest == q && n / q % 2 == 0) then down else down + q
  }

  /** `Quantum` is the spacing of doubles at `n`: a power of two that leaves a 53-bit significand, and 1 as long
      as one bit more precision would not. */
  lemma {:induction false} QuantumExact(n: nat) returns (e: nat)
    ensures Quantum(n) == Power(2, e) && n / Quantum(n) < TWO_53
    ensures e > 0 ==> n / Quantum(n) >= TWO_53 / 2
  {
    e := 0;
    if n >= TWO_53 {
      e := QuantumExact(n / 2);
      HalfQuotient(n, Quantum(n / 2));
      assert Power(2, e + 1) == 2 * Power(2, e);
      e := e + 1;
    }
  }

  /** `Number(n)` is a multiple of the spacing, no other is nearer to `n`, and of two as near it is the even
      one. */
  lemma {:induction false} NumberNearest(n: nat, k: int) returns (j: nat)
    ensures var q, d := Quantum(n), Number(n);
            && d == q * j && Distance(d, n) <= Distance(q * k, n)
            && (2 * Distance(d, n) == q ==> j % 2 == 0)
  {
    hide Quantum;
    var q := Quantum(n);
    var m := n / q;
    Quotient(n, q);
    Multiples(q, m, k);
    NearestOf(q * m, q, n % q, q * k, m % 2 == 0);
    NextMultiple(q, m);
    j := if Number(n) == q * m then m else m + 1;
  }

  lemma {:induction false} NextMultiple(q: nat, m: nat)
    ensures q * (m + 1) == q * m + q
  {
  }

  lemma {:induction false} Quotient(n: nat, q: nat)
    requires q > 0
    ensures n / q * q == q * (n / q) && n == q * (n / q) + n % q
  {
  }

  /** Rounding between two neighbours a spacing apart. */
  lemma {:induction false} NearestOf(down: nat, q: nat, rest: nat, other: int, even: bool)
    requires rest < q && (other <= down || other >= down + q)
    ensures var n := down + rest;
            var d := if 2 * rest < q || (2 * rest == q && even) then down else down + q;
            && Distance(d, n) <= Distance(other, n)
            && (2 * Distance(d, n) == q ==> (d == down <==> even))
  {
  }

  function Distance(a: int, b: int): nat { if a < b then b - a else a - b }

  lemma {:induction false} Multiples(q: nat, m: nat, k: int)
    ensures q * k <= q * m || q * k >= q * m + q
  {
    MulMonotone(q, m, k);
    MulMonotone(q, k, m + 1);
    assert q * (m + 1) == q * m + q;
  }

  /** drisl.go's string arm: the length is compared before it is converted to `int`. */
  method GoString(data: seq<byte>, offset: nat) returns (r: Result<nat>)
    requires offset < |data| < GO_MAX_SLICE && (data[offset] / 32 == 2 || data[offset] / 32 == 3)
    ensures r == EndOf(StringItem(data, offset))
  {
    hide ValidUtf8, Arg;
    var a := ReadArg(data, offset);
    match a {
      case Err(e) => return Err(e);
      case Ok(arg) =>
        if arg.value > |data| || Wrap64(arg.end + Wrap64(arg.value)) > |data| {
          return Fail(arg.end, TruncatedString);
        }
        var end := Wrap64(arg.end + Wrap64(arg.value));
        if data[offset] / 32 == 3 && !ValidUtf8(data[arg.end..end]) {
          return Fail(arg.end, BadUtf8);
        }
        return Ok(end);
    }
  }

  /** drisl.ts's string arm: the length and the end are doubles. */
  method TsString(data: seq<byte>, offset: nat) returns (r: Result<nat>)
    requires offset < |data| < TWO_53 && (data[offset] / 32 == 2 || data[offset] / 32 == 3)
    ensures r == EndOf(StringItem(data, offset))
  {
    hide ValidUtf8, Arg;
    var a := ReadArg(data, offset);
    match a {
      case Err(e) => return Err(e);
      case Ok(arg) =>
        var len := Number(arg.value);
        if Number(arg.end + len) > |data| {
          return Fail(arg.end, TruncatedString);
        }
        if data[offset] / 32 == 3 && !ValidUtf8(data[arg.end..arg.end + len]) {
          return Fail(arg.end, BadUtf8);
        }
        return Ok(arg.end + len);
    }
  }

  /** drisl.ts's `compareEncoded` on two ranges of the buffer: its sign is the bytewise order. */
  method CompareEncoded(data: seq<byte>, aStart: nat, aEnd: nat, bStart: nat, bEnd: nat) returns (d: int)
    requires aStart <= aEnd <= |data| && bStart <= bEnd <= |data|
    ensures CompareInt(d, 0) == Compare(data[aStart..aEnd], data[bStart..bEnd])
  {
    var aLen, bLen := aEnd - aStart, bEnd - bStart;
    var n := if aLen < bLen then aLen else bLen;
    for i := 0 to n
      invariant Compare(data[aStart..aEnd], data[bStart..bEnd])
             == Compare(data[aStart + i..aEnd], data[bStart + i..bEnd])
    {
      var a: int, b: int := data[aStart + i], data[bStart + i];
      var e := a - b;
      if e != 0 { return e; }
      assert data[aStart + i..aEnd][1..] == data[aStart + i + 1..aEnd];
      assert data[bStart + i..bEnd][1..] == data[bStart + i + 1..bEnd];
    }
    return aLen - bLen;
  }

  datatype Host = Go | TypeScript

  /** Buffers a host can hold. */
  predicate FitsHost(host: Host, data: seq<byte>) {
    |data| < if host.Go? then GO_MAX_SLICE else TWO_53
  }

  /** Both siblings' recursion; they differ from each other in the string arm and the key comparison. */
  method SiblingItem(host: Host, data: seq<byte>, offset: nat, depth: nat) returns (r: Result<nat>)
    requires FitsHost(host, data)
    ensures r == EndOf(Item(data, offset, depth))
    decreases Levels(depth), 0
  {
    if depth > MAX_DEPTH { return Fail(offset, TooDeep); }
    if offset >= |data| { return Fail(offset, TruncatedItem); }
    var major := data[offset] / 32;
    if major == 2 || major == 3 {
      if host.Go? { r := GoString(data, offset); } else { r := TsString(data, offset); }
    } else if major == 7 {
      r := ValidateSimple(data, offset);
    } else if major == 4 {
      r := SiblingArray(host, data, offset, depth);
    } else if major == 5 {
      r := SiblingMap(host, data, offset, depth);
    } else if major == 6 {
      r := SiblingTag(host, data, offset, depth);
    } else {
      var a := ReadArg(data, offset);
      match a {
        case Err(e) => return Err(e);
        case Ok(arg) => return Ok(arg.end);
      }
    }
  }

  method SiblingArray(host: Host, data: seq<byte>, offset: nat, depth: nat) returns (r: Result<nat>)
    requires FitsHost(host, data) && offset < |data| && data[offset] / 32 == 4 && depth <= MAX_DEPTH
    ensures r == EndOf(Item(data, offset, depth))
    decreases Levels(depth + 1), 2
  {
    hide Arg, StringItem, SimpleItem, TagItem;
    var a := ReadArg(data, offset);
    if a.Err? { return Err(a.error); }
    var count, cursor := a.value.value, a.value.end;
    var i := 0;
    while i < count
      invariant 0 <= i <= count && cursor <= |data|
      invariant EndOfItems(Items(data, a.value.end, depth + 1, count))
             == EndOfItems(Items(data, cursor, depth + 1, count - i))
      decreases |data| - cursor
    {
      var item := SiblingItem(host, data, cursor, depth + 1);
      if item.Err? { return item; }
      cursor, i := item.value, i + 1;
    }
    return Ok(cursor);
  }

  method SiblingMap(host: Host, data: seq<byte>, offset: nat, depth: nat) returns (r: Result<nat>)
    requires FitsHost(host, data) && offset < |data| && data[offset] / 32 == 5 && depth <= MAX_DEPTH
    ensures r == EndOf(Item(data, offset, depth))
    decreases Levels(depth + 1), 2
  {
    hide Arg, StringItem, SimpleItem, TagItem, OneEntry;
    var a := ReadArg(data, offset);
    if a.Err? { return Err(a.error); }
    var count, cursor := a.value.value, a.value.end;
    var prevStart, prevEnd := -1, -1;
    var i := 0;
    while i < count
      invariant 0 <= i <= count && cursor <= |data|
      invariant prevStart == -1 || 0 <= prevStart <= prevEnd <= |data|
      invariant EndOfEntries(Entries(data, a.value.end, depth + 1, count, None))
             == EndOfEntries(Entries(data, cursor, depth + 1, count - i, KeyAt(data, prevStart, prevEnd)))
      decreases |data| - cursor
    {
      var entry, keyEnd := SiblingEntry(host, data, cursor, depth + 1, prevStart, prevEnd);
      if entry.Err? { return entry; }
      prevStart, prevEnd := cursor, keyEnd;
      cursor, i := entry.value, i + 1;
    }
    return Ok(cursor);
  }

  /** The previous key, from its two offsets. */
  function KeyAt(data: seq<byte>, start: int, end: int): Option<seq<byte>>
    requires start == -1 || 0 <= start <= end <= |data|
  {
    if start >= 0 then Some(data[start..end]) else None
  }

  method SiblingEntry(host: Host, data: seq<byte>, keyStart: nat, depth: nat, prevStart: int, prevEnd: int)
    returns (r: Result<nat>, keyEnd: nat)
    requires FitsHost(host, data) && (prevStart == -1 || 0 <= prevStart <= prevEnd <= |data|)
    ensures match OneEntry(data, keyStart, depth, KeyAt(data, prevStart, prevEnd))
            case Err(e) => r == Err(e)
            case Ok(p) => r == Ok(p.end) && keyEnd == p.keyEnd
    decreases Levels(depth), 1
  {
    keyEnd := keyStart;
    if keyStart >= |data| { return Fail(keyStart, TruncatedKey), keyEnd; }
    if data[keyStart] / 32 != 3 { return Fail(keyStart, KeyNotText), keyEnd; }
    var key := SiblingItem(host, data, keyStart, depth);
    if key.Err? { return key, keyEnd; }
    keyEnd := key.value;
    if prevStart >= 0 {
      var order := SiblingCompare(host, data, prevStart, prevEnd, keyStart, keyEnd);
      if order == Equal { return Fail(keyStart, DuplicateKey), keyEnd; }
      if order == Greater { return Fail(keyStart, UnsortedKeys), keyEnd; }
    }
    r := SiblingItem(host, data, keyEnd, depth);
  }

  /** `bytes.Compare`, or the sign of `compareEncoded`. */
  method SiblingCompare(host: Host, data: seq<byte>, aStart: nat, aEnd: nat, bStart: nat, bEnd: nat)
    returns (order: Ordering)
    requires aStart <= aEnd <= |data| && bStart <= bEnd <= |data|
    ensures order == Compare(data[aStart..aEnd], data[bStart..bEnd])
  {
    if host.Go? { return Compare(data[aStart..aEnd], data[bStart..bEnd]); }
    var d := CompareEncoded(data, aStart, aEnd, bStart, bEnd);
    return CompareInt(d, 0);
  }

  method SiblingTag(host: Host, data: seq<byte>, offset: nat, depth: nat) returns (r: Result<nat>)
    requires FitsHost(host, data) && offset < |data| && data[offset] / 32 == 6 && depth <= MAX_DEPTH
    ensures r == EndOf(Item(data, offset, depth))
    decreases Levels(depth + 1), 1
  {
    var a := ReadArg(data, offset);
    if a.Err? { return Err(a.error); }
    var end := a.value.end;
    if a.value.value != 42 { return Fail(offset, ForbiddenTag); }
    if end >= |data| || data[end] / 32 != 2 { return Fail(end, TagNotBytes); }
    var content := SiblingItem(host, data, end, depth + 1);
    if content.Err? { return content; }
    var head := ReadArg(data, end);
    var bodyStart := head.value.end;
    if content.value == bodyStart || data[bodyStart] != 0 { return Fail(bodyStart, CidPrefix); }
    return content;
  }

  /** `ValidateDrisl` and `validateDrisl`: the same verdict, end offset and violation as the Rust
      validator, so all three accept exactly the canonical encodings. */
  method SiblingValidate(host: Host, data: seq<byte>, offset: nat) returns (r: Result<nat>)
    requires FitsHost(host, data)
    ensures r == EndOf(Item(data, offset, 0))
    ensures forall end: nat :: r == Ok(end) <==> exists v :: Canonical(data, offset, end, 0, v)
  {
    r := SiblingItem(host, data, offset, 0);
    forall end: nat ensures r == Ok(end) <==> exists v :: Canonical(data, offset, end, 0, v) {
      Exactness(data, offset, end);
    }
  }
}
