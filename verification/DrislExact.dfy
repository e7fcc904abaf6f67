/** The validator accepts exactly the canonical encodings, and each value has one. */
module DrislExact {
  import opened Bytes
  import opened DrislValue
  import opened Drisl

  // ---- heads ----

  lemma {:induction false} ArgOfHead(data: seq<byte>, offset: nat, major: nat, arg: u64)
    requires major < 8 && offset + |Head(major, arg)| <= |data|
    requires data[offset..offset + |Head(major, arg)|] == Head(major, arg)
    ensures data[offset] / 32 == major
    ensures Arg(data, offset) == Ok(Argument(arg, offset + |Head(major, arg)|))
  {
    var h := Head(major, arg);
    assert data[offset] == h[0];
    if arg >= 24 {
      var ai := Info(arg);
      HeadShape(major, arg);
      assert data[offset + 1..offset + |h|] == h[1..];
      hide Head;
      WideArg(data, offset, ai, arg);
    }
  }

  /** Additional information that selects the narrowest width for `arg`. */
  function Info(arg: u64): (ai: nat)
    requires arg >= 24
    ensures 24 <= ai <= 27
  {
    if arg < 0x100 then 24 else if arg < 0x1_0000 then 25 else if arg < U32 then 26 else 27
  }

  lemma {:induction false} HeadShape(major: nat, arg: u64)
    requires major < 8 && arg >= 24
    ensures var ai := Info(arg);
            && |Head(major, arg)| == 1 + Width(ai) && Head(major, arg)[0] == major * 32 + ai
            && Head(major, arg)[1..] == BigEndian(arg, Width(ai))
            && Minimal(ai) <= arg < Power(256, Width(ai))
  {
    hide Digits, Power;
    Powers();
  }

  lemma {:induction false} WideArg(data: seq<byte>, offset: nat, ai: nat, arg: u64)
    requires 24 <= ai <= 27 && Minimal(ai) <= arg < Power(256, Width(ai))
    requires offset + 1 + Width(ai) <= |data| && data[offset] % 32 == ai
    requires data[offset + 1..offset + 1 + Width(ai)] == BigEndian(arg, Width(ai))
    ensures Arg(data, offset) == Ok(Argument(arg, offset + 1 + Width(ai)))
  {
    hide Digits, FromBigEndian, Power, Minimal, Width;
    BigEndianRoundTrip(arg, Width(ai));
  }

  lemma {:induction false} HeadOfArg(data: seq<byte>, offset: nat)
    requires offset < |data| && Arg(data, offset).Ok?
    ensures var a := Arg(data, offset).value;
            data[offset..a.end] == Head(data[offset] / 32, a.value)
  {
    var a := Arg(data, offset).value;
    var ai := data[offset] % 32;
    if ai < 24 {
      assert data[offset..a.end] == [data[offset]];
    } else {
      WideOfArg(data, offset);
      hide FromBigEndian, Power, Head, BigEndian, Arg, Width, Minimal, Info;
      var body := data[offset + 1..a.end];
      FromBigEndianRoundTrip(body);
      InfoExact(ai, a.value);
      HeadShape(data[offset] / 32, a.value);
      var head := Head(data[offset] / 32, a.value);
      assert data[offset..a.end] == [data[offset]] + body && head == [head[0]] + head[1..];
    }
  }

  lemma {:induction false} WideOfArg(data: seq<byte>, offset: nat)
    requires offset < |data| && data[offset] % 32 >= 24 && Arg(data, offset).Ok?
    ensures var ai, a := data[offset] % 32, Arg(data, offset).value;
            && ai <= 27 && a.end == offset + 1 + Width(ai) <= |data|
            && a.value == FromBigEndian(data[offset + 1..a.end]) && Minimal(ai) <= a.value
  {
    hide FromBigEndian, Power, Width, Minimal;
  }

  lemma {:induction false} InfoExact(ai: nat, arg: u64)
    requires 24 <= ai <= 27 && Minimal(ai) <= arg < Power(256, Width(ai))
    ensures arg >= 24 && Info(arg) == ai
  {
    hide Power;
    Powers();
  }

  /** An item made of a head and a body, both read off the data. */
  lemma {:induction false} Concat(data: seq<byte>, a: nat, b: nat, c: nat)
    requires a <= b <= c <= |data|
    ensures data[a..c] == data[a..b] + data[b..c]
  {
  }

  // ---- soundness: what is accepted is a canonical encoding ----

  /** `data[from..to]` is the canonical encoding of `v`, whose nesting stays within the cap. */
  ghost predicate Canonical(data: seq<byte>, from: nat, to: nat, depth: nat, v: Value) {
    && from <= to <= |data|
    && Valid(v) && depth + Height(v) <= MAX_DEPTH
    && data[from..to] == Encode(v)
  }

  lemma {:induction false} StringSound(data: seq<byte>, offset: nat, depth: nat)
    requires offset < |data| && (data[offset] / 32 == 2 || data[offset] / 32 == 3) && depth <= MAX_DEPTH
    requires StringItem(data, offset).Ok?
    ensures var p := StringItem(data, offset).value; Canonical(data, offset, p.end, depth, p.value)
  {
    HeadOfArg(data, offset);
    var p := StringItem(data, offset).value;
    Concat(data, offset, Arg(data, offset).value.end, p.end);
  }

  lemma {:induction false} SimpleSound(data: seq<byte>, offset: nat, depth: nat)
    requires offset < |data| && depth <= MAX_DEPTH && SimpleItem(data, offset).Ok?
    ensures var p := SimpleItem(data, offset).value; Canonical(data, offset, p.end, depth, p.value)
  {
    if data[offset] == 0xfb {
      Concat(data, offset, offset + 1, offset + 9);
    }
    assert data[offset..offset + 1] == [data[offset]];
  }

  lemma {:induction false} Sound(data: seq<byte>, offset: nat, depth: nat)
    requires Item(data, offset, depth).Ok?
    ensures var p := Item(data, offset, depth).value; Canonical(data, offset, p.end, depth, p.value)
    decreases Levels(depth), 0
  {
    hide StringItem, SimpleItem, TagItem, EncodeItems, EncodeEntries, Head;
    var major := data[offset] / 32;
    var p := Item(data, offset, depth).value;
    if major == 2 || major == 3 {
      StringSound(data, offset, depth);
    } else if major == 7 {
      SimpleSound(data, offset, depth);
    } else {
      HeadOfArg(data, offset);
      var a := Arg(data, offset).value;
      Concat(data, offset, a.end, p.end);
      if major == 4 {
        ItemsSound(data, a.end, depth + 1, a.value);
      } else if major == 5 {
        EntriesSound(data, a.end, depth + 1, a.value, None);
      } else if major == 6 {
        TagSound(data, offset, depth);
      }
    }
  }

  lemma {:induction false} TagSound(data: seq<byte>, offset: nat, depth: nat)
    requires offset < |data| && data[offset] / 32 == 6 && Item(data, offset, depth).Ok?
    ensures var p := Item(data, offset, depth).value; Canonical(data, offset, p.end, depth, p.value)
    decreases Levels(depth + 1), 1
  {
    HeadOfArg(data, offset);
    var a := Arg(data, offset).value;
    var p := Item(data, offset, depth).value;
    Sound(data, a.end, depth + 1);
    var b := Item(data, a.end, depth + 1).value.value.b;
    assert b == [0] + p.value.cid;
    Concat(data, offset, a.end, p.end);
  }

  lemma {:induction false} ItemsSound(data: seq<byte>, offset: nat, depth: nat, count: nat)
    requires offset <= |data| && Items(data, offset, depth, count).Ok?
    ensures var p := Items(data, offset, depth, count).value;
            && AllValid(p.values) && data[offset..p.end] == EncodeItems(p.values)
            && (count > 0 ==> depth + ItemsHeight(p.values) <= MAX_DEPTH)
    decreases Levels(depth), count + 1
  {
    var p := Items(data, offset, depth, count).value;
    if count > 0 {
      var first := Item(data, offset, depth).value;
      Sound(data, offset, depth);
      ItemsSound(data, first.end, depth, count - 1);
      var rest := Items(data, first.end, depth, count - 1).value;
      assert p.values[1..] == rest.values;
      Concat(data, offset, first.end, p.end);
    }
  }

  /** The key order check, read as order of the keys themselves. */
  ghost predicate Follows(prev: Option<seq<byte>>, es: seq<Entry>) {
    prev.Some? && es != [] ==> |es[0].key| < U64 && Compare(prev.value, EncodeKey(es[0].key)) == Less
  }

  lemma {:induction false} EntriesSound(data: seq<byte>, offset: nat, depth: nat, count: nat, prev: Option<seq<byte>>)
    requires offset <= |data| && Entries(data, offset, depth, count, prev).Ok?
    ensures var p := Entries(data, offset, depth, count, prev).value;
            && EntriesValid(p.entries) && SortedKeys(p.entries) && Follows(prev, p.entries)
            && data[offset..p.end] == EncodeEntries(p.entries)
            && (count > 0 ==> depth + EntriesHeight(p.entries) <= MAX_DEPTH)
    decreases Levels(depth), count + 2
  {
    var p := Entries(data, offset, depth, count, prev).value;
    if count > 0 {
      EntriesTurn(data, offset, depth, count, prev);
      hide Entries, OneEntry, Encode, EncodeKey, EncodeEntries, SortedKeys, EntriesValid, Valid, Height, EntriesHeight,
           Follows;
      var first := OneEntry(data, offset, depth, prev).value;
      var key := data[offset..first.keyEnd];
      OneEntrySound(data, offset, depth, prev);
      EntriesSound(data, first.end, depth, count - 1, Some(key));
      var rest := Entries(data, first.end, depth, count - 1, Some(key)).value;
      EntriesCons(first.entry, rest.entries, prev);
      Concat(data, offset, first.keyEnd, p.end);
      Concat(data, first.keyEnd, first.end, p.end);
    }
  }

  lemma {:induction false} EntriesTurn(data: seq<byte>, offset: nat, depth: nat, count: nat, prev: Option<seq<byte>>)
    requires offset <= |data| && count > 0 && Entries(data, offset, depth, count, prev).Ok?
    ensures OneEntry(data, offset, depth, prev).Ok?
    ensures var p, first := Entries(data, offset, depth, count, prev).value, OneEntry(data, offset, depth, prev).value;
            var rest := Entries(data, first.end, depth, count - 1, Some(data[offset..first.keyEnd]));
            rest.Ok? && p == ParsedEntries([first.entry] + rest.value.entries, rest.value.end)
  {
    hide OneEntry;
  }

  /** One entry before others that its key precedes. */
  lemma {:induction false} EntriesCons(e: Entry, es: seq<Entry>, prev: Option<seq<byte>>)
    requires EntriesValid([e]) && EntriesValid(es) && SortedKeys(es)
    requires Follows(Some(EncodeKey(e.key)), es) && Follows(prev, [e])
    ensures var all := [e] + es;
            && EntriesValid(all) && SortedKeys(all) && Follows(prev, all)
            && EncodeEntries(all) == EncodeKey(e.key) + (Encode(e.value) + EncodeEntries(es))
            && EntriesHeight(all) == Max(Height(e.value), EntriesHeight(es))
  {
    hide Encode, EncodeKey, Height, Compare, Valid, ValidUtf8, LengthFirst, SortedKeys;
    var all := [e] + es;
    assert all[1..] == es;
    if es != [] { EncodedKeyOrder(e.key, es[0].key); }
    SortedCons(all);
  }

  lemma {:induction false} OneEntrySound(data: seq<byte>, offset: nat, depth: nat, prev: Option<seq<byte>>)
    requires OneEntry(data, offset, depth, prev).Ok?
    ensures var p := OneEntry(data, offset, depth, prev).value;
            && EntriesValid([p.entry]) && Follows(prev, [p.entry])
            && data[offset..p.keyEnd] == EncodeKey(p.entry.key)
            && Canonical(data, p.keyEnd, p.end, depth, p.entry.value)
    decreases Levels(depth), 1
  {
    var p := OneEntry(data, offset, depth, prev).value;
    Sound(data, offset, depth);
    Sound(data, p.keyEnd, depth);
  }

  // ---- completeness: every canonical encoding is accepted ----

  /** Splitting data along a concatenation it is known to equal. */
  lemma {:induction false} Suffix(data: seq<byte>, from: nat, to: nat, a: seq<byte>, b: seq<byte>)
    requires from <= to <= |data| && data[from..to] == a + b
    ensures from + |a| <= to
    ensures data[from..from + |a|] == a && data[from + |a|..to] == b
  {
    assert data[from..to][..|a|] == a && data[from..to][|a|..] == b;
  }

  lemma {:induction false} ArmHead(data: seq<byte>, offset: nat, to: nat, major: nat, arg: u64, body: seq<byte>)
    returns (start: nat)
    requires major < 8 && offset <= to <= |data| && data[offset..to] == Head(major, arg) + body
    ensures offset < start <= to && data[start..to] == body
    ensures data[offset] / 32 == major && Arg(data, offset) == Ok(Argument(arg, start))
  {
    var h := Head(major, arg);
    start := offset + |h|;
    Suffix(data, offset, to, h, body);
    ArgOfHead(data, offset, major, arg);
  }

  lemma {:induction false} StringComplete(data: seq<byte>, offset: nat, to: nat, depth: nat, v: Value)
    requires Canonical(data, offset, to, depth, v) && (v.ByteString? || v.Text?)
    ensures Item(data, offset, depth) == Ok(Parsed(v, to))
  {
    if v.Text? {
      var start := ArmHead(data, offset, to, 3, |v.t|, v.t);
      assert StringItem(data, offset) == Ok(Parsed(v, to));
    } else {
      var start := ArmHead(data, offset, to, 2, |v.b|, v.b);
      assert StringItem(data, offset) == Ok(Parsed(v, to));
    }
  }

  /** The arms that hold no other item: integers, floats, and the one-byte simple values. */
  lemma {:induction false} LeafComplete(data: seq<byte>, offset: nat, to: nat, depth: nat, v: Value)
    requires Canonical(data, offset, to, depth, v)
    requires v.UInt? || v.NegInt? || v.Float? || v.False? || v.True? || v.Null?
    ensures Item(data, offset, depth) == Ok(Parsed(v, to))
  {
    if v.UInt? {
      var _ := ArmHead(data, offset, to, 0, v.u, []);
    } else if v.NegInt? {
      var _ := ArmHead(data, offset, to, 1, v.n, []);
    } else {
      assert data[offset] == Encode(v)[0];
      if v.Float? { Suffix(data, offset, to, [0xfb], v.bits); }
    }
  }

  lemma {:induction false} Complete(data: seq<byte>, offset: nat, to: nat, depth: nat, v: Value)
    requires Canonical(data, offset, to, depth, v)
    ensures Item(data, offset, depth) == Ok(Parsed(v, to))
    decreases v
  {
    hide Items, Entries, TagItem, StringItem, SimpleItem, Arg, EncodeItems, EncodeEntries, Head;
    match v {
      case ByteString(_) =>
        StringComplete(data, offset, to, depth, v);
      case Text(_) =>
        StringComplete(data, offset, to, depth, v);
      case Array(items) =>
        var start := ArmHead(data, offset, to, 4, |items|, EncodeItems(items));
        ItemsComplete(data, start, to, depth + 1, items);
      case Map(es) =>
        var start := ArmHead(data, offset, to, 5, |es|, EncodeEntries(es));
        EntriesComplete(data, start, to, depth + 1, es, None);
      case Cid(c) =>
        TagComplete(data, offset, to, depth, c);
      case _ =>
        LeafComplete(data, offset, to, depth, v);
    }
  }

  lemma {:induction false} TagComplete(data: seq<byte>, offset: nat, to: nat, depth: nat, c: seq<byte>)
    requires Canonical(data, offset, to, depth, Cid(c))
    ensures Item(data, offset, depth) == Ok(Parsed(Cid(c), to))
  {
    hide Item, Items, Entries, SimpleItem, StringItem, EncodeItems, EncodeEntries, Digits;
    var h := Head(6, 42);
    var body := ByteString([0] + c);
    Suffix(data, offset, to, h, Encode(body));
    ArgOfHead(data, offset, 6, 42);
    StringComplete(data, offset + |h|, to, depth + 1, body);
    var inner := Head(2, |c| + 1);
    Suffix(data, offset + |h|, to, inner, [0] + c);
    assert data[offset + |h|] == inner[0];
    TagArm(data, offset, to, depth, c, offset + |h|);
  }

  lemma {:induction false} TagArm(data: seq<byte>, offset: nat, to: nat, depth: nat, c: seq<byte>, mid: nat)
    requires offset < mid < |data| && data[offset] / 32 == 6 && data[mid] / 32 == 2 && depth <= MAX_DEPTH
    requires Arg(data, offset) == Ok(Argument(42, mid))
    requires Item(data, mid, depth + 1) == Ok(Parsed(ByteString([0] + c), to))
    ensures Item(data, offset, depth) == Ok(Parsed(Cid(c), to))
  {
    hide Items, Entries, SimpleItem, StringItem, Arg;
    assert ([0] + c)[1..] == c;
  }

  lemma {:induction false} ItemsComplete(data: seq<byte>, offset: nat, to: nat, depth: nat, vs: seq<Value>)
    requires offset <= to <= |data| && AllValid(vs) && data[offset..to] == EncodeItems(vs)
    requires vs != [] ==> depth + ItemsHeight(vs) <= MAX_DEPTH
    ensures Items(data, offset, depth, |vs|) == Ok(ParsedItems(vs, to))
    decreases vs
  {
    hide Item, Encode, Valid, Height;
    if vs != [] {
      var first := Encode(vs[0]);
      Suffix(data, offset, to, first, EncodeItems(vs[1..]));
      Complete(data, offset, offset + |first|, depth, vs[0]);
      ItemsComplete(data, offset + |first|, to, depth, vs[1..]);
      assert vs == [vs[0]] + vs[1..];
    }
  }

  lemma {:induction false} EntriesComplete(
      data: seq<byte>, offset: nat, to: nat, depth: nat, es: seq<Entry>, prev: Option<seq<byte>>)
    requires offset <= to <= |data| && EntriesValid(es) && SortedKeys(es) && Follows(prev, es)
    requires data[offset..to] == EncodeEntries(es)
    requires es != [] ==> depth + EntriesHeight(es) <= MAX_DEPTH
    ensures Entries(data, offset, depth, |es|, prev) == Ok(ParsedEntries(es, to))
    decreases es, 1
  {
    if es != [] {
      var keyEnd, end := OneEntryComplete(data, offset, to, depth, es, prev);
      SortedCons(es);
      if |es| > 1 { EncodedKeyOrder(es[0].key, es[1].key); }
      EntriesComplete(data, end, to, depth, es[1..], Some(data[offset..keyEnd]));
      assert es == [es[0]] + es[1..];
    }
  }

  lemma {:induction false} OneEntryComplete(
      data: seq<byte>, offset: nat, to: nat, depth: nat, es: seq<Entry>, prev: Option<seq<byte>>)
    returns (keyEnd: nat, end: nat)
    requires offset <= to <= |data| && es != [] && EntriesValid(es) && Follows(prev, es)
    requires data[offset..to] == EncodeEntries(es) && depth + EntriesHeight(es) <= MAX_DEPTH
    ensures offset < keyEnd < end <= to && data[offset..keyEnd] == EncodeKey(es[0].key)
    ensures OneEntry(data, offset, depth, prev) == Ok(ParsedEntry(es[0], keyEnd, end))
    ensures data[end..to] == EncodeEntries(es[1..])
    decreases es, 0
  {
    hide Item, Arg, StringItem, Compare, EncodeItems, Entries, Items, OneEntry, SortedKeys;
    var key, value, rest := EncodeKey(es[0].key), Encode(es[0].value), EncodeEntries(es[1..]);
    keyEnd, end := offset + |key|, offset + |key| + |value|;
    assert EncodeEntries(es) == key + (value + rest);
    hide EncodeEntries;
    Suffix(data, offset, to, key, value + rest);
    Suffix(data, keyEnd, to, value, rest);
    StringComplete(data, offset, keyEnd, depth, Text(es[0].key));
    assert data[offset] == data[offset..keyEnd][0] == key[0];
    Complete(data, keyEnd, end, depth, es[0].value);
    OneEntryReads(data, offset, depth, es[0], keyEnd, end, prev);
  }

  lemma {:induction false} OneEntryReads(
      data: seq<byte>, offset: nat, depth: nat, e: Entry, keyEnd: nat, end: nat, prev: Option<seq<byte>>)
    requires offset < keyEnd < end <= |data| && data[offset] / 32 == 3
    requires Item(data, offset, depth) == Ok(Parsed(Text(e.key), keyEnd))
    requires Item(data, keyEnd, depth) == Ok(Parsed(e.value, end))
    requires prev.Some? ==> Compare(prev.value, data[offset..keyEnd]) == Less
    ensures OneEntry(data, offset, depth, prev) == Ok(ParsedEntry(e, keyEnd, end))
  {
    hide Item, Compare;
  }

  // ---- the main results ----

  /** The validator's entry point (drisl.rs `validate`). */
  method Validate(data: seq<byte>, offset: nat) returns (r: Result<nat>)
    ensures r == EndOf(Item(data, offset, 0))
    ensures forall end: nat :: r == Ok(end) <==> exists v :: Canonical(data, offset, end, 0, v)
  {
    r := ValidateItem(data, offset, 0);
    forall end: nat ensures r == Ok(end) <==> exists v :: Canonical(data, offset, end, 0, v) {
      Exactness(data, offset, end);
    }
  }

  /** Some value's canonical encoding lies there. */
  ghost predicate Encodes(data: seq<byte>, from: nat, to: nat) { exists v :: Canonical(data, from, to, 0, v) }

  method ValidateExact(data: seq<byte>) returns (r: Result<()>)
    ensures r.Ok? <==> Encodes(data, 0, |data|)
    ensures forall end: nat :: Encodes(data, 0, end) && end != |data| ==> r == Fail(end, TrailingBytes)
    ensures (forall end: nat :: !Encodes(data, 0, end)) ==>
              r.Err? && r.error.violation != TrailingBytes && EndOf(Item(data, 0, 0)) == Err(r.error)
  {
    hide Item, Canonical;
    var v := Validate(data, 0);
    NeverTrailing(data, 0, 0);
    forall end: nat ensures Encodes(data, 0, end) <==> v == Ok(end) { Exactness(data, 0, end); }
    match v {
      case Err(e) => return Err(e);
      case Ok(end) =>
        if end != |data| {
          return Fail(end, TrailingBytes);
        }
        return Ok(());
    }
  }

  /** Bytes after an item are not the item's business. */
  lemma {:induction false} NeverTrailing(data: seq<byte>, offset: nat, depth: nat)
    ensures Item(data, offset, depth).Err? ==> Item(data, offset, depth).error.violation != TrailingBytes
    decreases Levels(depth), 0
  {
    hide FromBigEndian, ValidUtf8, NonFinite, IsNan, Items, Entries, TagItem;
    if depth <= MAX_DEPTH && offset < |data| && Arg(data, offset).Ok? {
      var a := Arg(data, offset).value;
      var major := data[offset] / 32;
      if major == 4 {
        ItemsNeverTrail(data, a.end, depth + 1, a.value);
      } else if major == 5 {
        EntriesNeverTrail(data, a.end, depth + 1, a.value, None);
      } else if major == 6 {
        TagNeverTrails(data, offset, depth, a);
      }
    }
  }

  lemma {:induction false} TagNeverTrails(data: seq<byte>, offset: nat, depth: nat, a: Argument)
    requires offset < a.end <= |data| && depth <= MAX_DEPTH
    ensures TagItem(data, offset, depth, a).Err? ==> TagItem(data, offset, depth, a).error.violation != TrailingBytes
    decreases Levels(depth + 1), 1
  {
    hide Item;
    NeverTrailing(data, a.end, depth + 1);
  }

  lemma {:induction false} ItemsNeverTrail(data: seq<byte>, offset: nat, depth: nat, count: nat)
    requires offset <= |data|
    ensures Items(data, offset, depth, count).Err? ==>
              Items(data, offset, depth, count).error.violation != TrailingBytes
    decreases Levels(depth), count + 1
  {
    hide Item;
    if count > 0 {
      NeverTrailing(data, offset, depth);
      if Item(data, offset, depth).Ok? { ItemsNeverTrail(data, Item(data, offset, depth).value.end, depth, count - 1); }
    }
  }

  lemma {:induction false} EntriesNeverTrail(
      data: seq<byte>, offset: nat, depth: nat, count: nat, prev: Option<seq<byte>>)
    requires offset <= |data|
    ensures Entries(data, offset, depth, count, prev).Err? ==>
              Entries(data, offset, depth, count, prev).error.violation != TrailingBytes
    decreases Levels(depth), count + 2
  {
    hide Item, Compare;
    if count > 0 {
      var one := OneEntry(data, offset, depth, prev);
      NeverTrailing(data, offset, depth);
      if Item(data, offset, depth).Ok? { NeverTrailing(data, Item(data, offset, depth).value.end, depth); }
      if one.Ok? {
        EntriesNeverTrail(data, one.value.end, depth, count - 1, Some(data[offset..one.value.keyEnd]));
      }
    }
  }

  /** Accepted with end offset `end` exactly when `data[offset..end]` canonically encodes some value. */
  lemma {:induction false} Exactness(data: seq<byte>, offset: nat, end: nat)
    ensures EndOf(Item(data, offset, 0)) == Ok(end) <==> exists v :: Canonical(data, offset, end, 0, v)
  {
    if EndOf(Item(data, offset, 0)) == Ok(end) {
      Sound(data, offset, 0);
      assert Canonical(data, offset, end, 0, Item(data, offset, 0).value.value);
    }
    if v :| Canonical(data, offset, end, 0, v) {
      Complete(data, offset, end, 0, v);
    }
  }

  /** Two accepted items that denote the same data are the same bytes. */
  lemma {:induction false} Canonicity(a: seq<byte>, b: seq<byte>, v: Value, w: Value)
    requires Canonical(a, 0, |a|, 0, v) && Canonical(b, 0, |b|, 0, w)
    ensures Denote(v) == Denote(w) <==> a == b
  {
    assert a[0..|a|] == a && b[0..|b|] == b;
    if Denote(v) == Denote(w) { DenoteInjective(v, w); }
    if a == b {
      Complete(a, 0, |a|, 0, v);
      Complete(a, 0, |a|, 0, w);
    }
  }

  /** No accepted item is a proper prefix of another. */
  lemma {:induction false} PrefixFree(data: seq<byte>, from: nat, a: nat, b: nat, v: Value, w: Value)
    requires Canonical(data, from, a, 0, v) && Canonical(data, from, b, 0, w)
    ensures a == b && v == w
  {
    Complete(data, from, a, 0, v);
    Complete(data, from, b, 0, w);
  }

  /** What follows an item never changes how the item itself is read. */
  lemma {:induction false} SuffixIrrelevant(data: seq<byte>, from: nat, to: nat, v: Value, tail: seq<byte>)
    requires Canonical(data, from, to, 0, v)
    ensures Item(data[..to] + tail, from, 0) == Ok(Parsed(v, to))
  {
    var other := data[..to] + tail;
    assert other[from..to] == data[from..to];
    Complete(other, from, to, 0, v);
  }
}
