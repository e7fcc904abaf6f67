/** DRISL values and their one canonical encoding: the reference the validator is measured against. */
module DrislValue {
  import opened Bytes

  /** A decoded item. Text and map keys are kept as UTF-8 bytes; `NegInt(n)` is the integer -1 - n. */
  datatype Value =
    | UInt(u: u64)
    | NegInt(n: u64)
    | ByteString(b: seq<byte>)
    | Text(t: seq<byte>)
    | Array(items: seq<Value>)
    | Map(entries: seq<Entry>)
    | Cid(cid: seq<byte>)
    | Float(bits: seq<byte>)
    | False | True | Null
  datatype Entry = Entry(key: seq<byte>, value: Value)

  const MAX_DEPTH := 128

  // ---- what is a DRISL value ----

  predicate Tail(b: byte) { 0x80 <= b <= 0xbf }

  /** Well-formed UTF-8, section 4 of RFC 3629. */
  predicate ValidUtf8(s: seq<byte>) {
    if s == [] then true
    else if s[0] <= 0x7f then ValidUtf8(s[1..])
    else if 0xc2 <= s[0] <= 0xdf then |s| >= 2 && Tail(s[1]) && ValidUtf8(s[2..])
    else if 0xe0 <= s[0] <= 0xef then
      && |s| >= 3 && Tail(s[1]) && Tail(s[2])
      && (s[0] == 0xe0 ==> s[1] >= 0xa0) && (s[0] == 0xed ==> s[1] <= 0x9f)
      && ValidUtf8(s[3..])
    else if 0xf0 <= s[0] <= 0xf4 then
      && |s| >= 4 && Tail(s[1]) && Tail(s[2]) && Tail(s[3])
      && (s[0] == 0xf0 ==> s[1] >= 0x90) && (s[0] == 0xf4 ==> s[1] <= 0x8f)
      && ValidUtf8(s[4..])
    else false
  }

  /** The eleven exponent bits of a big-endian binary64 are all ones: NaN or an infinity. */
  predicate NonFinite(bits: seq<byte>)
    requires |bits| == 8
  {
    bits[0] % 0x80 == 0x7f && bits[1] / 0x10 == 0xf
  }

  /** NaN is a non-finite pattern with a non-zero fraction. */
  predicate IsNan(bits: seq<byte>)
    requires |bits| == 8
  {
    NonFinite(bits) && (bits[1] % 0x10 != 0 || exists i :: 2 <= i < 8 && bits[i] != 0)
  }

  /** Length-first key order, section 3.9 of RFC 7049. */
  function LengthFirst(a: seq<byte>, b: seq<byte>): Ordering {
    if |a| != |b| then CompareInt(|a|, |b|) else Compare(a, b)
  }

  ghost predicate SortedKeys(es: seq<Entry>) {
    forall i, j :: 0 <= i < j < |es| ==> LengthFirst(es[i].key, es[j].key) == Less
  }

  /** The values DRISL admits: UTF-8 text, finite floats, maps with sorted (hence unique) text keys. */
  ghost predicate Valid(v: Value) {
    match v
    case UInt(_) | NegInt(_) | False | True | Null => true
    case ByteString(b) => |b| < U64
    case Text(t) => |t| < U64 && ValidUtf8(t)
    case Array(items) => |items| < U64 && AllValid(items)
    case Map(es) => |es| < U64 && SortedKeys(es) && EntriesValid(es)
    case Cid(c) => |c| + 1 < U64
    case Float(bits) => |bits| == 8 && !NonFinite(bits)
  }

  ghost predicate AllValid(vs: seq<Value>) {
    vs == [] || (Valid(vs[0]) && AllValid(vs[1..]))
  }

  ghost predicate EntriesValid(es: seq<Entry>) {
    es == [] || (|es[0].key| < U64 && ValidUtf8(es[0].key) && Valid(es[0].value) && EntriesValid(es[1..]))
  }

  /** Nesting depth: map keys and the byte string under a CID tag lie one level down. */
  function Height(v: Value): nat {
    match v
    case Array(items) => if items == [] then 0 else 1 + ItemsHeight(items)
    case Map(es) => if es == [] then 0 else 1 + EntriesHeight(es)
    case Cid(_) => 1
    case _ => 0
  }

  function ItemsHeight(vs: seq<Value>): nat {
    if vs == [] then 0 else Max(Height(vs[0]), ItemsHeight(vs[1..]))
  }

  function EntriesHeight(es: seq<Entry>): nat {
    if es == [] then 0 else Max(Height(es[0].value), EntriesHeight(es[1..]))
  }

  // ---- the canonical encoding (section 4.2.1 of RFC 8949) ----

  /** The shortest head carrying `arg`, section 3 of RFC 8949. */
  function Head(major: nat, arg: u64): (h: seq<byte>)
    requires major < 8
    ensures 1 <= |h| <= 9 && h[0] / 32 == major
  {
    if arg < 24 then [major * 32 + arg]
    else if arg < 0x100 then [major * 32 + 24] + BigEndian(arg, 1)
    else if arg < 0x1_0000 then [major * 32 + 25] + BigEndian(arg, 2)
    else if arg < U32 then [major * 32 + 26] + BigEndian(arg, 4)
    else [major * 32 + 27] + BigEndian(arg, 8)
  }

  function Encode(v: Value): seq<byte>
    requires Valid(v)
  {
    match v
    case UInt(u) => Head(0, u)
    case NegInt(n) => Head(1, n)
    case ByteString(b) => Head(2, |b|) + b
    case Text(t) => Head(3, |t|) + t
    case Array(items) => Head(4, |items|) + EncodeItems(items)
    case Map(es) => Head(5, |es|) + EncodeEntries(es)
    case Cid(c) => Head(6, 42) + (Head(2, |c| + 1) + ([0] + c))
    case Float(bits) => [0xfb] + bits
    case False => [0xf4]
    case True => [0xf5]
    case Null => [0xf6]
  }

  function EncodeKey(key: seq<byte>): seq<byte>
    requires |key| < U64
  {
    Head(3, |key|) + key
  }

  function EncodeItems(vs: seq<Value>): seq<byte>
    requires AllValid(vs)
  {
    if vs == [] then [] else Encode(vs[0]) + EncodeItems(vs[1..])
  }

  function EncodeEntries(es: seq<Entry>): seq<byte>
    requires EntriesValid(es)
  {
    if es == [] then []
    else EncodeKey(es[0].key) + (Encode(es[0].value) + EncodeEntries(es[1..]))
  }

  // ---- what a value means, with no trace of how it was written down ----

  datatype Data =
    | DInt(i: int) | DBytes(b: seq<byte>) | DText(t: seq<byte>) | DArray(items: seq<Data>)
    | DMap(m: map<seq<byte>, Data>) | DLink(cid: seq<byte>) | DFloat(bits: seq<byte>)
    | DFalse | DTrue | DNull

  function Denote(v: Value): Data {
    match v
    case UInt(u) => DInt(u)
    case NegInt(n) => DInt(-1 - n)
    case ByteString(b) => DBytes(b)
    case Text(t) => DText(t)
    case Array(items) => DArray(DenoteItems(items))
    case Map(es) => DMap(DenoteEntries(es))
    case Cid(c) => DLink(c)
    case Float(bits) => DFloat(bits)
    case False => DFalse
    case True => DTrue
    case Null => DNull
  }

  function DenoteItems(vs: seq<Value>): (ds: seq<Data>)
    ensures |ds| == |vs|
  {
    if vs == [] then [] else [Denote(vs[0])] + DenoteItems(vs[1..])
  }

  function DenoteEntries(es: seq<Entry>): (m: map<seq<byte>, Data>)
    ensures forall k :: k in m <==> exists i :: 0 <= i < |es| && es[i].key == k
  {
    if es == [] then map[] else
      var rest := DenoteEntries(es[1..]);
      assert forall i :: 1 <= i < |es| ==> es[i] == es[1..][i - 1];
      rest[es[0].key := Denote(es[0].value)]
  }

  // ---- key order ----

  /** Shorter argument, smaller head: across all five head widths. */
  lemma {:induction false} HeadOrder(m: nat, x: u64, y: u64, a: seq<byte>, b: seq<byte>)
    requires m < 8 && x < y
    ensures Compare(Head(m, x) + a, Head(m, y) + b) == Less
  {
    var hx, hy := Head(m, x), Head(m, y);
    if hx[0] == hy[0] {
      Powers();
      if |hx| > 1 {
        var w := |hx| - 1;
        DigitsOrder(256, 0, x, y, w);
        CompareAppend([hx[0]], [hy[0]], BigEndian(x, w), BigEndian(y, w));
      }
      CompareEqual(hx, hy);
      CompareAppend(hx, hy, a, b);
    } else {
      assert hx[0] < hy[0];
    }
  }

  /** Bytewise order of encoded text keys is length-first order of the keys. */
  lemma {:induction false} EncodedKeyOrder(a: seq<byte>, b: seq<byte>)
    requires |a| < U64 && |b| < U64
    ensures Compare(EncodeKey(a), EncodeKey(b)) == LengthFirst(a, b)
  {
    if |a| < |b| {
      HeadOrder(3, |a|, |b|, a, b);
    } else if |a| > |b| {
      HeadOrder(3, |b|, |a|, b, a);
      CompareFlip(EncodeKey(b), EncodeKey(a));
    } else {
      CompareAppend(Head(3, |a|), Head(3, |b|), a, b);
    }
  }

  lemma {:induction false} LengthFirstTransitive(a: seq<byte>, b: seq<byte>, c: seq<byte>)
    requires LengthFirst(a, b) == Less && LengthFirst(b, c) == Less
    ensures LengthFirst(a, c) == Less
  {
    if |a| == |b| == |c| { CompareTransitive(a, b, c); }
  }

  /** Putting a key in front needs one comparison, with its neighbour. */
  lemma {:induction false} SortedCons(es: seq<Entry>)
    requires es != []
    ensures SortedKeys(es) <==>
            SortedKeys(es[1..]) && (|es| > 1 ==> LengthFirst(es[0].key, es[1].key) == Less)
  {
    if SortedKeys(es) {
      assert forall i :: 0 <= i < |es| - 1 ==> es[1..][i] == es[i + 1];
    }
    if |es| > 1 && SortedKeys(es[1..]) && LengthFirst(es[0].key, es[1].key) == Less {
      forall i, j | 0 <= i < j < |es| ensures LengthFirst(es[i].key, es[j].key) == Less {
        assert es[j] == es[1..][j - 1] && es[1] == es[1..][0];
        if i > 0 {
          assert es[i] == es[1..][i - 1];
        } else if j > 1 {
          LengthFirstTransitive(es[0].key, es[1].key, es[j].key);
        }
      }
    }
  }

  // ---- one value, one encoding ----

  /** Valid values that denote the same data are the same value, so they have the same encoding. */
  lemma {:induction false} DenoteInjective(v: Value, w: Value)
    requires Valid(v) && Valid(w) && Denote(v) == Denote(w)
    ensures v == w
    decreases v
  {
    match v {
      case Array(items) => DenoteItemsInjective(items, w.items);
      case Map(es) => DenoteEntriesInjective(es, w.entries);
      case _ =>
    }
  }

  lemma {:induction false} DenoteItemsInjective(vs: seq<Value>, ws: seq<Value>)
    requires AllValid(vs) && AllValid(ws) && DenoteItems(vs) == DenoteItems(ws)
    ensures vs == ws
    decreases vs
  {
    if vs != [] && ws != [] {
      assert DenoteItems(vs)[0] == DenoteItems(ws)[0];
      assert DenoteItems(vs)[1..] == DenoteItems(vs[1..]) && DenoteItems(ws)[1..] == DenoteItems(ws[1..]);
      DenoteInjective(vs[0], ws[0]);
      DenoteItemsInjective(vs[1..], ws[1..]);
      assert vs == [vs[0]] + vs[1..] && ws == [ws[0]] + ws[1..];
    }
  }

  lemma {:induction false} FirstKeyLeast(es: seq<Entry>)
    requires es != [] && SortedKeys(es)
    ensures SortedKeys(es[1..])
    ensures forall k :: k in DenoteEntries(es[1..]) ==> LengthFirst(es[0].key, k) == Less
    ensures es[0].key !in DenoteEntries(es[1..])
  {
    SortedCons(es);
    forall k | k in DenoteEntries(es[1..]) ensures LengthFirst(es[0].key, k) == Less {
      var i :| 0 <= i < |es[1..]| && es[1..][i].key == k;
      assert es[i + 1].key == k;
    }
    CompareEqual(es[0].key, es[0].key);
  }

  lemma {:induction false} RemoveAdded<K, V>(m: map<K, V>, k: K, v: V)
    requires k !in m
    ensures m[k := v] - {k} == m
  {
  }

  lemma {:induction false} DenoteEntriesInjective(es: seq<Entry>, fs: seq<Entry>)
    requires EntriesValid(es) && EntriesValid(fs) && SortedKeys(es) && SortedKeys(fs)
    requires DenoteEntries(es) == DenoteEntries(fs)
    ensures es == fs
    decreases es
  {
    assert es != [] ==> es[0].key in DenoteEntries(es);
    assert fs != [] ==> fs[0].key in DenoteEntries(fs);
    if es != [] {
      FirstKeyLeast(es);
      FirstKeyLeast(fs);
      CompareFlip(es[0].key, fs[0].key);
      assert es[0].key == fs[0].key;
      RemoveAdded(DenoteEntries(es[1..]), es[0].key, Denote(es[0].value));
      RemoveAdded(DenoteEntries(fs[1..]), fs[0].key, Denote(fs[0].value));
      assert DenoteEntries(es)[es[0].key] == Denote(es[0].value);
      assert DenoteEntries(fs)[fs[0].key] == Denote(fs[0].value);
      DenoteInjective(es[0].value, fs[0].value);
      DenoteEntriesInjective(es[1..], fs[1..]);
      assert es == [es[0]] + es[1..] && fs == [fs[0]] + fs[1..];
    }
  }
}
