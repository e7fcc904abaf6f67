/** At-sync frames (frame.rs): two canonical items, header then payload. */
module Frame {
  import opened Bytes
  import opened DrislValue
  import opened Drisl
  import opened DrislExact

  datatype Refusal = BadHeader(header: DrislError) | OneItem | BadPayload(payload: DrislError) | Trailing
                   | NoOp | NoType
  datatype Outcome<+T> = Accepted(value: T) | Refused(why: Refusal)
  datatype Objects = Objects(header: Value, payload: Value)
  datatype Frame = Frame(op: int, t: Option<seq<byte>>, seqNo: Option<int>, raw: seq<byte>)

  function Decode(raw: seq<byte>): Outcome<Objects> {
    match Item(raw, 0, 0)
    case Err(e) => Refused(BadHeader(e))
    case Ok(h) =>
      if h.end >= |raw| then Refused(OneItem) else
        match Item(raw, h.end, 0)
        case Err(e) => Refused(BadPayload(e))
        case Ok(p) => if p.end != |raw| then Refused(Trailing) else Accepted(Objects(h.value, p.value))
  }

  /** The first entry under `key` in document order; None when `v` is not a map. */
  function Field(v: Value, key: seq<byte>): Option<Value> {
    if v.Map? then Find(v.entries, key) else None
  }

  function Find(es: seq<Entry>, key: seq<byte>): Option<Value> {
    if es == [] then None else if es[0].key == key then Some(es[0].value) else Find(es[1..], key)
  }

  /** A CBOR integer narrowed with `as i64`: the low 64 bits in two's complement. */
  function AsI64(v: Value): Option<int> {
    match v
    case UInt(u) => Some(Wrap64(u))
    case NegInt(n) => Some(Wrap64(-1 - n))
    case _ => None
  }

  function AsText(v: Option<Value>): Option<seq<byte>> {
    if v.Some? && v.value.Text? then Some(v.value.t) else None
  }

  const OP: seq<byte> := [0x6f, 0x70]
  const T: seq<byte> := [0x74]
  const SEQ: seq<byte> := [0x73, 0x65, 0x71]
  const REPO: seq<byte> := [0x72, 0x65, 0x70, 0x6f]
  const DID: seq<byte> := [0x64, 0x69, 0x64]

  function Parse(raw: seq<byte>): Outcome<Frame> {
    match Decode(raw)
    case Refused(why) => Refused(why)
    case Accepted(o) =>
      var op := Field(o.header, OP);
      if op.None? || AsI64(op.value).None? then Refused(NoOp) else
        var t := AsText(Field(o.header, T));
        if AsI64(op.value).value == 1 && t.None? then Refused(NoType) else
          var seqField := Field(o.payload, SEQ);
          Accepted(Frame(AsI64(op.value).value, t, if seqField.Some? then AsI64(seqField.value) else None, raw))
  }

  /** router.rs `event_did`: `repo` if the payload has one, whatever its type, else `did`. */
  function EventDid(raw: seq<byte>): Option<seq<byte>> {
    match Decode(raw)
    case Refused(_) => None
    case Accepted(o) =>
      var repo := Field(o.payload, REPO);
      AsText(if repo.Some? then repo else Field(o.payload, DID))
  }

  /** `raw` is two canonical items, meeting at `split`. */
  ghost predicate SplitsAt(raw: seq<byte>, split: nat, o: Objects) {
    Canonical(raw, 0, split, 0, o.header) && Canonical(raw, split, |raw|, 0, o.payload)
  }

  /** A frame is accepted exactly when it is one canonical item followed by exactly one more. */
  lemma {:induction false} DecodeExact(raw: seq<byte>, o: Objects)
    ensures Decode(raw) == Accepted(o) <==> exists split :: SplitsAt(raw, split, o)
  {
    if Decode(raw) == Accepted(o) {
      Sound(raw, 0, 0);
      Sound(raw, Item(raw, 0, 0).value.end, 0);
      assert SplitsAt(raw, Item(raw, 0, 0).value.end, o);
    }
    if split: nat :| SplitsAt(raw, split, o) {
      Complete(raw, 0, split, 0, o.header);
      Complete(raw, split, |raw|, 0, o.payload);
    }
  }

  /** The header/payload boundary is unique, and so are the two objects. */
  lemma {:induction false} SplitUnique(raw: seq<byte>, a: nat, b: nat, o: Objects, p: Objects)
    requires SplitsAt(raw, a, o) && SplitsAt(raw, b, p)
    ensures a == b && o == p
  {
    PrefixFree(raw, 0, a, b, o.header, p.header);
    PrefixFree(raw, a, |raw|, |raw|, o.payload, p.payload);
  }

  /** On an accepted map a key has at most one entry, so every scan order finds the same value. */
  lemma {:induction false} FieldUnique(es: seq<Entry>, i: nat)
    requires SortedKeys(es) && i < |es|
    ensures Find(es, es[i].key) == Some(es[i].value)
    ensures forall j :: 0 <= j < |es| && es[j].key == es[i].key ==> j == i
  {
    forall a, b | 0 <= a < b < |es| ensures es[a].key != es[b].key {
      CompareEqual(es[a].key, es[b].key);
    }
    if i > 0 {
      SortedCons(es);
      FieldUnique(es[1..], i - 1);
    }
  }

  /** `Find` is lookup in the denoted map. */
  lemma {:induction false} FindDenotes(es: seq<Entry>, key: seq<byte>)
    ensures key in DenoteEntries(es) <==> Find(es, key).Some?
    ensures Find(es, key).Some? ==> Denote(Find(es, key).value) == DenoteEntries(es)[key]
  {
    if es != [] { FindDenotes(es[1..], key); }
  }

  lemma {:induction false} FieldDenotes(v: Value, key: seq<byte>)
    ensures Field(v, key).Some? <==> Denote(v).DMap? && key in Denote(v).m
    ensures Field(v, key).Some? ==> Denote(Field(v, key).value) == Denote(v).m[key]
    ensures AsText(Field(v, key)) == TextAt(Denote(v), key)
    ensures (if Field(v, key).Some? then AsI64(Field(v, key).value) else None) == IntAt(Denote(v), key)
  {
    if v.Map? { FindDenotes(v.entries, key); }
  }

  ghost predicate HeaderOk(h: Data) {
    IntAt(h, OP).Some? && (IntAt(h, OP) == Some(1) ==> TextAt(h, T).Some?)
  }

  ghost function TextAt(d: Data, key: seq<byte>): Option<seq<byte>> {
    if d.DMap? && key in d.m && d.m[key].DText? then Some(d.m[key].t) else None
  }

  ghost function IntAt(d: Data, key: seq<byte>): Option<int> {
    if d.DMap? && key in d.m && d.m[key].DInt? then Some(Wrap64(d.m[key].i)) else None
  }

  /** `parse` succeeds exactly on two-item frames whose header map has an integer `op`, and a text
      `t` when that is 1; the fields are what the denoted maps say and the bytes are kept as they came. */
  lemma {:induction false} ParseExact(raw: seq<byte>)
    ensures Parse(raw).Accepted? <==> Decode(raw).Accepted? && HeaderOk(Denote(Decode(raw).value.header))
    ensures Parse(raw).Accepted? ==>
            var f, o := Parse(raw).value, Decode(raw).value;
            && f.raw == raw
            && Some(f.op) == IntAt(Denote(o.header), OP)
            && f.t == TextAt(Denote(o.header), T)
            && f.seqNo == IntAt(Denote(o.payload), SEQ)
  {
    if Decode(raw).Accepted? {
      var o := Decode(raw).value;
      FieldDenotes(o.header, OP);
      FieldDenotes(o.header, T);
      FieldDenotes(o.payload, SEQ);
    }
  }

  ghost predicate HasItem(raw: seq<byte>, from: nat) { exists to, v :: Canonical(raw, from, to, 0, v) }

  lemma {:induction false} ItemReads(raw: seq<byte>, from: nat)
    ensures Item(raw, from, 0).Ok? <==> HasItem(raw, from)
    ensures Item(raw, from, 0).Ok? ==> var p := Item(raw, from, 0).value; Canonical(raw, from, p.end, 0, p.value)
    ensures forall to, v :: Canonical(raw, from, to, 0, v) ==> Item(raw, from, 0) == Ok(Parsed(v, to))
  {
    hide Canonical, Item;
    if Item(raw, from, 0).Ok? { Sound(raw, from, 0); }
    forall to, v | Canonical(raw, from, to, 0, v) ensures Item(raw, from, 0) == Ok(Parsed(v, to)) {
      Complete(raw, from, to, 0, v);
    }
  }

  /** Why a frame is refused: no canonical header, nothing after it, no canonical payload, or bytes left. */
  lemma {:induction false} RefusalExact(raw: seq<byte>)
    ensures (exists e :: Decode(raw) == Refused(BadHeader(e))) <==> !HasItem(raw, 0)
    ensures Decode(raw) == Refused(OneItem) <==> exists v :: Canonical(raw, 0, |raw|, 0, v)
    ensures (exists e :: Decode(raw) == Refused(BadPayload(e)))
            <==> exists at: nat, v :: at < |raw| && Canonical(raw, 0, at, 0, v) && !HasItem(raw, at)
    ensures Decode(raw) == Refused(Trailing)
            <==> exists at: nat, to: nat, v, w ::
                   to < |raw| && Canonical(raw, 0, at, 0, v) && Canonical(raw, at, to, 0, w)
  {
    ItemReads(raw, 0);
    if Item(raw, 0, 0).Ok? { ItemReads(raw, Item(raw, 0, 0).value.end); }
    hide Canonical, Item, HasItem;
  }

  /** And why one that is two items does not parse: no integer `op`, or `op` 1 without a text `t`. */
  lemma {:induction false} HeaderRefusal(raw: seq<byte>)
    requires Decode(raw).Accepted?
    ensures var h := Denote(Decode(raw).value.header);
            && (Parse(raw) == Refused(NoOp) <==> IntAt(h, OP).None?)
            && (Parse(raw) == Refused(NoType) <==> IntAt(h, OP) == Some(1) && TextAt(h, T).None?)
  {
    var o := Decode(raw).value;
    FieldDenotes(o.header, OP);
    FieldDenotes(o.header, T);
    hide Decode, Field, AsI64, AsText, Denote, IntAt, TextAt;
  }

  /** `op` and `seq` are signed 64-bit numbers: those of the denoted maps where these fit, and otherwise the
      ones that differ from them by a multiple of 2^64. */
  lemma {:induction false} NumbersExact(raw: seq<byte>)
    requires Parse(raw).Accepted?
    ensures var f, o := Parse(raw).value, Decode(raw).value;
            && var h, p := Denote(o.header), Denote(o.payload);
               && h.DMap? && OP in h.m && h.m[OP].DInt? && Narrowed(h.m[OP].i, f.op)
               && (f.seqNo.Some? <==> p.DMap? && SEQ in p.m && p.m[SEQ].DInt?)
               && (f.seqNo.Some? ==> Narrowed(p.m[SEQ].i, f.seqNo.value))
  {
    hide Decode, Field, AsI64, AsText, Denote, Parse, Wrap64, TextAt;
    ParseExact(raw);
    var h, p := Denote(Decode(raw).value.header), Denote(Decode(raw).value.payload);
    Wrap64Exact(h.m[OP].i, Wrap64(h.m[OP].i));
    if Parse(raw).value.seqNo.Some? { Wrap64Exact(p.m[SEQ].i, Wrap64(p.m[SEQ].i)); }
  }

  ghost predicate Narrowed(i: int, w: int) {
    && -0x8000_0000_0000_0000 <= w < 0x8000_0000_0000_0000 && (i - w) % U64 == 0
    && (-0x8000_0000_0000_0000 <= i < 0x8000_0000_0000_0000 ==> w == i)
  }

  /** The account of an accepted frame, in terms of its payload's meaning: a `repo` of any type
      shadows `did`. */
  lemma {:induction false} EventDidExact(raw: seq<byte>)
    requires Decode(raw).Accepted?
    ensures var d := Denote(Decode(raw).value.payload);
            EventDid(raw) == if d.DMap? && REPO in d.m then TextAt(d, REPO) else TextAt(d, DID)
  {
    FieldDenotes(Decode(raw).value.payload, REPO);
    FieldDenotes(Decode(raw).value.payload, DID);
  }
}
