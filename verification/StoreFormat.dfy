/** Segment file formats of the group store (store.rs): records, whole-record scan, torn tails. */
module StoreFormat {
  import opened Bytes

  const V1_HEADER := 20
  const V2_HEADER := 24

  datatype Record = Record(seqNo: u64, ms: u64, frames: seq<seq<byte>>)

  function HeaderLen(v2: bool): nat { if v2 then V2_HEADER else V1_HEADER }

  /** Length-prefixed frames. Writing four little-endian bytes of a length is its cast to u32. */
  function Body(frames: seq<seq<byte>>): seq<byte> {
    if frames == [] then [] else LittleEndian(|frames[0]|, 4) + (frames[0] + Body(frames[1..]))
  }

  function Header(v2: bool, r: Record): (h: seq<byte>)
    ensures |h| == HeaderLen(v2)
  {
    LittleEndian(r.seqNo, 8) + LittleEndian(r.ms, 8) + LittleEndian(|r.frames|, 4)
    + if v2 then LittleEndian(|Body(r.frames)|, 4) else []
  }

  function Encode(v2: bool, r: Record): (s: seq<byte>)
    ensures |s| == HeaderLen(v2) + |Body(r.frames)|
  {
    Header(v2, r) + Body(r.frames)
  }

  function EncodeAll(v2: bool, rs: seq<Record>): seq<byte> {
    if rs == [] then [] else EncodeAll(v2, rs[..|rs| - 1]) + Encode(v2, rs[|rs| - 1])
  }

  ghost predicate FramesFit(frames: seq<seq<byte>>) {
    forall i :: 0 <= i < |frames| ==> |frames[i]| < U32
  }

  /** All lengths fit the u32 fields they are stored in. */
  ghost predicate Fits(r: Record) {
    |r.frames| < U32 && |Body(r.frames)| < U32 && FramesFit(r.frames)
  }

  // ---- what a header says ----

  datatype Head = Head(seqNo: u64, ms: u64, count: nat, claimed: nat)

  function HeadAt(file: seq<byte>, offset: nat, v2: bool): Head
    requires offset + HeaderLen(v2) <= |file|
  {
    FromLittleEndianBound(file[offset..offset + 8]);
    FromLittleEndianBound(file[offset + 8..offset + 16]);
    Powers();
    Head(FromLittleEndian(file[offset..offset + 8]),
         FromLittleEndian(file[offset + 8..offset + 16]),
         FromLittleEndian(file[offset + 16..offset + 20]),
         if v2 then FromLittleEndian(file[offset + 20..offset + 24]) else 0)
  }

  // ---- reading one record ----

  function FramesAt(file: seq<byte>, pos: nat, count: nat): (fs: Option<seq<seq<byte>>>)
    requires pos <= |file|
    decreases count
  {
    if count == 0 then Some([])
    else if pos + 4 > |file| then None
    else
      var n := FromLittleEndian(file[pos..pos + 4]);
      if pos + 4 + n > |file| then None else
        var rest := FramesAt(file, pos + 4 + n, count - 1);
        if rest.None? then None else Some([file[pos + 4..pos + 4 + n]] + rest.value)
  }

  function RecordAt(file: seq<byte>, offset: nat, v2: bool): Option<Record> {
    if offset + HeaderLen(v2) > |file| then None else
      var h := HeadAt(file, offset, v2);
      var fs := FramesAt(file, offset + HeaderLen(v2), h.count);
      if fs.None? then None else Some(Record(h.seqNo, h.ms, fs.value))
  }

  method ReadRecord(file: seq<byte>, offset: nat, v2: bool) returns (r: Option<Record>)
    ensures r == RecordAt(file, offset, v2)
  {
    hide FromLittleEndian, HeadAt;
    if offset + HeaderLen(v2) > |file| { return None; }
    var h := HeadAt(file, offset, v2);
    var start := offset + HeaderLen(v2);
    var frames, pos, i := [], start, 0;
    assert FramesAt(file, start, h.count).Some? ==>
             [] + FramesAt(file, start, h.count).value == FramesAt(file, start, h.count).value;
    while i < h.count
      invariant 0 <= i <= h.count && start <= pos <= |file|
      invariant var rest := FramesAt(file, pos, h.count - i);
                FramesAt(file, start, h.count) == if rest.None? then None else Some(frames + rest.value)
    {
      if pos + 4 > |file| { return None; }
      var n := FromLittleEndian(file[pos..pos + 4]);
      if pos + 4 + n > |file| { return None; }
      ghost var rest := FramesAt(file, pos + 4 + n, h.count - i - 1);
      if rest.Some? {
        assert frames + ([file[pos + 4..pos + 4 + n]] + rest.value)
            == (frames + [file[pos + 4..pos + 4 + n]]) + rest.value;
      }
      frames := frames + [file[pos + 4..pos + 4 + n]];
      pos, i := pos + 4 + n, i + 1;
    }
    assert frames + [] == frames;
    return Some(Record(h.seqNo, h.ms, frames));
  }

  // ---- scanning a segment ----

  /** Length of `count` frames from `cursor`, or None when they run past the end (v1 bodies). */
  function Walk(file: seq<byte>, cursor: nat, count: nat): (n: Option<nat>)
    ensures n.Some? && cursor <= |file| ==> cursor + n.value <= |file|
    decreases count
  {
    if count == 0 then Some(0)
    else if cursor + 4 > |file| then None
    else
      var n := 4 + FromLittleEndian(file[cursor..cursor + 4]);
      if cursor + n > |file| then None else
        var rest := Walk(file, cursor + n, count - 1);
        if rest.None? then None else Some(n + rest.value)
  }

  method WalkV1Body(file: seq<byte>, bodyStart: nat, count: nat) returns (n: Option<nat>)
    requires bodyStart <= |file|
    ensures n == Walk(file, bodyStart, count)
  {
    var cursor, i := bodyStart, 0;
    while i < count
      invariant 0 <= i <= count && bodyStart <= cursor <= |file|
      invariant var rest := Walk(file, cursor, count - i);
                Walk(file, bodyStart, count)
                == if rest.None? then None else Some(cursor - bodyStart + rest.value)
    {
      if cursor + 4 > |file| { return None; }
      var len := FromLittleEndian(file[cursor..cursor + 4]);
      if cursor + 4 + len > |file| { return None; }
      cursor, i := cursor + 4 + len, i + 1;
    }
    return Some(cursor - bodyStart);
  }

  /** Extent of the record at `offset`; None for a clean end, a torn header or a torn body. */
  function Extent(file: seq<byte>, offset: nat, v2: bool): (n: Option<nat>)
    ensures n.Some? ==> n.value >= HeaderLen(v2) && offset + n.value <= |file|
  {
    if offset + HeaderLen(v2) > |file| then None else
      var h := HeadAt(file, offset, v2);
      if v2 then
        if offset + V2_HEADER + h.claimed > |file| then None else Some(V2_HEADER + h.claimed)
      else
        var body := Walk(file, offset + V1_HEADER, h.count);
        if body.None? then None else Some(V1_HEADER + body.value)
  }

  datatype Found = Found(seqNo: u64, ms: u64, offset: nat)
  datatype Scanned = Scanned(found: seq<Found>, end: nat)

  function ScanFile(file: seq<byte>, offset: nat, v2: bool): (s: Scanned)
    requires offset <= |file|
    ensures offset <= s.end <= |file|
    decreases |file| - offset
  {
    var n := Extent(file, offset, v2);
    if n.None? then Scanned([], offset) else
      var h := HeadAt(file, offset, v2);
      var rest := ScanFile(file, offset + n.value, v2);
      Scanned([Found(h.seqNo, h.ms, offset)] + rest.found, rest.end)
  }

  // ---- round trips ----

  /** `part` lies at `offset` of `file`. */
  predicate At(file: seq<byte>, offset: nat, part: seq<byte>) {
    offset + |part| <= |file| && file[offset..offset + |part|] == part
  }

  lemma {:induction false} AtSplit(file: seq<byte>, offset: nat, a: seq<byte>, b: seq<byte>)
    ensures At(file, offset, a + b) <==> At(file, offset, a) && At(file, offset + |a|, b)
  {
    if offset + |a| + |b| <= |file| {
      assert file[offset..offset + |a| + |b|] == file[offset..offset + |a|] + file[offset + |a|..offset + |a| + |b|];
      if At(file, offset, a + b) {
        assert (a + b)[..|a|] == a && (a + b)[|a|..] == b;
      }
    }
  }

  /** The header's fields, each where the reader looks for it. */
  lemma {:induction false} HeaderFields(file: seq<byte>, offset: nat, v2: bool, r: Record)
    requires At(file, offset, Header(v2, r))
    ensures file[offset..offset + 8] == LittleEndian(r.seqNo, 8)
    ensures file[offset + 8..offset + 16] == LittleEndian(r.ms, 8)
    ensures file[offset + 16..offset + 20] == LittleEndian(|r.frames|, 4)
    ensures v2 ==> file[offset + 20..offset + 24] == LittleEndian(|Body(r.frames)|, 4)
  {
    var s, m, c := LittleEndian(r.seqNo, 8), LittleEndian(r.ms, 8), LittleEndian(|r.frames|, 4);
    AtSplit(file, offset, s + m + c, if v2 then LittleEndian(|Body(r.frames)|, 4) else []);
    AtSplit(file, offset, s + m, c);
    AtSplit(file, offset, s, m);
  }

  lemma {:induction false} U64RoundTrip(n: u64)
    ensures FromLittleEndian(LittleEndian(n, 8)) == n
  {
    Powers();
    LittleEndianRoundTrip(n, 8);
  }

  lemma {:induction false} U32RoundTrip(n: nat)
    requires n < U32
    ensures FromLittleEndian(LittleEndian(n, 4)) == n
  {
    Powers();
    LittleEndianRoundTrip(n, 4);
  }

  lemma {:induction false} HeadRoundTrip(file: seq<byte>, offset: nat, v2: bool, r: Record)
    requires At(file, offset, Header(v2, r))
    ensures var h := HeadAt(file, offset, v2);
            && h.seqNo == r.seqNo && h.ms == r.ms
            && (|r.frames| < U32 ==> h.count == |r.frames|)
            && (v2 ==> h.claimed == |Body(r.frames)| % U32)
  {
    HeaderFields(file, offset, v2, r);
    U64RoundTrip(r.seqNo);
    U64RoundTrip(r.ms);
    if |r.frames| < U32 { U32RoundTrip(|r.frames|); }
    LittleEndianTruncates(|Body(r.frames)|);
  }

  lemma {:induction false} LittleEndianStep(n: nat, w: nat)
    requires w > 0
    ensures FromLittleEndian(LittleEndian(n, w)) == n % 256 + 256 * FromLittleEndian(LittleEndian(n / 256, w - 1))
  {
    assert LittleEndian(n, w)[1..] == LittleEndian(n / 256, w - 1);
  }

  /** Four bytes keep a length modulo 2^32. */
  lemma {:induction false} LittleEndianTruncates(n: nat)
    ensures FromLittleEndian(LittleEndian(n, 4)) == n % U32
  {
    hide LittleEndian, FromLittleEndian;
    var n1 := n / 256;
    var n2 := n1 / 256;
    var n3 := n2 / 256;
    LittleEndianStep(n, 4);
    LittleEndianStep(n1, 3);
    LittleEndianStep(n2, 2);
    LittleEndianStep(n3, 1);
    assert FromLittleEndian(LittleEndian(n3 / 256, 0)) == 0 by { NoBytes(n3 / 256); }
    assert n == FromLittleEndian(LittleEndian(n, 4)) + U32 * (n3 / 256);
  }

  lemma {:induction false} NoBytes(n: nat)
    ensures FromLittleEndian(LittleEndian(n, 0)) == 0
  {
  }

  lemma {:induction false} FrameAt(file: seq<byte>, pos: nat, len: seq<byte>, f: seq<byte>, rest: seq<byte>)
    requires |len| == 4 && At(file, pos, len + (f + rest))
    ensures pos + 4 + |f| <= |file| && file[pos..pos + 4] == len
    ensures file[pos + 4..pos + 4 + |f|] == f && At(file, pos + 4 + |f|, rest)
  {
    AtSplit(file, pos, len, f + rest);
    AtSplit(file, pos + 4, f, rest);
  }

  /** Reading frames back, whatever follows them. */
  lemma {:induction false} FramesRoundTrip(file: seq<byte>, pos: nat, frames: seq<seq<byte>>)
    requires pos <= |file| && FramesFit(frames) && At(file, pos, Body(frames))
    ensures FramesAt(file, pos, |frames|) == Some(frames)
    decreases frames
  {
    hide LittleEndian, FromLittleEndian;
    if frames != [] {
      var f, rest := frames[0], frames[1..];
      FrameAt(file, pos, LittleEndian(|f|, 4), f, Body(rest));
      U32RoundTrip(|f|);
      FramesRoundTrip(file, pos + 4 + |f|, rest);
      assert frames == [f] + rest;
    }
  }

  lemma {:induction false} WalkRoundTrip(file: seq<byte>, pos: nat, frames: seq<seq<byte>>)
    requires pos <= |file| && FramesFit(frames) && At(file, pos, Body(frames))
    ensures Walk(file, pos, |frames|) == Some(|Body(frames)|)
    decreases frames
  {
    hide LittleEndian, FromLittleEndian;
    if frames != [] {
      FrameAt(file, pos, LittleEndian(|frames[0]|, 4), frames[0], Body(frames[1..]));
      U32RoundTrip(|frames[0]|);
      WalkRoundTrip(file, pos + 4 + |frames[0]|, frames[1..]);
    }
  }

  /** `read_record` inverts the append encoding, in both formats and with anything following. */
  lemma {:induction false} RecordRoundTrip(file: seq<byte>, offset: nat, v2: bool, r: Record)
    requires |r.frames| < U32 && FramesFit(r.frames) && At(file, offset, Encode(v2, r))
    ensures RecordAt(file, offset, v2) == Some(r)
  {
    AtSplit(file, offset, Header(v2, r), Body(r.frames));
    HeadRoundTrip(file, offset, v2, r);
    FramesRoundTrip(file, offset + HeaderLen(v2), r.frames);
  }

  /** `r` lies at `offset` as far as a reader looks: header fields it uses, then the frames. */
  ghost predicate Lies(file: seq<byte>, offset: nat, v2: bool, r: Record) {
    && offset + HeaderLen(v2) <= |file| && |r.frames| < U32 && FramesFit(r.frames)
    && file[offset..offset + 8] == LittleEndian(r.seqNo, 8)
    && file[offset + 8..offset + 16] == LittleEndian(r.ms, 8)
    && file[offset + 16..offset + 20] == LittleEndian(|r.frames|, 4)
    && At(file, offset + HeaderLen(v2), Body(r.frames))
  }

  lemma {:induction false} FramesSound(file: seq<byte>, pos: nat, count: nat)
    requires pos <= |file| && FramesAt(file, pos, count).Some?
    ensures var fs := FramesAt(file, pos, count).value;
            |fs| == count && FramesFit(fs) && At(file, pos, Body(fs))
    decreases count
  {
    hide LittleEndian, FromLittleEndian;
    if count > 0 {
      var len := file[pos..pos + 4];
      var n := FromLittleEndian(len);
      FromLittleEndianRoundTrip(len);
      FromLittleEndianBound(len);
      Powers();
      FramesSound(file, pos + 4 + n, count - 1);
      var f, rest := file[pos + 4..pos + 4 + n], FramesAt(file, pos + 4 + n, count - 1).value;
      AtSplit(file, pos + 4, f, Body(rest));
      AtSplit(file, pos, len, f + Body(rest));
    }
  }

  /** A record is read exactly when it lies there: nothing torn, and nothing else, reads as one. */
  lemma {:induction false} RecordExact(file: seq<byte>, offset: nat, v2: bool, r: Record)
    ensures RecordAt(file, offset, v2) == Some(r) <==> Lies(file, offset, v2, r)
  {
    if offset + HeaderLen(v2) <= |file| {
      FieldsRoundTrip(file, offset, r);
      hide LittleEndian, FromLittleEndian, Body, FramesAt, HeaderLen;
      var count := HeadAt(file, offset, v2).count;
      if FramesAt(file, offset + HeaderLen(v2), count).Some? { FramesSound(file, offset + HeaderLen(v2), count); }
      if Lies(file, offset, v2, r) { FramesRoundTrip(file, offset + HeaderLen(v2), r.frames); }
    }
  }

  lemma {:induction false} FieldsRoundTrip(file: seq<byte>, offset: nat, r: Record)
    requires offset + 20 <= |file|
    ensures FromLittleEndian(file[offset..offset + 8]) == r.seqNo
            <==> file[offset..offset + 8] == LittleEndian(r.seqNo, 8)
    ensures FromLittleEndian(file[offset + 8..offset + 16]) == r.ms
            <==> file[offset + 8..offset + 16] == LittleEndian(r.ms, 8)
    ensures |r.frames| < U32 ==> (FromLittleEndian(file[offset + 16..offset + 20]) == |r.frames|
            <==> file[offset + 16..offset + 20] == LittleEndian(|r.frames|, 4))
    ensures FromLittleEndian(file[offset + 16..offset + 20]) < U32
  {
    FromLittleEndianRoundTrip(file[offset..offset + 8]);
    FromLittleEndianRoundTrip(file[offset + 8..offset + 16]);
    FromLittleEndianRoundTrip(file[offset + 16..offset + 20]);
    FromLittleEndianBound(file[offset + 16..offset + 20]);
    Powers();
    hide LittleEndian, FromLittleEndian, Power;
    U64RoundTrip(r.seqNo);
    U64RoundTrip(r.ms);
    if |r.frames| < U32 { U32RoundTrip(|r.frames|); }
  }

  /** A record in place: its header, and then its body. */
  lemma {:induction false} RecordParts(file: seq<byte>, offset: nat, v2: bool, r: Record)
    requires At(file, offset, Encode(v2, r)) && Fits(r)
    ensures var start := offset + HeaderLen(v2);
            && offset + |Encode(v2, r)| == start + |Body(r.frames)| <= |file|
            && HeadAt(file, offset, v2).seqNo == r.seqNo && HeadAt(file, offset, v2).ms == r.ms
            && HeadAt(file, offset, v2).count == |r.frames|
            && (v2 ==> HeadAt(file, offset, v2).claimed == |Body(r.frames)|)
            && At(file, start, Body(r.frames))
  {
    hide Body, LittleEndian, FromLittleEndian, HeadAt;
    AtSplit(file, offset, Header(v2, r), Body(r.frames));
    HeadRoundTrip(file, offset, v2, r);
  }

  lemma {:induction false} ExtentRoundTrip(file: seq<byte>, offset: nat, v2: bool, r: Record)
    requires Fits(r) && At(file, offset, Encode(v2, r))
    ensures Extent(file, offset, v2) == Some(|Encode(v2, r)|)
    ensures HeadAt(file, offset, v2).seqNo == r.seqNo && HeadAt(file, offset, v2).ms == r.ms
  {
    RecordParts(file, offset, v2, r);
    if !v2 { WalkRoundTrip(file, offset + V1_HEADER, r.frames); }
  }

  /** The v2 body length is a u32: the scan steps to the end of a record exactly when its body is
      under 4 GiB. */
  lemma {:induction false} ExtentExact(file: seq<byte>, offset: nat, r: Record)
    requires At(file, offset, Encode(true, r))
    ensures Extent(file, offset, true) == Some(|Encode(true, r)|) <==> |Body(r.frames)| < U32
  {
    hide Walk, Body, LittleEndian, FromLittleEndian;
    AtSplit(file, offset, Header(true, r), Body(r.frames));
    HeadRoundTrip(file, offset, true, r);
  }

  // ---- torn tails ----

  /** A file ending inside the body of a record holds too few frames for it. */
  lemma {:induction false} TornWalk(file: seq<byte>, pos: nat, frames: seq<seq<byte>>)
    requires FramesFit(frames) && pos <= |file| < pos + |Body(frames)|
    requires file[pos..] == Body(frames)[..|file| - pos]
    ensures Walk(file, pos, |frames|).None?
    decreases frames
  {
    var len, f, rest := LittleEndian(|frames[0]|, 4), frames[0], frames[1..];
    if pos + 4 <= |file| {
      assert file[pos..pos + 4] == file[pos..][..4] == len;
      U32RoundTrip(|f|);
      var next := pos + 4 + |f|;
      if next <= |file| {
        assert file[next..] == file[pos..][next - pos..] == Body(rest)[..|file| - next];
        TornWalk(file, next, rest);
      }
    }
  }

  lemma {:induction false} TornExtent(file: seq<byte>, offset: nat, v2: bool, r: Record)
    requires Fits(r) && offset <= |file| < offset + |Encode(v2, r)|
    requires file[offset..] == Encode(v2, r)[..|file| - offset]
    ensures Extent(file, offset, v2).None?
  {
    hide Body, Header, HeadAt, FramesFit, LittleEndian;
    var start := offset + HeaderLen(v2);
    if start <= |file| {
      assert file[offset..start] == file[offset..][..HeaderLen(v2)] == Header(v2, r);
      HeadRoundTrip(file, offset, v2, r);
      assert file[start..] == file[offset..][HeaderLen(v2)..] == Body(r.frames)[..|file| - start];
      if !v2 { TornWalk(file, start, r.frames); }
    }
  }

  /** Offset of record `k`: the records before it, end to end. */
  function OffsetOf(v2: bool, rs: seq<Record>, k: nat): nat
    requires k <= |rs|
  {
    |EncodeAll(v2, rs[..k])|
  }

  function FoundAll(v2: bool, rs: seq<Record>, from: nat): seq<Found>
    requires from <= |rs|
    decreases |rs| - from
  {
    if from == |rs| then []
    else [Found(rs[from].seqNo, rs[from].ms, OffsetOf(v2, rs, from))] + FoundAll(v2, rs, from + 1)
  }

  lemma {:induction false} RecordInPlace(v2: bool, rs: seq<Record>, k: nat, tail: seq<byte>)
    requires k < |rs|
    ensures At(EncodeAll(v2, rs) + tail, OffsetOf(v2, rs, k), Encode(v2, rs[k]))
    ensures OffsetOf(v2, rs, k + 1) == OffsetOf(v2, rs, k) + |Encode(v2, rs[k])| <= |EncodeAll(v2, rs)|
  {
    hide Encode;
    var init, last := rs[..|rs| - 1], Encode(v2, rs[|rs| - 1]);
    assert rs[..k + 1][..k] == rs[..k];
    if k == |rs| - 1 {
      assert rs[..k + 1] == rs;
      AtSplit(EncodeAll(v2, rs) + tail, 0, EncodeAll(v2, init), last);
    } else {
      assert init[..k] == rs[..k] && init[..k + 1] == rs[..k + 1];
      RecordInPlace(v2, init, k, last + tail);
      assert EncodeAll(v2, init) + (last + tail) == EncodeAll(v2, rs) + tail;
    }
  }

  /** What a crash can leave at the end of a segment: a strict prefix of one more record. */
  ghost predicate Torn(v2: bool, tail: seq<byte>) {
    tail == [] || exists r :: Fits(r) && |tail| < |Encode(v2, r)| && tail == Encode(v2, r)[..|tail|]
  }

  /** Whole records followed by a torn tail: the scan finds exactly the records and cuts the tail. */
  lemma {:induction false} ScanRecovers(v2: bool, rs: seq<Record>, tail: seq<byte>, from: nat)
    requires from <= |rs| && Torn(v2, tail)
    requires forall k :: 0 <= k < |rs| ==> Fits(rs[k])
    ensures OffsetOf(v2, rs, from) <= |EncodeAll(v2, rs)|
    ensures ScanFile(EncodeAll(v2, rs) + tail, OffsetOf(v2, rs, from), v2)
            == Scanned(FoundAll(v2, rs, from), |EncodeAll(v2, rs)|)
    decreases |rs| - from
  {
    hide EncodeAll, Encode, OffsetOf, Extent, HeadAt, Torn;
    var file := EncodeAll(v2, rs) + tail;
    if from == |rs| {
      ScanStops(v2, rs, tail);
    } else {
      RecordInPlace(v2, rs, from, tail);
      ExtentRoundTrip(file, OffsetOf(v2, rs, from), v2, rs[from]);
      ScanRecovers(v2, rs, tail, from + 1);
    }
  }

  lemma {:induction false} ScanStops(v2: bool, rs: seq<Record>, tail: seq<byte>)
    requires Torn(v2, tail)
    ensures OffsetOf(v2, rs, |rs|) == |EncodeAll(v2, rs)|
    ensures Extent(EncodeAll(v2, rs) + tail, |EncodeAll(v2, rs)|, v2).None?
  {
    var whole := EncodeAll(v2, rs);
    assert rs[..|rs|] == rs;
    if tail != [] {
      var r :| Fits(r) && |tail| < |Encode(v2, r)| && tail == Encode(v2, r)[..|tail|];
      assert (whole + tail)[|whole|..] == tail;
      TornExtent(whole + tail, |whole|, v2, r);
    }
  }
}
