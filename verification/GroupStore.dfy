/** The disk group store (store.rs): its operations as functions of memory and files, and the
    class whose methods carry them out. I/O succeeds or the process dies. */
module GroupStore {
  import opened Bytes
  import opened StoreFormat

  /** `<stem>.seg2` or, for the legacy format, `<stem>.seg`. */
  datatype FileName = FileName(stem: seq<byte>, v2: bool)
  type Files = map<FileName, seq<byte>>

  datatype Location = Location(segment: nat, offset: nat, createdMs: nat)
  datatype Segment = Segment(name: FileName, firstSeq: nat, newestMs: nat, bytes: nat)
  datatype Mem = Mem(segments: seq<Segment>, index: map<nat, Location>, writer: Option<FileName>, maxSeq: Option<nat>)
  datatype StoreState = StoreState(mem: Mem, files: Files)

  const EMPTY := Mem([], map[], None, None)

  /** `{seq:020}`: twenty decimal digits. */
  function Stem(seqNo: u64): seq<byte> { Digits(10, 48, seqNo, 20) }

  function NameFor(seqNo: u64): FileName { FileName(Stem(seqNo), true) }

  function MaxOf(m: Option<nat>, n: nat): Option<nat> {
    Some(if m.None? || m.value < n then n else m.value)
  }

  // ---- append ----

  predicate NeedsRotate(mem: Mem, target: nat) {
    mem.segments == [] ||
    var last := mem.segments[|mem.segments| - 1];
    last.bytes >= target || !last.name.v2
  }

  function EnsureWriter(s: StoreState, target: nat, nextSeq: u64): StoreState {
    var name := NameFor(nextSeq);
    if NeedsRotate(s.mem, target) then
      StoreState(s.mem.(segments := s.mem.segments + [Segment(name, nextSeq, 0, 0)], writer := Some(name)),
            if name in s.files then s.files else s.files[name := []])
    else
      StoreState(s.mem.(writer := Some(s.mem.segments[|s.mem.segments| - 1].name)), s.files)
  }

  /** Bytes reaching the end of the active file. */
  function Extend(s: StoreState, part: seq<byte>): Files
    requires s.mem.writer.Some? && s.mem.writer.value in s.files
  {
    s.files[s.mem.writer.value := s.files[s.mem.writer.value] + part]
  }

  /** Memory after a record of `size` bytes went to the active segment. */
  function Recorded(mem: Mem, r: Record, size: nat): Mem
    requires mem.segments != []
  {
    var i := |mem.segments| - 1;
    var seg := mem.segments[i];
    mem.(segments := mem.segments[i := seg.(bytes := seg.bytes + size, newestMs := r.ms)],
         index := mem.index[r.seqNo := Location(i, seg.bytes, r.ms)],
         maxSeq := MaxOf(mem.maxSeq, r.seqNo))
  }

  function Appended(s: StoreState, target: nat, r: Record): StoreState
    requires Usable(s)
  {
    var w := EnsureWriter(s, target, r.seqNo);
    StoreState(Recorded(w.mem, r, |Encode(true, r)|), Extend(w, Encode(true, r)))
  }

  /** The segment table names files that exist, the index names segments that exist, and an open
      writer is on the last segment. */
  ghost predicate Usable(s: StoreState) {
    && (forall i :: 0 <= i < |s.mem.segments| ==> s.mem.segments[i].name in s.files)
    && (forall i, j :: 0 <= i < j < |s.mem.segments| ==> s.mem.segments[i].name != s.mem.segments[j].name)
    && (forall q :: q in s.mem.index ==> s.mem.index[q].segment < |s.mem.segments|)
    && (s.mem.writer.Some? ==>
          s.mem.segments != [] && s.mem.writer.value == s.mem.segments[|s.mem.segments| - 1].name)
  }

  /** A rotation for `seqNo` would open a file the table does not have yet. */
  ghost predicate NameFree(mem: Mem, target: nat, seqNo: u64) {
    NeedsRotate(mem, target) ==> forall i :: 0 <= i < |mem.segments| ==> mem.segments[i].name != NameFor(seqNo)
  }

  lemma {:induction false} AppendedUsable(s: StoreState, target: nat, r: Record)
    requires Usable(s) && NameFree(s.mem, target, r.seqNo)
    ensures Usable(Appended(s, target, r))
  {
    var w := EnsureWriter(s, target, r.seqNo);
    assert Usable(w);
  }

  // ---- read ----

  datatype ReadResult = NotStored | Frames(frames: seq<seq<byte>>) | ReadError

  function ReadAt(files: Files, name: FileName, offset: nat, seqNo: nat): ReadResult {
    if name !in files then ReadError else
      var r := RecordAt(files[name], offset, name.v2);
      if r.None? || r.value.seqNo != seqNo then ReadError else Frames(r.value.frames)
  }

  function ReadGroup(s: StoreState, seqNo: nat): ReadResult
    requires Usable(s)
  {
    if seqNo !in s.mem.index then NotStored else
      var loc := s.mem.index[seqNo];
      ReadAt(s.files, s.mem.segments[loc.segment].name, loc.offset, seqNo)
  }

  /** A read answers with frames exactly when the record of that very sequence lies where the index
      says, and "not stored" exactly when the index does not list it. */
  lemma {:induction false} ReadExact(s: StoreState, seqNo: u64, frames: seq<seq<byte>>)
    requires Usable(s)
    ensures ReadGroup(s, seqNo) == NotStored <==> seqNo !in s.mem.index
    ensures ReadGroup(s, seqNo) == Frames(frames) <==>
              && seqNo in s.mem.index
              && var loc := s.mem.index[seqNo];
                 var name := s.mem.segments[loc.segment].name;
                 exists ms :: Lies(s.files[name], loc.offset, name.v2, Record(seqNo, ms, frames))
  {
    hide Lies, RecordAt;
    if seqNo in s.mem.index {
      var loc := s.mem.index[seqNo];
      var name := s.mem.segments[loc.segment].name;
      var file := s.files[name];
      forall ms ensures Lies(file, loc.offset, name.v2, Record(seqNo, ms, frames)) <==>
                        RecordAt(file, loc.offset, name.v2) == Some(Record(seqNo, ms, frames)) {
        RecordExact(file, loc.offset, name.v2, Record(seqNo, ms, frames));
      }
      var r := RecordAt(file, loc.offset, name.v2);
      if r.Some? && r.value.seqNo == seqNo && r.value.frames == frames {
        assert r == Some(Record(seqNo, r.value.ms, frames));
      }
    }
  }

  // ---- gc ----

  function TotalBytes(segments: seq<Segment>): nat {
    if segments == [] then 0 else segments[0].bytes + TotalBytes(segments[1..])
  }

  function Minus(a: nat, b: nat): nat { if a < b then 0 else a - b }

  predicate Condemned(seg: Segment, cutoff: nat, maxBytes: nat, total: nat) {
    seg.newestMs < cutoff || (maxBytes > 0 && total > maxBytes)
  }

  function DropHead(mem: Mem): Mem
    requires |mem.segments| > 1
  {
    var first, next := mem.segments[0].firstSeq, mem.segments[1].firstSeq;
    mem.(segments := mem.segments[1..],
         index := map q | q in mem.index && (q < first || q >= next)
                  :: mem.index[q].(segment := Minus(mem.index[q].segment, 1)))
  }

  function Collected(s: StoreState, cutoff: nat, maxBytes: nat, total: nat): StoreState
    decreases |s.mem.segments|
  {
    if |s.mem.segments| <= 1 || !Condemned(s.mem.segments[0], cutoff, maxBytes, total) then s
    else Collected(StoreState(DropHead(s.mem), s.files - {s.mem.segments[0].name}), cutoff, maxBytes,
                   Minus(total, s.mem.segments[0].bytes))
  }

  lemma {:induction false} DropHeadUsable(s: StoreState)
    requires Usable(s) && |s.mem.segments| > 1
    ensures Usable(StoreState(DropHead(s.mem), s.files - {s.mem.segments[0].name}))
  {
  }

  // ---- open ----

  /** What scanning accumulates: the store's index and high water, the segment's first and newest. */
  datatype Tally = Tally(index: map<nat, Location>, maxSeq: Option<nat>, first: Option<nat>, newest: nat)

  function Count(t: Tally, f: Found, segment: nat): Tally {
    Tally(t.index[f.seqNo := Location(segment, f.offset, f.ms)], MaxOf(t.maxSeq, f.seqNo),
          if t.first.Some? then t.first else Some(f.seqNo), f.ms)
  }

  function CountAll(t: Tally, found: seq<Found>, segment: nat): Tally
    decreases found
  {
    if found == [] then t else CountAll(Count(t, found[0], segment), found[1..], segment)
  }

  function ScanOne(s: StoreState, name: FileName): StoreState
    requires name in s.files
  {
    var scan := ScanFile(s.files[name], 0, name.v2);
    var t := CountAll(Tally(s.mem.index, s.mem.maxSeq, None, 0), scan.found, |s.mem.segments|);
    var seg := Segment(name, if t.first.Some? then t.first.value else 0, t.newest, scan.end);
    StoreState(s.mem.(segments := s.mem.segments + [seg], index := t.index, maxSeq := t.maxSeq),
          s.files[name := s.files[name][..scan.end]])
  }

  function ScanAll(s: StoreState, paths: seq<FileName>): StoreState
    requires forall p :: p in paths ==> p in s.files
    decreases paths
  {
    if paths == [] then s else ScanAll(ScanOne(s, paths[0]), paths[1..])
  }

  /** A directory listing sorted by file stem; `.seg` and `.seg2` of one stem come in either order. */
  ghost predicate IsListing(files: Files, paths: seq<FileName>) {
    && (forall p :: p in paths <==> p in files)
    && (forall i, j :: 0 <= i < j < |paths| ==>
          paths[i] != paths[j] && Compare(paths[i].stem, paths[j].stem) != Greater)
  }

  lemma {:induction false} LeastStem(names: set<FileName>) returns (least: FileName)
    requires names != {}
    ensures least in names && forall n :: n in names ==> Compare(least.stem, n.stem) != Greater
  {
    least :| least in names;
    CompareEqual(least.stem, least.stem);
    if names != {least} {
      var rest := LeastStem(names - {least});
      CompareFlip(least.stem, rest.stem);
      if Compare(least.stem, rest.stem) == Greater {
        least := rest;
      } else {
        forall n | n in names ensures Compare(least.stem, n.stem) != Greater {
          if n != least { NotGreaterTransitive(least.stem, rest.stem, n.stem); }
        }
      }
    }
  }

  lemma {:induction false} NotGreaterTransitive(a: seq<byte>, b: seq<byte>, c: seq<byte>)
    requires Compare(a, b) != Greater && Compare(b, c) != Greater
    ensures Compare(a, c) != Greater
  {
    CompareEqual(a, b);
    CompareEqual(b, c);
    if a != b && b != c { CompareTransitive(a, b, c); }
  }

  // ---- the store, as written ----

  class Disk {
    var files: Files
    constructor () ensures files == map[] { files := map[]; }
  }

  class Store {
    const disk: Disk
    const target: nat
    var segments: seq<Segment>
    var index: map<nat, Location>
    var writer: Option<FileName>
    var maxSeq: Option<nat>

    function Memory(): Mem
      reads this
    {
      Mem(segments, index, writer, maxSeq)
    }

    ghost function State(): StoreState
      reads this, disk
    {
      StoreState(Memory(), disk.files)
    }

    /** Scan the directory, rebuild the index, cut torn tails off. */
    constructor Open(disk: Disk, segmentTarget: nat)
      modifies disk
      ensures this.disk == disk && target == segmentTarget
      ensures exists paths :: IsListing(old(disk.files), paths)
                           && State() == ScanAll(StoreState(EMPTY, old(disk.files)), paths)
    {
      this.disk, target := disk, segmentTarget;
      segments, index, writer, maxSeq := [], map[], None, None;
      new;
      var paths := ListSegments(disk.files);
      for i := 0 to |paths|
        invariant disk.files.Keys == old(disk.files).Keys
        invariant ScanAll(State(), paths[i..]) == ScanAll(StoreState(EMPTY, old(disk.files)), paths)
      {
        assert paths[i..][1..] == paths[i + 1..];
        ScanSegment(paths[i]);
      }
    }

    method ScanSegment(path: FileName)
      requires path in disk.files
      modifies this, disk
      ensures State() == ScanOne(old(State()), path)
      ensures disk.files.Keys == old(disk.files).Keys
    {
      var file := disk.files[path];
      var offset, firstSeq, newestMs := ScanRecords(file, path.v2);
      if offset < |file| {
        disk.files := disk.files[path := file[..offset]];
      }
      assert file[..|file|] == file;
      assert disk.files == old(disk.files)[path := file[..offset]];
      segments := segments + [Segment(path, if firstSeq.Some? then firstSeq.value else 0, newestMs, offset)];
    }

    /** Index every whole record of one file; stop at its end or at a torn one. */
    method ScanRecords(file: seq<byte>, v2: bool) returns (offset: nat, firstSeq: Option<nat>, newestMs: nat)
      modifies this`index, this`maxSeq
      ensures offset == ScanFile(file, 0, v2).end
      ensures Tally(index, maxSeq, firstSeq, newestMs)
           == CountAll(Tally(old(index), old(maxSeq), None, 0), ScanFile(file, 0, v2).found, |segments|)
    {
      hide Extent, HeadAt, ScanFile, CountAll;
      offset, firstSeq, newestMs := 0, None, 0;
      ghost var scan := ScanFile(file, 0, v2);
      ghost var all := CountAll(Tally(index, maxSeq, None, 0), scan.found, |segments|);
      ghost var t := Tally(index, maxSeq, None, 0);
      while true
        invariant offset <= |file| && t == Tally(index, maxSeq, firstSeq, newestMs)
        invariant Pending(t, file, offset, v2, |segments|, all, scan.end)
        decreases |file| - offset
      {
        var extent := RecordExtent(file, offset, v2);
        if extent.None? { break; }
        var hdr := HeadAt(file, offset, v2);
        ScanTurn(t, file, offset, v2, |segments|, all, scan.end);
        t := Count(t, Found(hdr.seqNo, hdr.ms, offset), |segments|);
        if firstSeq.None? { firstSeq := Some(hdr.seqNo); }
        newestMs := hdr.ms;
        index := index[hdr.seqNo := Location(|segments|, offset, hdr.ms)];
        maxSeq := MaxOf(maxSeq, hdr.seqNo);
        offset := offset + extent.value;
      }
      ScanDone(t, file, offset, v2, |segments|, all, scan.end);
    }

    method EnsureWriterOpen(nextSeq: u64)
      requires Usable(State())
      modifies this, disk
      ensures State() == EnsureWriter(old(State()), target, nextSeq)
    {
      var rotate := |segments| == 0;
      if !rotate {
        var seg := segments[|segments| - 1];
        rotate := seg.bytes >= target || !seg.name.v2;
      }
      if rotate {
        var path := NameFor(nextSeq);
        if path !in disk.files {
          disk.files := disk.files[path := []];
        }
        segments := segments + [Segment(path, nextSeq, 0, 0)];
        writer := Some(path);
      } else if writer.None? {
        writer := Some(segments[|segments| - 1].name);
      }
    }

    method Append(seqNo: u64, createdMs: u64, frames: seq<seq<byte>>)
      requires Usable(State())
      modifies this, disk
      ensures State() == Appended(old(State()), target, Record(seqNo, createdMs, frames))
      ensures NameFree(old(Memory()), target, seqNo) ==> Usable(State())
    {
      if NameFree(Memory(), target, seqNo) {
        AppendedUsable(State(), target, Record(seqNo, createdMs, frames));
      }
      hide Encode, Stem, NameFree, Usable;
      EnsureWriterOpen(seqNo);
      WriteRecord(seqNo, createdMs, frames);
    }

    /** The record goes to the active file, and memory notes where. */
    method WriteRecord(seqNo: u64, createdMs: u64, frames: seq<seq<byte>>)
      requires segments != [] && writer.Some? && writer.value in disk.files
      modifies this, disk
      ensures var r := Record(seqNo, createdMs, frames);
              && Memory() == Recorded(old(Memory()), r, |Encode(true, r)|)
              && disk.files == Extend(old(State()), Encode(true, r))
    {
      hide Encode;
      var segIdx := |segments| - 1;
      var offset := segments[segIdx].bytes;
      var rec := EncodeRecord(seqNo, createdMs, frames);
      disk.files := disk.files[writer.value := disk.files[writer.value] + rec];
      var seg := segments[segIdx];
      segments := segments[segIdx := seg.(bytes := seg.bytes + |rec|, newestMs := createdMs)];
      index := index[seqNo := Location(segIdx, offset, createdMs)];
      maxSeq := MaxOf(maxSeq, seqNo);
    }

    method Read(seqNo: u64) returns (r: ReadResult)
      requires Usable(State())
      ensures r == ReadGroup(State(), seqNo)
    {
      if seqNo !in index { return NotStored; }
      var loc := index[seqNo];
      var name := segments[loc.segment].name;
      if name !in disk.files { return ReadError; }
      var rec := ReadRecord(disk.files[name], loc.offset, name.v2);
      if rec.None? || rec.value.seqNo != seqNo { return ReadError; }
      return Frames(rec.value.frames);
    }

    method RemoveOldest()
      requires Usable(State()) && |segments| > 1
      modifies this, disk
      ensures State() == StoreState(DropHead(old(Memory())), old(disk.files) - {old(segments[0].name)})
      ensures Usable(State())
    {
      DropHeadUsable(State());
      var seg := segments[0];
      var first, nextFirst := seg.firstSeq, segments[1].firstSeq;
      disk.files := disk.files - {seg.name};
      index := map q | q in index && (q < first || q >= nextFirst) :: index[q];
      segments := segments[1..];
      index := map q | q in index :: index[q].(segment := Minus(index[q].segment, 1));
      assert index == DropHead(old(Memory())).index;
    }

    method Gc(cutoffMs: nat, maxBytes: nat) returns (removed: nat)
      requires Usable(State())
      modifies this, disk
      ensures State() == Collected(old(State()), cutoffMs, maxBytes, TotalBytes(old(segments)))
      ensures removed == |old(segments)| - |segments|
      ensures Usable(State())
    {
      removed := 0;
      var total: nat := TotalBytes(segments);
      while |segments| > 1
        invariant Usable(State()) && removed == |old(segments)| - |segments|
        invariant Collected(State(), cutoffMs, maxBytes, total)
               == Collected(old(State()), cutoffMs, maxBytes, TotalBytes(old(segments)))
      {
        var seg := segments[0];
        var expired := seg.newestMs < cutoffMs;
        var oversize := maxBytes > 0 && total > maxBytes;
        if !expired && !oversize { break; }
        total := Minus(total, seg.bytes);
        RemoveOldest();
        removed := removed + 1;
      }
    }
  }

  method EncodeRecord(seqNo: u64, createdMs: u64, frames: seq<seq<byte>>) returns (rec: seq<byte>)
    ensures rec == Encode(true, Record(seqNo, createdMs, frames))
  {
    var body := [];
    for i := 0 to |frames|
      invariant Body(frames) == body + Body(frames[i..])
    {
      assert frames[i..][1..] == frames[i + 1..];
      body := body + (LittleEndian(|frames[i]|, 4) + frames[i]);
    }
    rec := LittleEndian(seqNo, 8) + LittleEndian(createdMs, 8) + LittleEndian(|frames|, 4);
    rec := rec + LittleEndian(|body|, 4) + body;
  }

  /** Counting what is left of the file from tally `t` gives the whole file's tally `all`. */
  ghost predicate Pending(t: Tally, file: seq<byte>, offset: nat, v2: bool, segment: nat, all: Tally, end: nat)
    requires offset <= |file|
  {
    CountAll(t, ScanFile(file, offset, v2).found, segment) == all && ScanFile(file, offset, v2).end == end
  }

  /** One whole record more in the tally, one fewer in the file. */
  lemma {:induction false} ScanTurn(
      t: Tally, file: seq<byte>, offset: nat, v2: bool, segment: nat, all: Tally, end: nat)
    requires offset <= |file| && Extent(file, offset, v2).Some?
    requires Pending(t, file, offset, v2, segment, all, end)
    ensures var n, h := Extent(file, offset, v2).value, HeadAt(file, offset, v2);
            Pending(Count(t, Found(h.seqNo, h.ms, offset), segment), file, offset + n, v2, segment, all, end)
  {
    var n := Extent(file, offset, v2).value;
    var rest := ScanFile(file, offset + n, v2);
    assert ScanFile(file, offset, v2).found[1..] == rest.found;
  }

  lemma {:induction false} ScanDone(
      t: Tally, file: seq<byte>, offset: nat, v2: bool, segment: nat, all: Tally, end: nat)
    requires offset <= |file| && Extent(file, offset, v2).None?
    requires Pending(t, file, offset, v2, segment, all, end)
    ensures t == all && offset == end
  {
  }

  /** The body of the scan loop up to its three exits: clean end, torn header, torn body. */
  method RecordExtent(file: seq<byte>, offset: nat, v2: bool) returns (n: Option<nat>)
    ensures n == Extent(file, offset, v2)
  {
    if offset + HeaderLen(v2) > |file| { return None; }
    var hdr := HeadAt(file, offset, v2);
    if v2 {
      if offset + V2_HEADER + hdr.claimed > |file| { return None; }
      return Some(V2_HEADER + hdr.claimed);
    }
    var walked := WalkV1Body(file, offset + V1_HEADER, hdr.count);
    if walked.None? { return None; }
    return Some(V1_HEADER + walked.value);
  }

  method ListSegments(files: Files) returns (paths: seq<FileName>)
    ensures IsListing(files, paths)
  {
    hide Compare;
    paths := [];
    var rest := files.Keys;
    while rest != {}
      invariant rest <= files.Keys
      invariant forall p :: p in files <==> p in paths || p in rest
      invariant forall p :: p in paths ==> p !in rest
      invariant forall i, q :: 0 <= i < |paths| && q in rest ==> Compare(paths[i].stem, q.stem) != Greater
      invariant forall i, j :: 0 <= i < j < |paths| ==>
                  paths[i] != paths[j] && Compare(paths[i].stem, paths[j].stem) != Greater
    {
      ghost var _ := LeastStem(rest);
      var p :| p in rest && forall n :: n in rest ==> Compare(p.stem, n.stem) != Greater;
      paths, rest := paths + [p], rest - {p};
    }
  }
}
