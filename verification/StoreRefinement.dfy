/** The store's memory and files represent a log of segments, and the log a plain map of groups. */
module StoreRefinement {
  import opened Bytes
  import opened StoreFormat
  import opened GroupStore

  /** One segment file as what was written to it; `first` is the sequence in its name. */
  datatype SegLog = SegLog(first: u64, v2: bool, records: seq<Record>)
  type Log = seq<SegLog>

  function NameOf(sl: SegLog): FileName { FileName(Stem(sl.first), sl.v2) }
  function BytesOf(sl: SegLog): seq<byte> { EncodeAll(sl.v2, sl.records) }

  predicate InLog(log: Log, i: int, k: int) { 0 <= i < |log| && 0 <= k < |log[i].records| }

  function SeqAt(log: Log, i: int, k: int): nat
    requires InLog(log, i, k)
  {
    log[i].records[k].seqNo
  }

  /** Records ascend, from above `lo`, and fit their length fields. */
  ghost predicate RecordsOk(lo: int, rs: seq<Record>) {
    rs == [] ||
    var n := |rs| - 1;
    Fits(rs[n]) && RecordsOk(lo, rs[..n]) && (if n == 0 then lo else rs[n - 1].seqNo) < rs[n].seqNo
  }

  /** The greatest sequence a segment uses, in its name or in a record. */
  function Top(sl: SegLog): nat {
    if sl.records == [] then sl.first else sl.records[|sl.records| - 1].seqNo
  }

  /** Sequences ascend through the log, and a segment's name separates it from the ones before. */
  ghost predicate LogOk(log: Log) {
    log == [] ||
    var n := |log| - 1;
    && LogOk(log[..n]) && RecordsOk(log[n].first - 1, log[n].records)
    && (n > 0 ==> Top(log[n - 1]) < log[n].first)
  }

  lemma {:induction false} RecordsBound(lo: int, rs: seq<Record>, k: nat)
    requires RecordsOk(lo, rs) && k < |rs|
    ensures Fits(rs[k]) && lo < rs[k].seqNo <= rs[|rs| - 1].seqNo
    ensures k < |rs| - 1 ==> rs[k].seqNo < rs[|rs| - 1].seqNo
  {
    var n := |rs| - 1;
    if k < n { RecordsBound(lo, rs[..n], k); }
    else if n > 0 { RecordsBound(lo, rs[..n], n - 1); }
  }

  lemma {:induction false} RecordsAscend(lo: int, rs: seq<Record>, k: nat, l: nat)
    requires RecordsOk(lo, rs) && k < l < |rs|
    ensures rs[k].seqNo < rs[l].seqNo
  {
    var n := |rs| - 1;
    if l < n { RecordsAscend(lo, rs[..n], k, l); } else { RecordsBound(lo, rs, k); }
  }

  lemma {:induction false} SegmentOk(log: Log, i: nat)
    requires LogOk(log) && i < |log|
    ensures RecordsOk(log[i].first - 1, log[i].records) && log[i].first <= Top(log[i])
  {
    if i < |log| - 1 { SegmentOk(log[..|log| - 1], i); }
    else if log[i].records != [] { RecordsBound(log[i].first - 1, log[i].records, |log[i].records| - 1); }
  }

  lemma {:induction false} TopsAscend(log: Log, i: nat, j: nat)
    requires LogOk(log) && i < j < |log|
    ensures Top(log[i]) < log[j].first
  {
    var n := |log| - 1;
    if j < n {
      TopsAscend(log[..n], i, j);
    } else if i < n - 1 {
      TopsAscend(log[..n], i, n - 1);
      SegmentOk(log[..n], n - 1);
    }
  }

  lemma {:induction false} SeqBounds(log: Log, i: nat, k: nat)
    requires LogOk(log) && InLog(log, i, k)
    ensures Fits(log[i].records[k]) && log[i].first <= SeqAt(log, i, k) <= Top(log[i])
  {
    SegmentOk(log, i);
    RecordsBound(log[i].first - 1, log[i].records, k);
  }

  /** Sequences order as positions do. */
  lemma {:induction false} SeqOrder(log: Log, i: nat, k: nat, j: nat, l: nat)
    requires LogOk(log) && InLog(log, i, k) && InLog(log, j, l)
    requires i < j || (i == j && k < l)
    ensures SeqAt(log, i, k) < SeqAt(log, j, l)
  {
    SeqBounds(log, i, k);
    SeqBounds(log, j, l);
    if i < j {
      TopsAscend(log, i, j);
    } else {
      SegmentOk(log, i);
      RecordsAscend(log[i].first - 1, log[i].records, k, l);
    }
  }

  // ---- what a log stands for: the map of groups, and the memory and files that hold it ----

  function AddRecords(m: map<nat, seq<seq<byte>>>, rs: seq<Record>): map<nat, seq<seq<byte>>> {
    if rs == [] then m
    else AddRecords(m, rs[..|rs| - 1])[rs[|rs| - 1].seqNo := rs[|rs| - 1].frames]
  }

  /** The abstract store: a plain map from sequence to frames. */
  function Contents(log: Log): map<nat, seq<seq<byte>>> {
    if log == [] then map[] else AddRecords(Contents(log[..|log| - 1]), log[|log| - 1].records)
  }

  function AddLocations(m: map<nat, Location>, v2: bool, rs: seq<Record>, i: nat): map<nat, Location> {
    if rs == [] then m else
      var k := |rs| - 1;
      AddLocations(m, v2, rs[..k], i)[rs[k].seqNo := Location(i, OffsetOf(v2, rs, k), rs[k].ms)]
  }

  function IndexOf(log: Log): map<nat, Location> {
    if log == [] then map[] else
      var n := |log| - 1;
      AddLocations(IndexOf(log[..n]), log[n].v2, log[n].records, n)
  }

  function HighRecords(h: Option<nat>, rs: seq<Record>): Option<nat> {
    if rs == [] then h else MaxOf(HighRecords(h, rs[..|rs| - 1]), rs[|rs| - 1].seqNo)
  }

  /** The greatest sequence in the log. */
  function High(log: Log): Option<nat> {
    if log == [] then None else HighRecords(High(log[..|log| - 1]), log[|log| - 1].records)
  }

  function FilesOf(log: Log): Files {
    if log == [] then map[] else
      FilesOf(log[..|log| - 1])[NameOf(log[|log| - 1]) := BytesOf(log[|log| - 1])]
  }

  /** The directory a crash leaves: the active file may end in part of one more record. */
  function TornFiles(log: Log, tail: seq<byte>): Files {
    if log == [] then map[] else
      FilesOf(log)[NameOf(log[|log| - 1]) := BytesOf(log[|log| - 1]) + tail]
  }

  ghost predicate Holds(files: Files, log: Log, tail: seq<byte>) {
    files == TornFiles(log, tail) && (if log == [] then tail == [] else Torn(log[|log| - 1].v2, tail))
  }

  /** A segment table entry; `firstSeq` is 0 when the scan found the file without a whole record. */
  ghost predicate SegRep(seg: Segment, sl: SegLog) {
    && seg.name == NameOf(sl) && seg.bytes == |BytesOf(sl)|
    && seg.newestMs == (if sl.records == [] then 0 else sl.records[|sl.records| - 1].ms)
    && (seg.firstSeq == 0 || (sl.records != [] && sl.first <= seg.firstSeq <= sl.records[0].seqNo))
  }

  ghost predicate SegmentsRep(segments: seq<Segment>, log: Log) {
    |segments| == |log| && forall i :: 0 <= i < |log| ==> SegRep(segments[i], log[i])
  }

  /** The high water is the log's maximum as long as the log has a group. Only a collection can take
      the last one, and then the high water remembers more than the log. */
  ghost predicate HighRep(maxSeq: Option<nat>, log: Log) {
    High(log).Some? ==> maxSeq == High(log)
  }

  ghost predicate WriterRep(mem: Mem) {
    mem.writer.Some? ==>
      mem.segments != [] && mem.writer.value == mem.segments[|mem.segments| - 1].name
  }

  /** The index finds every record of the log. It may have entries besides. */
  ghost predicate Covers(index: map<nat, Location>, log: Log) {
    forall q :: q in IndexOf(log) ==> q in index && index[q] == IndexOf(log)[q]
  }

  /** Memory and files hold the log, and every group of it can be found. */
  ghost predicate Serves(s: StoreState, log: Log) {
    && LogOk(log) && SegmentsRep(s.mem.segments, log) && Covers(s.mem.index, log)
    && HighRep(s.mem.maxSeq, log) && WriterRep(s.mem) && s.files == FilesOf(log)
  }

  /** They represent it: nothing else is found either. */
  ghost predicate Rep(s: StoreState, log: Log) {
    Serves(s, log) && s.mem.index == IndexOf(log)
  }

  // ---- file names ----

  /** Zero-padded decimal names order as the numbers do. */
  lemma {:induction false} StemOrder(a: u64, b: u64)
    ensures Compare(Stem(a), Stem(b)) == CompareInt(a, b)
    ensures Stem(a) == Stem(b) <==> a == b
  {
    TenPowers();
    DigitsOrder(10, 48, a, b, 20);
    CompareEqual(Stem(a), Stem(b));
  }

  lemma {:induction false} TenPowers()
    ensures Power(10, 20) > U64
  {
    assert Power(10, 4) == 10000 by { assert Power(10, 2) == 100; }
    assert Power(10, 8) == 1_0000_0000 by { assert Power(10, 6) == 100_0000; }
    assert Power(10, 12) == 1_0000_0000_0000 by { assert Power(10, 10) == 100_0000_0000; }
    assert Power(10, 16) == 1_0000_0000_0000_0000 by { assert Power(10, 14) == 100_0000_0000_0000; }
    assert Power(10, 18) == 100_0000_0000_0000_0000;
  }

  lemma {:induction false} NamesDiffer(log: Log, i: nat, j: nat)
    requires LogOk(log) && i < j < |log|
    ensures Compare(NameOf(log[i]).stem, NameOf(log[j]).stem) == Less
    ensures NameOf(log[i]) != NameOf(log[j])
  {
    TopsAscend(log, i, j);
    SegmentOk(log, i);
    StemOrder(log[i].first, log[j].first);
  }

  lemma {:induction false} FileOf(log: Log, i: nat)
    requires LogOk(log) && i < |log|
    ensures NameOf(log[i]) in FilesOf(log) && FilesOf(log)[NameOf(log[i])] == BytesOf(log[i])
  {
    var n := |log| - 1;
    if i < n {
      FileOf(log[..n], i);
      NamesDiffer(log, i, n);
    }
  }

  lemma {:induction false} FileIndex(log: Log, name: FileName) returns (i: nat)
    requires name in FilesOf(log)
    ensures i < |log| && NameOf(log[i]) == name
  {
    var n := |log| - 1;
    if name == NameOf(log[n]) { i := n; } else { i := FileIndex(log[..n], name); }
  }

  // ---- read ----

  /** Where a sequence in the index lies in the log; the map has its frames. */
  lemma {:induction false} Lookup(log: Log, q: nat) returns (i: nat, k: nat)
    requires q in IndexOf(log) || q in Contents(log)
    ensures InLog(log, i, k) && SeqAt(log, i, k) == q
    ensures q in IndexOf(log) && q in Contents(log)
    ensures IndexOf(log)[q] == Location(i, OffsetOf(log[i].v2, log[i].records, k), log[i].records[k].ms)
    ensures Contents(log)[q] == log[i].records[k].frames
  {
    var n := |log| - 1;
    var found;
    found, k := LookupRecords(IndexOf(log[..n]), Contents(log[..n]), log[n].v2, log[n].records, n, q);
    i := n;
    if !found { i, k := Lookup(log[..n], q); }
  }

  lemma {:induction false} LookupRecords(m: map<nat, Location>, c: map<nat, seq<seq<byte>>>, v2: bool,
                                         rs: seq<Record>, i: nat, q: nat)
    returns (found: bool, k: nat)
    ensures found ==> && k < |rs| && rs[k].seqNo == q
                      && q in AddLocations(m, v2, rs, i) && q in AddRecords(c, rs)
                      && AddLocations(m, v2, rs, i)[q] == Location(i, OffsetOf(v2, rs, k), rs[k].ms)
                      && AddRecords(c, rs)[q] == rs[k].frames
    ensures !found ==> && (q in AddLocations(m, v2, rs, i) <==> q in m)
                       && (q in AddRecords(c, rs) <==> q in c)
                       && (q in m ==> AddLocations(m, v2, rs, i)[q] == m[q])
                       && (q in c ==> AddRecords(c, rs)[q] == c[q])
  {
    found, k := false, 0;
    if rs != [] {
      var n := |rs| - 1;
      if rs[n].seqNo == q {
        found, k := true, n;
      } else {
        found, k := LookupRecords(m, c, v2, rs[..n], i, q);
        if found { assert rs[..n][..k] == rs[..k]; }
      }
    }
  }

  lemma {:induction false} RepUsable(s: StoreState, log: Log)
    requires Rep(s, log)
    ensures Usable(s)
  {
    forall i | 0 <= i < |log| ensures s.mem.segments[i].name == NameOf(log[i]) && NameOf(log[i]) in s.files {
      assert SegRep(s.mem.segments[i], log[i]);
      FileOf(log, i);
    }
    forall i, j | 0 <= i < j < |log| ensures NameOf(log[i]) != NameOf(log[j]) {
      NamesDiffer(log, i, j);
    }
    forall q | q in s.mem.index ensures s.mem.index[q].segment < |log| {
      var i, k := Lookup(log, q);
    }
  }

  /** Reading through the index and the files is looking up the map. */
  lemma {:induction false} ReadRefines(s: StoreState, log: Log, q: nat)
    requires Serves(s, log) && Usable(s)
    ensures q in Contents(log) ==> ReadGroup(s, q) == Frames(Contents(log)[q])
    ensures q !in Contents(log) && s.mem.index == IndexOf(log) ==> ReadGroup(s, q) == NotStored
  {
    hide LogOk, EncodeAll, FilesOf, RecordAt, IndexOf, Contents;
    if q in IndexOf(log) || q in Contents(log) {
      var i, k := Lookup(log, q);
      FileOf(log, i);
      assert SegRep(s.mem.segments[i], log[i]);
      SeqBounds(log, i, k);
      RecordReads(log[i], k);
    }
  }

  lemma {:induction false} RecordReads(sl: SegLog, k: nat)
    requires k < |sl.records| && Fits(sl.records[k])
    ensures RecordAt(BytesOf(sl), OffsetOf(sl.v2, sl.records, k), sl.v2) == Some(sl.records[k])
  {
    RecordInPlace(sl.v2, sl.records, k, []);
    assert BytesOf(sl) + [] == BytesOf(sl);
    RecordRoundTrip(BytesOf(sl), OffsetOf(sl.v2, sl.records, k), sl.v2, sl.records[k]);
  }

  // ---- append ----

  predicate RotateLog(log: Log, target: nat) {
    log == [] || |BytesOf(log[|log| - 1])| >= target || !log[|log| - 1].v2
  }

  function AppendLog(log: Log, target: nat, r: Record): Log {
    if RotateLog(log, target) then log + [SegLog(r.seqNo, true, [r])]
    else
      var n := |log| - 1;
      log[n := log[n].(records := log[n].records + [r])]
  }

  /** `q` is above every sequence stored and every file name; it may equal the name of the active
      file, left empty by a crash that tore its first record. */
  ghost predicate Ascends(log: Log, q: nat) {
    log == [] ||
    var last := log[|log| - 1];
    Top(last) < q || (last.records == [] && last.v2 && last.first == q)
  }

  /** The log without its active segment, and the active segment's records so far. */
  datatype Active = Active(init: Log, rs: seq<Record>)

  function Before(log: Log, target: nat): Active {
    if RotateLog(log, target) then Active(log, []) else Active(log[..|log| - 1], log[|log| - 1].records)
  }

  lemma {:induction false} AppendShape(log: Log, target: nat, r: Record)
    ensures var b := Before(log, target);
            var after := AppendLog(log, target, r);
            var n := |b.init|;
            && |after| == n + 1 && after[..n] == b.init && after[n].v2
            && after[n].records == b.rs + [r] && (b.rs + [r])[..|b.rs|] == b.rs
            && after[n].first == (if RotateLog(log, target) then r.seqNo else log[n].first)
            && BytesOf(after[n]) == EncodeAll(true, b.rs) + Encode(true, r)
  {
    var b := Before(log, target);
    assert (b.rs + [r])[..|b.rs|] == b.rs;
  }

  /** Appending adds one entry to the map. */
  lemma {:induction false} AppendContents(log: Log, target: nat, r: Record)
    ensures Contents(AppendLog(log, target, r)) == Contents(log)[r.seqNo := r.frames]
    ensures High(AppendLog(log, target, r)) == MaxOf(High(log), r.seqNo)
  {
    AppendShape(log, target, r);
    var b := Before(log, target);
    assert Contents(log) == AddRecords(Contents(b.init), b.rs);
    assert High(log) == HighRecords(High(b.init), b.rs);
  }

  lemma {:induction false} AppendIndex(log: Log, target: nat, r: Record)
    ensures var b := Before(log, target);
            IndexOf(AppendLog(log, target, r))
            == IndexOf(log)[r.seqNo := Location(|b.init|, |EncodeAll(true, b.rs)|, r.ms)]
  {
    AppendShape(log, target, r);
    var b := Before(log, target);
    assert IndexOf(log) == AddLocations(IndexOf(b.init), true, b.rs, |b.init|);
  }

  lemma {:induction false} AppendFiles(log: Log, target: nat, r: Record)
    ensures var b := Before(log, target);
            var after := AppendLog(log, target, r);
            FilesOf(after) == FilesOf(log)[NameOf(after[|b.init|]) := EncodeAll(true, b.rs) + Encode(true, r)]
  {
    AppendShape(log, target, r);
    var b := Before(log, target);
    if !RotateLog(log, target) { assert NameOf(AppendLog(log, target, r)[|b.init|]) == NameOf(log[|b.init|]); }
  }

  lemma {:induction false} RecordsOkNext(lo: int, rs: seq<Record>, r: Record)
    requires RecordsOk(lo, rs) && Fits(r) && (if rs == [] then lo else rs[|rs| - 1].seqNo) < r.seqNo
    ensures RecordsOk(lo, rs + [r])
  {
    hide Fits;
    assert (rs + [r])[..|rs|] == rs;
  }

  lemma {:induction false} LogOkNext(init: Log, sl: SegLog)
    requires LogOk(init) && RecordsOk(sl.first - 1, sl.records)
    requires init != [] ==> Top(init[|init| - 1]) < sl.first
    ensures LogOk(init + [sl])
  {
    hide RecordsOk, Top;
    assert (init + [sl])[..|init|] == init;
  }

  lemma {:induction false} AppendLogOk(log: Log, target: nat, r: Record)
    requires LogOk(log) && Ascends(log, r.seqNo) && target > 0 && Fits(r)
    ensures LogOk(AppendLog(log, target, r))
  {
    hide Fits;
    if RotateLog(log, target) {
      assert RecordsOk(r.seqNo - 1, [r]) by { assert [r][..0] == []; }
      if log != [] { NonEmptyRotates(log, target); }
      LogOkNext(log, SegLog(r.seqNo, true, [r]));
    } else {
      hide BytesOf, RotateLog, RecordsOk, LogOk;
      var n := |log| - 1;
      SegmentOk(log, n);
      PrefixOk(log);
      RecordsOkNext(log[n].first - 1, log[n].records, r);
      LogOkNext(log[..n], log[n].(records := log[n].records + [r]));
      assert AppendLog(log, target, r) == log[..n] + [log[n].(records := log[n].records + [r])];
    }
  }

  lemma {:induction false} PrefixOk(log: Log)
    requires LogOk(log) && log != []
    ensures var n := |log| - 1; LogOk(log[..n]) && (n > 0 ==> Top(log[n - 1]) < log[n].first)
  {
  }

  /** An empty v2 file is never full. */
  lemma {:induction false} NonEmptyRotates(log: Log, target: nat)
    requires RotateLog(log, target) && target > 0 && log != []
    ensures log[|log| - 1].records != [] || !log[|log| - 1].v2
  {
  }

  lemma {:induction false} RotateAgrees(s: StoreState, log: Log, target: nat)
    requires SegmentsRep(s.mem.segments, log)
    ensures NeedsRotate(s.mem, target) == RotateLog(log, target)
  {
    if log != [] { assert SegRep(s.mem.segments[|log| - 1], log[|log| - 1]); }
  }

  /** `append` needs no more than ascending sequences to find its rotation file name unused: a
      rotation never meets the name of the active file, because a full v2 segment is not empty. */
  lemma {:induction false} AppendNameFree(s: StoreState, log: Log, target: nat, q: u64)
    requires Serves(s, log) && Ascends(log, q) && target > 0
    ensures NameFree(s.mem, target, q)
    ensures NeedsRotate(s.mem, target) ==> NameFor(q) !in s.files
  {
    RotateAgrees(s, log, target);
    if RotateLog(log, target) {
      forall i | 0 <= i < |log| ensures NameOf(log[i]) != NameFor(q) && s.mem.segments[i].name == NameOf(log[i]) {
        assert SegRep(s.mem.segments[i], log[i]);
        FirstBelow(log, i, q);
        StemOrder(log[i].first, q);
      }
      if NameFor(q) in s.files { var i := FileIndex(log, NameFor(q)); }
    }
  }

  lemma {:induction false} FirstsAscend(log: Log, i: nat, j: nat)
    requires LogOk(log) && i < j < |log|
    ensures log[i].first < log[j].first
  {
    SegmentOk(log, i);
    TopsAscend(log, i, j);
  }

  lemma {:induction false} FirstBelow(log: Log, i: nat, q: nat)
    requires LogOk(log) && Ascends(log, q) && i < |log|
    ensures log[i].first < q || (i == |log| - 1 && log[i].records == [] && log[i].v2)
  {
    var n := |log| - 1;
    SegmentOk(log, n);
    if i < n { FirstsAscend(log, i, n); }
  }

  lemma {:induction false} ActiveSegment(seg: Segment, sl: SegLog, r: Record)
    requires SegRep(seg, sl) && sl.v2
    ensures SegRep(seg.(bytes := seg.bytes + |Encode(true, r)|, newestMs := r.ms), sl.(records := sl.records + [r]))
  {
    assert (sl.records + [r])[..|sl.records|] == sl.records;
  }

  lemma {:induction false} FreshSegment(r: Record)
    ensures SegRep(Segment(NameFor(r.seqNo), r.seqNo, r.ms, |Encode(true, r)|), SegLog(r.seqNo, true, [r]))
  {
    assert [r][..0] == [];
    assert EncodeAll(true, [r]) == [] + Encode(true, r);
  }

  lemma {:induction false} AppendSegments(s: StoreState, log: Log, target: nat, r: Record)
    requires SegmentsRep(s.mem.segments, log)
    ensures var w := EnsureWriter(s, target, r.seqNo);
            SegmentsRep(Recorded(w.mem, r, |Encode(true, r)|).segments, AppendLog(log, target, r))
  {
    hide EncodeAll, Encode, Digits;
    RotateAgrees(s, log, target);
    var w := EnsureWriter(s, target, r.seqNo).mem;
    var segments := Recorded(w, r, |Encode(true, r)|).segments;
    if RotateLog(log, target) {
      FreshSegment(r);
      assert segments == s.mem.segments + [Segment(NameFor(r.seqNo), r.seqNo, r.ms, |Encode(true, r)|)];
    } else {
      var n := |log| - 1;
      ActiveSegment(s.mem.segments[n], log[n], r);
    }
  }

  lemma {:induction false} AppendHighRep(maxSeq: Option<nat>, log: Log, target: nat, r: Record)
    requires HighRep(maxSeq, log) && (maxSeq.Some? ==> maxSeq.value < r.seqNo)
    ensures HighRep(MaxOf(maxSeq, r.seqNo), AppendLog(log, target, r))
  {
    AppendContents(log, target, r);
  }

  lemma {:induction false} AppendIndexRep(s: StoreState, log: Log, target: nat, r: Record)
    requires SegmentsRep(s.mem.segments, log) && Covers(s.mem.index, log)
    ensures var index := Recorded(EnsureWriter(s, target, r.seqNo).mem, r, |Encode(true, r)|).index;
            && Covers(index, AppendLog(log, target, r))
            && (s.mem.index == IndexOf(log) ==> index == IndexOf(AppendLog(log, target, r)))
  {
    hide IndexOf, Encode, EncodeAll, Digits;
    RotateAgrees(s, log, target);
    AppendIndex(log, target, r);
    ActiveBytes(s, log, target, r);
  }

  /** The active segment's length in the table is where the next record goes. */
  lemma {:induction false} ActiveBytes(s: StoreState, log: Log, target: nat, r: Record)
    requires SegmentsRep(s.mem.segments, log)
    ensures var b := Before(log, target);
            var segments := EnsureWriter(s, target, r.seqNo).mem.segments;
            |segments| == |b.init| + 1 && segments[|b.init|].bytes == |EncodeAll(true, b.rs)|
  {
    RotateAgrees(s, log, target);
    if !RotateLog(log, target) { assert SegRep(s.mem.segments[|log| - 1], log[|log| - 1]); }
  }

  /** Append refines adding one record to the log, hence one entry to the map. */
  lemma {:induction false} AppendRefines(s: StoreState, log: Log, target: nat, r: Record)
    requires Serves(s, log) && Usable(s) && Ascends(log, r.seqNo) && target > 0 && Fits(r)
    requires s.mem.maxSeq.Some? ==> s.mem.maxSeq.value < r.seqNo
    ensures Serves(Appended(s, target, r), AppendLog(log, target, r))
    ensures Rep(s, log) ==> Rep(Appended(s, target, r), AppendLog(log, target, r))
  {
    hide LogOk, SegmentsRep, Covers, HighRep, IndexOf, FilesOf, Encode, EncodeAll, Digits, AppendLog, Usable;
    AppendLogOk(log, target, r);
    AppendSegments(s, log, target, r);
    AppendIndexRep(s, log, target, r);
    AppendHighRep(s.mem.maxSeq, log, target, r);
    AppendWritten(s, log, target, r);
  }

  lemma {:induction false} AppendWritten(s: StoreState, log: Log, target: nat, r: Record)
    requires Serves(s, log) && Usable(s) && Ascends(log, r.seqNo) && target > 0
    ensures Extend(EnsureWriter(s, target, r.seqNo), Encode(true, r)) == FilesOf(AppendLog(log, target, r))
  {
    hide LogOk, Covers, HighRep, IndexOf, EncodeAll, Encode, Digits;
    AppendNameFree(s, log, target, r.seqNo);
    RotateAgrees(s, log, target);
    if log != [] { FileOf(log, |log| - 1); }
    AppendBytes(s, log, target, r);
  }

  lemma {:induction false} AppendBytes(s: StoreState, log: Log, target: nat, r: Record)
    requires SegmentsRep(s.mem.segments, log) && s.files == FilesOf(log)
    requires if RotateLog(log, target) then NameFor(r.seqNo) !in s.files
             else NameOf(log[|log| - 1]) in s.files && s.files[NameOf(log[|log| - 1])] == BytesOf(log[|log| - 1])
    ensures var w := EnsureWriter(s, target, r.seqNo);
            && w.mem.writer.value in w.files
            && Extend(w, Encode(true, r)) == FilesOf(AppendLog(log, target, r))
  {
    hide Encode, FilesOf, Digits;
    RotateAgrees(s, log, target);
    AppendShape(log, target, r);
    AppendFiles(log, target, r);
    if !RotateLog(log, target) { assert SegRep(s.mem.segments[|log| - 1], log[|log| - 1]); }
  }
}
