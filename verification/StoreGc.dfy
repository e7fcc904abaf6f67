/** Garbage collection of the store: what it removes, and exactly when the index survives it. */
module StoreGc {
  import opened Bytes
  import opened StoreFormat
  import opened GroupStore
  import opened StoreRefinement
  import opened StoreRecovery

  function Gc(s: StoreState, cutoff: nat, maxBytes: nat): StoreState {
    Collected(s, cutoff, maxBytes, TotalBytes(s.mem.segments))
  }

  // ---- which segments go ----

  /** How many segments a collection removes. */
  function Removed(segs: seq<Segment>, cutoff: nat, maxBytes: nat): (r: nat)
    ensures segs != [] ==> r < |segs|
    ensures segs == [] ==> r == 0
  {
    if |segs| <= 1 || !Condemned(segs[0], cutoff, maxBytes, TotalBytes(segs)) then 0
    else 1 + Removed(segs[1..], cutoff, maxBytes)
  }

  /** Every segment removed had expired, or the store from it on was over a budget that is set. The
      head left, unless it is the active segment, has not expired and the rest is within the budget. */
  lemma {:induction false} RemovedIsLeast(segs: seq<Segment>, cutoff: nat, maxBytes: nat)
    ensures var r := Removed(segs, cutoff, maxBytes);
            && (forall j :: 0 <= j < r ==>
                  j + 1 < |segs| && (segs[j].newestMs < cutoff || 0 < maxBytes < TotalBytes(segs[j..])))
            && (r + 1 >= |segs| ||
                (segs[r].newestMs >= cutoff && (maxBytes == 0 || TotalBytes(segs[r..]) <= maxBytes)))
    decreases segs
  {
    var r := Removed(segs, cutoff, maxBytes);
    assert segs[0..] == segs;
    if r > 0 {
      RemovedIsLeast(segs[1..], cutoff, maxBytes);
      assert segs[1..][r - 1..] == segs[r..];
      forall j | 1 <= j < r ensures segs[j].newestMs < cutoff || 0 < maxBytes < TotalBytes(segs[j..]) {
        assert segs[1..][j - 1..] == segs[j..] && segs[1..][j - 1] == segs[j];
      }
    }
  }

  /** The collection loop removes that many, its running total being the real sum at every turn. */
  lemma {:induction false} GcSegments(s: StoreState, cutoff: nat, maxBytes: nat)
    ensures var t := Gc(s, cutoff, maxBytes);
            && t.mem.segments == s.mem.segments[Removed(s.mem.segments, cutoff, maxBytes)..]
            && t.mem.maxSeq == s.mem.maxSeq && t.mem.writer == s.mem.writer
    decreases |s.mem.segments|
  {
    var segs := s.mem.segments;
    var r := Removed(segs, cutoff, maxBytes);
    if r > 0 {
      GcSegments(StoreState(DropHead(s.mem), s.files - {segs[0].name}), cutoff, maxBytes);
      assert segs[1..][r - 1..] == segs[r..];
    }
  }

  /** The segment files end to end, oldest first: what the size budget is about. */
  function OnDisk(log: Log): seq<byte> {
    if log == [] then [] else OnDisk(log[..|log| - 1]) + BytesOf(log[|log| - 1])
  }

  /** The table's byte counts add up to the size of the files. */
  lemma {:induction false} TotalIsDisk(segs: seq<Segment>, log: Log)
    requires SegmentsRep(segs, log)
    ensures TotalBytes(segs) == |OnDisk(log)|
  {
    hide BytesOf, NameOf;
    if log != [] {
      var n := |log| - 1;
      assert SegRep(segs[n], log[n]);
      forall i | 0 <= i < n ensures SegRep(segs[..n][i], log[..n][i]) { assert SegRep(segs[i], log[i]); }
      TotalIsDisk(segs[..n], log[..n]);
      TotalInit(segs);
    }
  }

  lemma {:induction false} TotalInit(segs: seq<Segment>)
    requires segs != []
    ensures TotalBytes(segs) == TotalBytes(segs[..|segs| - 1]) + segs[|segs| - 1].bytes
  {
    if |segs| > 1 {
      TotalInit(segs[1..]);
      assert segs[1..][..|segs| - 2] == segs[..|segs| - 1][1..];
    }
  }

  /** The file's newest record is not older than the cutoff; a file without a record counts as oldest. */
  predicate Unexpired(sl: SegLog, cutoff: nat) {
    cutoff == 0 || (sl.records != [] && sl.records[|sl.records| - 1].ms >= cutoff)
  }

  /** After a collection the files fit a budget that is set and the oldest one has not expired, unless
      only the active file is left. A store for which that was so already is not touched. Nothing is
      removed that had neither expired nor, with everything after it, exceeded the budget. */
  lemma {:induction false} GcFitsBudget(s: StoreState, log: Log, cutoff: nat, maxBytes: nat)
    requires Serves(s, log) && Usable(s) && log != []
    ensures var t, r := Gc(s, cutoff, maxBytes), |log| - |Gc(s, cutoff, maxBytes).mem.segments|;
            && 0 <= r < |log| && t.files == FilesOf(log[r..])
            && (r == |log| - 1 || (Unexpired(log[r], cutoff) && (maxBytes == 0 || |OnDisk(log[r..])| <= maxBytes)))
            && (forall j :: 0 <= j < r ==> !Unexpired(log[j], cutoff) || 0 < maxBytes < |OnDisk(log[j..])|)
            && (Unexpired(log[0], cutoff) && (maxBytes == 0 || |OnDisk(log)| <= maxBytes) ==> t == s)
  {
    hide LogOk, High, FilesOf, IndexOf, Contents, Removed, Gc, Covers, Usable, SegRep, OnDisk, TotalBytes;
    var segs, r := s.mem.segments, Removed(s.mem.segments, cutoff, maxBytes);
    GcSegments(s, cutoff, maxBytes);
    GcServes(s, log, cutoff, maxBytes);
    RemovedIsLeast(segs, cutoff, maxBytes);
    forall j | 0 <= j < |log|
      ensures TotalBytes(segs[j..]) == |OnDisk(log[j..])|
      ensures segs[j].newestMs >= cutoff <==> Unexpired(log[j], cutoff) {
      DropSegments(segs, log, j);
      TotalIsDisk(segs[j..], log[j..]);
      Expiry(segs[j], log[j], cutoff);
    }
    assert log[0..] == log;
    if r == 0 { GcNothing(s, cutoff, maxBytes); }
  }

  lemma {:induction false} Expiry(seg: Segment, sl: SegLog, cutoff: nat)
    requires SegRep(seg, sl)
    ensures seg.newestMs >= cutoff <==> Unexpired(sl, cutoff)
  {
  }

  lemma {:induction false} GcNothing(s: StoreState, cutoff: nat, maxBytes: nat)
    requires Removed(s.mem.segments, cutoff, maxBytes) == 0
    ensures Gc(s, cutoff, maxBytes) == s
  {
  }

  /** `n` turns of the collection loop: each removes the first file, its segment, and the index
      entries between the two first sequences. */
  function Turns(s: StoreState, n: nat): (t: StoreState)
    requires n == 0 || n < |s.mem.segments|
    ensures |t.mem.segments| == |s.mem.segments| - n
    decreases n
  {
    if n == 0 then s else Turns(StoreState(DropHead(s.mem), s.files - {s.mem.segments[0].name}), n - 1)
  }

  lemma {:induction false} GcIsTurns(s: StoreState, cutoff: nat, maxBytes: nat)
    ensures Gc(s, cutoff, maxBytes) == Turns(s, Removed(s.mem.segments, cutoff, maxBytes))
    decreases |s.mem.segments|
  {
    hide DropHead;
    var segs := s.mem.segments;
    if Removed(segs, cutoff, maxBytes) > 0 {
      DropHeadSegments(s.mem);
      GcIsTurns(StoreState(DropHead(s.mem), s.files - {segs[0].name}), cutoff, maxBytes);
    }
  }

  lemma {:induction false} DropHeadSegments(mem: Mem)
    requires |mem.segments| > 1
    ensures DropHead(mem).segments == mem.segments[1..]
    ensures DropHead(mem).maxSeq == mem.maxSeq && DropHead(mem).writer == mem.writer
  {
  }

  // ---- what happens to the index ----

  /** Entries of segments `keep` and up, numbered as after removing `shift` segments. */
  function Aged(index: map<nat, Location>, keep: nat, shift: nat): map<nat, Location> {
    map q | q in index && index[q].segment >= keep :: index[q].(segment := Minus(index[q].segment, shift))
  }

  /** Removing the segment before one whose `first_seq` is the placeholder 0 drops no index entry. */
  function KeepFrom(segments: seq<Segment>, r: nat): (keep: nat)
    ensures keep <= r
  {
    if r == 0 || r >= |segments| then r
    else if segments[r].firstSeq != 0 then r else KeepFrom(segments, r - 1)
  }

  lemma {:induction false} EmptySegment(seg: Segment, sl: SegLog)
    requires SegRep(seg, sl)
    ensures seg.bytes == 0 <==> sl.records == []
  {
  }

  /** A real `first_seq` cuts the index exactly at its segment. */
  lemma {:induction false} TruthfulCut(segs: seq<Segment>, log: Log, j: nat, i: nat, k: nat)
    requires LogOk(log) && SegmentsRep(segs, log) && j + 1 < |log| && segs[j + 1].firstSeq != 0
    requires InLog(log, i, k) && KeepFrom(segs, j) <= i
    ensures var q := SeqAt(log, i, k);
            (q < segs[j].firstSeq || q >= segs[j + 1].firstSeq) <==> i >= j + 1
  {
    hide LogOk, EncodeAll, Digits;
    assert SegRep(segs[j + 1], log[j + 1]) && SegRep(segs[j], log[j]);
    if i > j {
      if (i, k) != (j + 1, 0) { SeqOrder(log, j + 1, 0, i, k); }
    } else {
      SeqBounds(log, i, k);
      TopsAscend(log, i, j + 1);
      if segs[j].firstSeq != 0 && k > 0 { SeqOrder(log, i, 0, i, k); }
    }
  }

  lemma {:induction false} DropHeadIndex(segs: seq<Segment>, log: Log, mem: Mem, j: nat)
    requires LogOk(log) && SegmentsRep(segs, log) && j + 1 < |log| && mem.segments == segs[j..]
    requires mem.index == Aged(IndexOf(log), KeepFrom(segs, j), j)
    ensures DropHead(mem).index == Aged(IndexOf(log), KeepFrom(segs, j + 1), j + 1)
  {
    hide LogOk, IndexOf, SegRep;
    assert mem.segments[0] == segs[j] && mem.segments[1] == segs[j + 1];
    var index := IndexOf(log);
    var keep, next := KeepFrom(segs, j), KeepFrom(segs, j + 1);
    forall q | q in index && index[q].segment >= keep
      ensures (q < segs[j].firstSeq || q >= segs[j + 1].firstSeq) <==> index[q].segment >= next
    {
      if segs[j + 1].firstSeq != 0 {
        var i, k := Lookup(log, q);
        TruthfulCut(segs, log, j, i, k);
      }
    }
    AgedStep(index, mem.index, segs[j].firstSeq, segs[j + 1].firstSeq, keep, next, j);
  }

  lemma {:induction false} AgedStep(index: map<nat, Location>, aged: map<nat, Location>, first: nat, nextFirst: nat,
                 keep: nat, next: nat, j: nat)
    requires aged == Aged(index, keep, j) && keep <= next
    requires forall q :: q in index && index[q].segment >= keep ==>
               ((q < first || q >= nextFirst) <==> index[q].segment >= next)
    ensures (map q | q in aged && (q < first || q >= nextFirst) :: aged[q].(segment := Minus(aged[q].segment, 1)))
            == Aged(index, next, j + 1)
  {
  }

  lemma {:induction false} TurnsIndex(segs: seq<Segment>, log: Log, s: StoreState, j: nat, n: nat)
    requires LogOk(log) && SegmentsRep(segs, log) && j <= |segs| && s.mem.segments == segs[j..]
    requires s.mem.index == Aged(IndexOf(log), KeepFrom(segs, j), j) && (n == 0 || n < |s.mem.segments|)
    ensures Turns(s, n).mem.index == Aged(IndexOf(log), KeepFrom(segs, j + n), j + n)
    decreases n
  {
    hide LogOk, IndexOf, Aged, KeepFrom, DropHead, SegRep;
    if n > 0 {
      DropHeadIndex(segs, log, s.mem, j);
      DropHeadSegments(s.mem);
      TurnsIndex(segs, log, StoreState(DropHead(s.mem), s.files - {s.mem.segments[0].name}), j + 1, n - 1);
    }
  }

  /** The index after any collection: exactly the entries from `KeepFrom` on, renumbered. */
  lemma {:induction false} GcIndex(s: StoreState, log: Log, cutoff: nat, maxBytes: nat)
    requires Rep(s, log)
    ensures var r := Removed(s.mem.segments, cutoff, maxBytes);
            Gc(s, cutoff, maxBytes).mem.index == Aged(IndexOf(log), KeepFrom(s.mem.segments, r), r)
  {
    hide LogOk, IndexOf, KeepFrom, Removed, Gc, FilesOf, Turns, SegRep, HighRep;
    assert Aged(IndexOf(log), 0, 0) == IndexOf(log);
    FirstKept(s.mem.segments);
    GcIsTurns(s, cutoff, maxBytes);
    assert s.mem.segments[0..] == s.mem.segments;
    TurnsIndex(s.mem.segments, log, s, 0, Removed(s.mem.segments, cutoff, maxBytes));
  }

  lemma {:induction false} FirstKept(segments: seq<Segment>)
    ensures KeepFrom(segments, 0) == 0
  {
  }

  // ---- dropping segments from the log ----

  lemma {:induction false} AgedAdd(m: map<nat, Location>, v2: bool, rs: seq<Record>, i: nat, r: nat)
    requires r <= i
    ensures Aged(AddLocations(m, v2, rs, i), r, r) == AddLocations(Aged(m, r, r), v2, rs, i - r)
  {
    if rs != [] { AgedAdd(m, v2, rs[..|rs| - 1], i, r); }
  }

  lemma {:induction false} NoneAbove(log: Log, r: nat)
    requires |log| <= r
    ensures Aged(IndexOf(log), r, r) == map[]
  {
    forall q | q in IndexOf(log) ensures IndexOf(log)[q].segment < r {
      var i, k := Lookup(log, q);
    }
  }

  lemma {:induction false} DropIndex(log: Log, r: nat)
    requires r <= |log|
    ensures IndexOf(log[r..]) == Aged(IndexOf(log), r, r)
  {
    if r == |log| {
      NoneAbove(log, r);
    } else {
      var n := |log| - 1;
      DropIndex(log[..n], r);
      SliceInit(log, r);
      AgedAdd(IndexOf(log[..n]), log[n].v2, log[n].records, n, r);
    }
  }

  /** Every removed segment whose entries the cut missed held no group. */
  ghost predicate Clean(segments: seq<Segment>, r: nat) {
    forall i :: KeepFrom(segments, r) <= i < r && i < |segments| ==> segments[i].bytes == 0
  }

  /** Collection leaves the index of the surviving segments, and nothing else, exactly when `Clean`:
      a check on the segment table before the call. */
  lemma {:induction false} GcExact(s: StoreState, log: Log, cutoff: nat, maxBytes: nat)
    requires Rep(s, log)
    ensures var r := Removed(s.mem.segments, cutoff, maxBytes);
            Gc(s, cutoff, maxBytes).mem.index == IndexOf(log[r..]) <==> Clean(s.mem.segments, r)
  {
    hide LogOk, IndexOf, KeepFrom, HighRep, High, FilesOf, WriterRep, Aged, Clean, Removed, Gc;
    var segs := s.mem.segments;
    var r := Removed(segs, cutoff, maxBytes);
    GcIndex(s, log, cutoff, maxBytes);
    DropIndex(log, r);
    if Clean(segs, r) { CleanAged(segs, log, r); } else { UncleanAged(segs, log, r); }
  }

  lemma {:induction false} CleanAged(segs: seq<Segment>, log: Log, r: nat)
    requires SegmentsRep(segs, log) && r <= |log| && Clean(segs, r)
    ensures Aged(IndexOf(log), KeepFrom(segs, r), r) == Aged(IndexOf(log), r, r)
  {
    hide IndexOf, KeepFrom, SegRep;
    forall q | q in IndexOf(log) && IndexOf(log)[q].segment >= KeepFrom(segs, r)
      ensures IndexOf(log)[q].segment >= r {
      var i, k := Lookup(log, q);
      EmptySegment(segs[i], log[i]);
    }
  }

  lemma {:induction false} UncleanAged(segs: seq<Segment>, log: Log, r: nat)
    requires LogOk(log) && SegmentsRep(segs, log) && r <= |log| && !Clean(segs, r)
    ensures Aged(IndexOf(log), KeepFrom(segs, r), r) != Aged(IndexOf(log), r, r)
  {
    hide IndexOf, KeepFrom, SegRep, LogOk;
    var i :| KeepFrom(segs, r) <= i < r && i < |segs| && segs[i].bytes != 0;
    EmptySegment(segs[i], log[i]);
    Present(log, i, 0);
    var q := SeqAt(log, i, 0);
    assert q in Aged(IndexOf(log), KeepFrom(segs, r), r) && q !in Aged(IndexOf(log), r, r);
  }

  /** Sequences are distinct, so every record is found where it is. */
  lemma {:induction false} Present(log: Log, i: nat, k: nat)
    requires LogOk(log) && InLog(log, i, k)
    ensures var q := SeqAt(log, i, k);
            && q in IndexOf(log) && q in Contents(log)
            && IndexOf(log)[q].segment == i && Contents(log)[q] == log[i].records[k].frames
  {
    hide LogOk, IndexOf, Contents;
    InIndex(log, i, k);
    var a, b := Lookup(log, SeqAt(log, i, k));
    if a < i || (a == i && b < k) { SeqOrder(log, a, b, i, k); }
    else if i < a || k < b { SeqOrder(log, i, k, a, b); }
  }

  lemma {:induction false} InIndex(log: Log, i: nat, k: nat)
    requires InLog(log, i, k)
    ensures SeqAt(log, i, k) in IndexOf(log)
  {
    var n := |log| - 1;
    if i < n { InIndex(log[..n], i, k); }
    InLocations(IndexOf(log[..n]), log[n].v2, log[n].records, n, if i == n then k else 0, SeqAt(log, i, k));
  }

  lemma {:induction false} InLocations(m: map<nat, Location>, v2: bool, rs: seq<Record>, i: nat, k: nat, q: nat)
    requires q in m || (k < |rs| && rs[k].seqNo == q)
    ensures q in AddLocations(m, v2, rs, i)
  {
    if rs != [] && rs[|rs| - 1].seqNo != q { InLocations(m, v2, rs[..|rs| - 1], i, k, q); }
  }

  // ---- no collection loses a surviving group ----

  /** Whatever the first sequences in the table are, a turn keeps the entry of every group that is
      not in the file it removes. */
  lemma {:induction false} DropHeadCovers(mem: Mem, log: Log)
    requires LogOk(log) && SegmentsRep(mem.segments, log) && |log| > 1 && Covers(mem.index, log)
    ensures Covers(DropHead(mem).index, log[1..])
  {
    hide LogOk, IndexOf, SegRep;
    DropIndex(log, 1);
    var rest, next := IndexOf(log[1..]), mem.segments[1].firstSeq;
    forall q | q in rest ensures q >= next && q in mem.index && mem.index[q] == IndexOf(log)[q] {
      var i, k := Lookup(log, q);
      AboveNext(mem.segments, log, i, k);
    }
  }

  lemma {:induction false} AboveNext(segs: seq<Segment>, log: Log, i: nat, k: nat)
    requires LogOk(log) && SegmentsRep(segs, log) && |log| > 1 && i >= 1 && InLog(log, i, k)
    ensures SeqAt(log, i, k) >= segs[1].firstSeq
  {
    hide LogOk, EncodeAll, Digits;
    assert SegRep(segs[1], log[1]);
    if log[1].records != [] && (i, k) != (1, 0) { SeqOrder(log, 1, 0, i, k); }
  }

  lemma {:induction false} TurnsCover(s: StoreState, log: Log, n: nat)
    requires LogOk(log) && SegmentsRep(s.mem.segments, log) && Covers(s.mem.index, log)
    requires n == 0 || n < |log|
    ensures Covers(Turns(s, n).mem.index, log[n..])
    decreases n
  {
    hide LogOk, SegRep, DropHead, Covers;
    if n == 0 {
      assert log[0..] == log;
    } else {
      DropHeadCovers(s.mem, log);
      DropLogOk(log, 1);
      HeadName(s.mem.segments, log);
      DropHeadSegments(s.mem);
      TurnsCover(StoreState(DropHead(s.mem), s.files - {s.mem.segments[0].name}), log[1..], n - 1);
      assert log[1..][n - 1..] == log[n..];
    }
  }

  lemma {:induction false} TurnsUsable(s: StoreState, n: nat)
    requires Usable(s) && (n == 0 || n < |s.mem.segments|)
    ensures Usable(Turns(s, n))
    decreases n
  {
    hide Usable, DropHead;
    if n > 0 {
      DropHeadUsable(s);
      DropHeadSegments(s.mem);
      TurnsUsable(StoreState(DropHead(s.mem), s.files - {s.mem.segments[0].name}), n - 1);
    }
  }

  // ---- the rest of the representation ----

  lemma {:induction false} DropLogOk(log: Log, r: nat)
    requires LogOk(log) && r <= |log|
    ensures LogOk(log[r..])
  {
    if r < |log| {
      var n := |log| - 1;
      DropLogOk(log[..n], r);
      SliceInit(log, r);
    }
  }

  /** The groups of a map at `f` or above. */
  function From<T>(m: map<nat, T>, f: nat): map<nat, T> {
    map q | q in m && q >= f :: m[q]
  }

  lemma {:induction false} FromAdd(m: map<nat, seq<seq<byte>>>, rs: seq<Record>, f: nat)
    requires RecordsOk(f - 1, rs)
    ensures From(AddRecords(m, rs), f) == AddRecords(From(m, f), rs)
  {
    if rs != [] {
      RecordsBound(f - 1, rs, |rs| - 1);
      FromAdd(m, rs[..|rs| - 1], f);
    }
  }

  lemma {:induction false} RecordsOkBelow(lo: int, hi: int, rs: seq<Record>)
    requires RecordsOk(hi, rs) && lo <= hi
    ensures RecordsOk(lo, rs)
  {
    if rs != [] { RecordsOkBelow(lo, hi, rs[..|rs| - 1]); }
  }

  lemma {:induction false} ContentsBelow(log: Log)
    requires LogOk(log) && log != []
    ensures From(Contents(log[..|log| - 1]), log[|log| - 1].first) == map[]
  {
    hide LogOk, Contents;
    var n := |log| - 1;
    forall q | q in Contents(log[..n]) ensures q < log[n].first {
      var i, k := Lookup(log[..n], q);
      assert InLog(log, i, k) && SeqAt(log, i, k) == q;
      SeqBounds(log, i, k);
      TopsAscend(log, i, n);
    }
  }

  /** The map keeps exactly the groups from the new head file's sequence on. */
  lemma {:induction false} DropContents(log: Log, r: nat)
    requires LogOk(log) && r < |log|
    ensures Contents(log[r..]) == From(Contents(log), log[r].first)
  {
    hide LogOk, RecordsOk, From;
    var n := |log| - 1;
    var f: int := log[r].first;
    SegmentOk(log, n);
    if r == n {
      ContentsBelow(log);
      var only := log[r..];
      assert only == [log[n]] && only[..0] == [];
      FromAdd(Contents(log[..n]), log[n].records, f);
    } else {
      InitOk(log);
      DropContents(log[..n], r);
      SliceInit(log, r);
      FirstsAscend(log, r, n);
      RecordsOkBelow(f - 1, log[n].first - 1, log[n].records);
      FromAdd(Contents(log[..n]), log[n].records, f);
    }
  }

  lemma {:induction false} InitOk(log: Log)
    requires LogOk(log) && log != []
    ensures LogOk(log[..|log| - 1])
  {
  }

  lemma {:induction false} DropFile(log: Log)
    requires LogOk(log) && log != []
    ensures FilesOf(log[1..]) == FilesOf(log) - {NameOf(log[0])}
  {
    hide BytesOf, Stem, Top, RecordsOk;
    var n := |log| - 1;
    if n > 0 {
      DropFile(log[..n]);
      assert log[1..][..n - 1] == log[..n][1..] && log[1..][n - 1] == log[n];
      NamesDiffer(log, 0, n);
    }
  }

  /** Wherever the loop stops, or the process dies in it, the files are those of a later part of the
      log. */
  lemma {:induction false} TurnsFiles(s: StoreState, log: Log, n: nat)
    requires LogOk(log) && SegmentsRep(s.mem.segments, log) && s.files == FilesOf(log)
    requires n == 0 || n < |s.mem.segments|
    ensures Turns(s, n).files == FilesOf(log[n..])
    decreases n
  {
    hide LogOk, FilesOf, SegRep, DropHead;
    if n == 0 {
      assert log[0..] == log;
    } else {
      DropFile(log);
      DropLogOk(log, 1);
      HeadName(s.mem.segments, log);
      DropHeadSegments(s.mem);
      TurnsFiles(StoreState(DropHead(s.mem), s.files - {s.mem.segments[0].name}), log[1..], n - 1);
      assert log[1..][n - 1..] == log[n..];
    }
  }

  lemma {:induction false} GcFiles(s: StoreState, log: Log, cutoff: nat, maxBytes: nat)
    requires LogOk(log) && SegmentsRep(s.mem.segments, log) && s.files == FilesOf(log)
    ensures Gc(s, cutoff, maxBytes).files == FilesOf(log[Removed(s.mem.segments, cutoff, maxBytes)..])
  {
    hide LogOk, SegRep, FilesOf, Gc, Turns, Removed;
    GcIsTurns(s, cutoff, maxBytes);
    TurnsFiles(s, log, Removed(s.mem.segments, cutoff, maxBytes));
  }

  lemma {:induction false} HeadName(segs: seq<Segment>, log: Log)
    requires SegmentsRep(segs, log) && log != []
    ensures segs[0].name == NameOf(log[0]) && SegmentsRep(segs[1..], log[1..])
  {
    assert SegRep(segs[0], log[0]);
    forall i | 0 <= i < |log| - 1 ensures SegRep(segs[1..][i], log[1..][i]) { assert SegRep(segs[i + 1], log[i + 1]); }
  }

  // ---- the high water ----

  lemma {:induction false} HighBelow(log: Log)
    requires LogOk(log)
    ensures High(log).Some? ==> log != [] && High(log).value <= Top(log[|log| - 1])
    ensures log != [] && log[|log| - 1].records != [] ==> High(log) == Some(Top(log[|log| - 1]))
  {
    if log != [] {
      var n := |log| - 1;
      HighBelow(log[..n]);
      SegmentOk(log, n);
      HighOfRecords(High(log[..n]), log[n].first - 1, log[n].records);
    }
  }

  /** A group left after dropping segments is above every one dropped, so the maximum is left too. */
  lemma {:induction false} DropHigh(log: Log, r: nat)
    requires LogOk(log) && r <= |log|
    ensures High(log[r..]).Some? ==> High(log[r..]) == High(log)
  {
    hide LogOk;
    if r < |log| {
      var n := |log| - 1;
      InitOk(log);
      SliceInit(log, r);
      if log[n].records == [] {
        DropHigh(log[..n], r);
      } else {
        DropLogOk(log, r);
        HighBelow(log);
        HighBelow(log[r..]);
      }
    }
  }

  lemma {:induction false} HighOfRecords(h: Option<nat>, lo: int, rs: seq<Record>)
    requires RecordsOk(lo, rs) && (h.Some? ==> h.value <= lo)
    ensures HighRecords(h, rs) == if rs == [] then h else Some(rs[|rs| - 1].seqNo)
  {
    if rs != [] {
      HighOfRecords(h, lo, rs[..|rs| - 1]);
      RecordsBound(lo, rs, |rs| - 1);
    }
  }

  // ---- the main results ----

  lemma {:induction false} DropSegments(segs: seq<Segment>, log: Log, r: nat)
    requires SegmentsRep(segs, log) && r <= |log|
    ensures SegmentsRep(segs[r..], log[r..])
  {
    forall i | 0 <= i < |log| - r ensures SegRep(segs[r..][i], log[r..][i]) { assert SegRep(segs[i + r], log[i + r]); }
  }

  /** Any collection serves exactly the log of the surviving segments: the map is cut at the new head
      file, and every group left can still be found. */
  lemma {:induction false} GcServes(s: StoreState, log: Log, cutoff: nat, maxBytes: nat)
    requires Serves(s, log) && Usable(s) && log != []
    ensures var t, r := Gc(s, cutoff, maxBytes), Removed(s.mem.segments, cutoff, maxBytes);
            && r < |log| && Serves(t, log[r..]) && Usable(t)
            && Contents(log[r..]) == From(Contents(log), log[r].first)
  {
    hide LogOk, High, FilesOf, IndexOf, Contents, Removed, Gc, Covers, Usable, SegRep, Turns;
    var r := Removed(s.mem.segments, cutoff, maxBytes);
    GcSegments(s, cutoff, maxBytes);
    GcIsTurns(s, cutoff, maxBytes);
    TurnsFiles(s, log, r);
    TurnsCover(s, log, r);
    TurnsUsable(s, r);
    DropLogOk(log, r);
    DropContents(log, r);
    DropHigh(log, r);
    DropSegments(s.mem.segments, log, r);
    var segments := s.mem.segments;
    assert segments[r..][|segments[r..]| - 1] == segments[|segments| - 1];
  }

  /** Collection refines dropping the groups below the new head file, exactly when no stale index
      entry is left: then memory and files represent the surviving segments. */
  lemma {:induction false} GcRefines(s: StoreState, log: Log, cutoff: nat, maxBytes: nat)
    requires Rep(s, log) && Usable(s) && log != []
    ensures var t, r := Gc(s, cutoff, maxBytes), Removed(s.mem.segments, cutoff, maxBytes);
            && r < |log| && (Rep(t, log[r..]) <==> Clean(s.mem.segments, r))
            && Contents(log[r..]) == From(Contents(log), log[r].first)
  {
    hide Serves, Usable, Clean, IndexOf, Contents, Removed, Gc;
    GcServes(s, log, cutoff, maxBytes);
    GcExact(s, log, cutoff, maxBytes);
  }

  /** After any collection every surviving group reads back in full. */
  lemma {:induction false} SurvivorsRead(s: StoreState, log: Log, cutoff: nat, maxBytes: nat, q: nat)
    requires Serves(s, log) && Usable(s) && log != []
    ensures var t, r := Gc(s, cutoff, maxBytes), Removed(s.mem.segments, cutoff, maxBytes);
            && Usable(t)
            && (q in Contents(log) && q >= log[r].first ==> ReadGroup(t, q) == Frames(Contents(log)[q]))
  {
    hide Serves, Usable, Contents, Removed, Gc;
    GcServes(s, log, cutoff, maxBytes);
    ReadRefines(Gc(s, cutoff, maxBytes), log[Removed(s.mem.segments, cutoff, maxBytes)..], q);
  }

  // ---- reopening after a collection ----

  /** Some segment from `r` on holds a group. */
  predicate GroupLeft(segments: seq<Segment>, r: nat) {
    exists i :: r <= i < |segments| && segments[i].bytes != 0
  }

  lemma {:induction false} HighExists(log: Log)
    ensures High(log).Some? <==> exists i :: 0 <= i < |log| && log[i].records != []
  {
    if log != [] {
      var n := |log| - 1;
      HighExists(log[..n]);
      if i :| 0 <= i < |log| && log[i].records != [] && log[n].records == [] { assert log[..n][i] == log[i]; }
    }
  }

  lemma {:induction false} GroupLeftExact(segs: seq<Segment>, log: Log, r: nat)
    requires SegmentsRep(segs, log) && r <= |log|
    ensures GroupLeft(segs, r) <==> High(log[r..]).Some?
  {
    hide SegRep, High;
    HighExists(log[r..]);
    forall i | r <= i < |log| ensures segs[i].bytes != 0 <==> log[r..][i - r].records != [] {
      EmptySegment(segs[i], log[i]);
    }
    if i :| 0 <= i < |log[r..]| && log[r..][i].records != [] { assert segs[i + r].bytes != 0; }
  }

  /** A reopen recovers the greatest group on disk, which is the high water the process had if and only
      if it had none or some segment in its table holds a group. */
  lemma {:induction false} ReopenHighExact(maxSeq: Option<nat>, segs: seq<Segment>, log: Log)
    requires SegmentsRep(segs, log) && HighRep(maxSeq, log)
    ensures High(log) == maxSeq <==> maxSeq.None? || GroupLeft(segs, 0)
  {
    hide High, SegmentsRep;
    GroupLeftExact(segs, log, 0);
    assert log[0..] == log;
  }

  /** Collecting and reopening gives back the high water exactly when there was none or one of the
      segments left holds a group: a check on the segment table before the call. */
  lemma {:induction false} GcReopenExact(s: StoreState, log: Log, cutoff: nat, maxBytes: nat, paths: seq<FileName>)
    requires Serves(s, log) && Usable(s) && log != []
    requires IsListing(Gc(s, cutoff, maxBytes).files, paths)
    ensures var segs := s.mem.segments;
            Reopened(Gc(s, cutoff, maxBytes).files, paths).mem.maxSeq == s.mem.maxSeq <==>
              s.mem.maxSeq.None? || GroupLeft(segs, Removed(segs, cutoff, maxBytes))
  {
    hide LogOk, High, FilesOf, IndexOf, Gc, Removed, IsListing, ScanAll, Top, Usable, Covers, SegmentsRep, Contents;
    var r := Removed(s.mem.segments, cutoff, maxBytes);
    GcServes(s, log, cutoff, maxBytes);
    GcSegments(s, cutoff, maxBytes);
    ReopenedHigh(Gc(s, cutoff, maxBytes).files, log[r..], paths);
    GroupLeftExact(s.mem.segments, log, r);
  }

  lemma {:induction false} ReopenedHigh(files: Files, log: Log, paths: seq<FileName>)
    requires LogOk(log) && files == FilesOf(log) && IsListing(files, paths)
    ensures Reopened(files, paths).mem.maxSeq == High(log)
  {
    hide LogOk, High, FilesOf, IndexOf, ScanAll, Covers, SegmentsRep;
    WholeFiles(log);
    OpenRefines(files, log, [], paths);
  }

  /** In particular when the active segment, which no collection removes, holds a group. */
  lemma {:induction false} GcReopen(s: StoreState, log: Log, cutoff: nat, maxBytes: nat, paths: seq<FileName>)
    requires Serves(s, log) && Usable(s) && log != [] && s.mem.segments[|s.mem.segments| - 1].bytes != 0
    requires IsListing(Gc(s, cutoff, maxBytes).files, paths)
    ensures Reopened(Gc(s, cutoff, maxBytes).files, paths).mem.maxSeq == s.mem.maxSeq
  {
    GcReopenExact(s, log, cutoff, maxBytes, paths);
    assert Removed(s.mem.segments, cutoff, maxBytes) <= |s.mem.segments| - 1;
  }

  /** The high water of a log is the greatest sequence of its map. */
  lemma {:induction false} HighIsGreatest(log: Log)
    ensures High(log).None? <==> Contents(log) == map[]
    ensures High(log).Some? ==>
              High(log).value in Contents(log) && forall q :: q in Contents(log) ==> q <= High(log).value
  {
    hide Top;
    if log != [] {
      var n := |log| - 1;
      HighIsGreatest(log[..n]);
      GreatestRecord(High(log[..n]), Contents(log[..n]), log[n].records);
    }
  }

  lemma {:induction false} GreatestRecord(h: Option<nat>, m: map<nat, seq<seq<byte>>>, rs: seq<Record>)
    requires h.None? <==> m == map[]
    requires h.Some? ==> h.value in m && forall q :: q in m ==> q <= h.value
    ensures var top, all := HighRecords(h, rs), AddRecords(m, rs);
            && (top.None? <==> all == map[])
            && (top.Some? ==> top.value in all && forall q :: q in all ==> q <= top.value)
  {
    if rs != [] {
      var n := |rs| - 1;
      GreatestRecord(h, m, rs[..n]);
      assert rs[n].seqNo in AddRecords(m, rs);
    }
  }

  function Reopened(files: Files, paths: seq<FileName>): StoreState
    requires forall p :: p in paths ==> p in files
  {
    ScanAll(StoreState(EMPTY, files), paths)
  }

  lemma {:induction false} WholeFiles(log: Log)
    ensures TornFiles(log, []) == FilesOf(log)
  {
    if log != [] {
      var last := log[|log| - 1];
      assert BytesOf(last) + [] == BytesOf(last);
    }
  }
}
