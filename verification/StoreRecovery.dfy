/** Opening a directory, torn or not, recovers the log that was written to it. */
module StoreRecovery {
  import opened Bytes
  import opened StoreFormat
  import opened GroupStore
  import opened StoreRefinement

  // ---- the listing comes back in creation order ----

  function Names(log: Log): (names: seq<FileName>)
    ensures |names| == |log| && forall i :: 0 <= i < |log| ==> names[i] == NameOf(log[i])
  {
    if log == [] then [] else Names(log[..|log| - 1]) + [NameOf(log[|log| - 1])]
  }

  ghost predicate StrictStems(names: seq<FileName>) {
    forall i, j :: 0 <= i < j < |names| ==> Compare(names[i].stem, names[j].stem) == Less
  }

  lemma {:induction false} SortedSame(a: seq<FileName>, b: seq<FileName>)
    requires StrictStems(a) && StrictStems(b)
    requires forall n :: n in a <==> n in b
    ensures a == b
  {
    assert a != [] ==> a[0] in b;
    assert b != [] ==> b[0] in a;
    if a != [] {
      SameHead(a, b);
      forall n ensures n in a[1..] <==> n in b[1..] {
        CompareEqual(a[0].stem, a[0].stem);
        assert n in a <==> n == a[0] || n in a[1..];
        assert n in b <==> n == b[0] || n in b[1..];
      }
      SortedSame(a[1..], b[1..]);
      assert a == [a[0]] + a[1..] && b == [b[0]] + b[1..];
    }
  }

  lemma {:induction false} SameHead(a: seq<FileName>, b: seq<FileName>)
    requires a != [] && b != [] && StrictStems(a) && StrictStems(b)
    requires forall n :: n in a <==> n in b
    ensures a[0] == b[0]
  {
    assert a[0] in b && b[0] in a;
    var i :| 0 <= i < |b| && b[i] == a[0];
    var j :| 0 <= j < |a| && a[j] == b[0];
    CompareFlip(a[0].stem, b[0].stem);
  }

  lemma {:induction false} TornNames(log: Log, tail: seq<byte>)
    requires LogOk(log)
    ensures forall n :: n in TornFiles(log, tail) <==> n in Names(log)
  {
    forall i | 0 <= i < |log| ensures Names(log)[i] in FilesOf(log) { FileOf(log, i); }
    forall n | n in FilesOf(log) ensures n in Names(log) {
      var i := FileIndex(log, n);
      assert Names(log)[i] == n;
    }
  }

  /** Twenty-digit names sort in the numeric order of their sequences: any sorted listing of the
      directory is the order in which the segments were created. */
  lemma {:induction false} ListingOrder(files: Files, log: Log, tail: seq<byte>, paths: seq<FileName>)
    requires LogOk(log) && Holds(files, log, tail) && IsListing(files, paths)
    ensures paths == Names(log)
  {
    TornNames(log, tail);
    forall i, j | 0 <= i < j < |log| ensures Compare(Names(log)[i].stem, Names(log)[j].stem) == Less {
      NamesDiffer(log, i, j);
    }
    forall i, j | 0 <= i < j < |paths| ensures Compare(paths[i].stem, paths[j].stem) == Less {
      assert paths[i] in Names(log) && paths[j] in Names(log);
      StemsDiffer(log, paths[i], paths[j]);
    }
    SortedSame(paths, Names(log));
  }

  lemma {:induction false} StemsDiffer(log: Log, m: FileName, n: FileName)
    requires LogOk(log) && m in Names(log) && n in Names(log) && m != n
    ensures Compare(m.stem, n.stem) != Equal
  {
    var i :| 0 <= i < |log| && Names(log)[i] == m;
    var j :| 0 <= j < |log| && Names(log)[j] == n;
    if i < j { NamesDiffer(log, i, j); } else { NamesDiffer(log, j, i); }
    CompareFlip(m.stem, n.stem);
    CompareFlip(n.stem, m.stem);
  }

  // ---- one segment ----

  /** The tally after the first `k` records of segment `i`. */
  function TallyAt(index: map<nat, Location>, high: Option<nat>, sl: SegLog, i: nat, k: nat): Tally
    requires k <= |sl.records|
  {
    Tally(AddLocations(index, sl.v2, sl.records[..k], i), HighRecords(high, sl.records[..k]),
          if k == 0 then None else Some(sl.records[0].seqNo),
          if k == 0 then 0 else sl.records[k - 1].ms)
  }

  lemma {:induction false} TallyStep(index: map<nat, Location>, high: Option<nat>, sl: SegLog, i: nat, k: nat)
    requires k < |sl.records|
    ensures Count(TallyAt(index, high, sl, i, k),
                  Found(sl.records[k].seqNo, sl.records[k].ms, OffsetOf(sl.v2, sl.records, k)), i)
            == TallyAt(index, high, sl, i, k + 1)
  {
    var rs := sl.records[..k + 1];
    assert rs[..k] == sl.records[..k];
  }

  lemma {:induction false} CountRecords(index: map<nat, Location>, high: Option<nat>, sl: SegLog, i: nat, k: nat)
    requires k <= |sl.records|
    ensures CountAll(TallyAt(index, high, sl, i, k), FoundAll(sl.v2, sl.records, k), i)
            == TallyAt(index, high, sl, i, |sl.records|)
    decreases |sl.records| - k
  {
    if k < |sl.records| {
      TallyStep(index, high, sl, i, k);
      CountRecords(index, high, sl, i, k + 1);
      assert FoundAll(sl.v2, sl.records, k)[1..] == FoundAll(sl.v2, sl.records, k + 1);
    }
  }

  /** Torn-tail recovery of one file, in either format: exactly its whole records are indexed and
      the file is cut to their length, so the recorded size is the physical end of file. */
  lemma {:induction false} ScanOneRecovers(s: StoreState, sl: SegLog, tail: seq<byte>)
    requires NameOf(sl) in s.files && s.files[NameOf(sl)] == BytesOf(sl) + tail && Torn(sl.v2, tail)
    requires forall k :: 0 <= k < |sl.records| ==> Fits(sl.records[k])
    requires sl.records != [] ==> sl.first <= sl.records[0].seqNo
    ensures var t, i := ScanOne(s, NameOf(sl)), |s.mem.segments|;
            && t.files == s.files[NameOf(sl) := BytesOf(sl)]
            && t.mem.index == AddLocations(s.mem.index, sl.v2, sl.records, i)
            && t.mem.maxSeq == HighRecords(s.mem.maxSeq, sl.records)
            && t.mem.writer == s.mem.writer
            && |t.mem.segments| == i + 1 && t.mem.segments[..i] == s.mem.segments
            && SegRep(t.mem.segments[i], sl)
  {
    var i := |s.mem.segments|;
    ScanRecovers(sl.v2, sl.records, tail, 0);
    assert OffsetOf(sl.v2, sl.records, 0) == 0 by { assert sl.records[..0] == []; }
    assert TallyAt(s.mem.index, s.mem.maxSeq, sl, i, 0) == Tally(s.mem.index, s.mem.maxSeq, None, 0)
      by { assert sl.records[..0] == []; }
    CountRecords(s.mem.index, s.mem.maxSeq, sl, i, 0);
    assert sl.records[..|sl.records|] == sl.records;
    assert (BytesOf(sl) + tail)[..|BytesOf(sl)|] == BytesOf(sl);
  }

  // ---- the whole directory ----

  /** Memory after scanning the first `i` segments. */
  ghost predicate ScannedTo(mem: Mem, log: Log, i: nat) {
    && i <= |log| && SegmentsRep(mem.segments, log[..i])
    && mem.index == IndexOf(log[..i]) && mem.maxSeq == High(log[..i]) && mem.writer == None
  }

  function FilesAt(log: Log, tail: seq<byte>, i: nat): Files {
    if i < |log| then TornFiles(log, tail) else FilesOf(log)
  }

  lemma {:induction false} FileAt(log: Log, tail: seq<byte>, i: nat)
    requires LogOk(log) && i < |log|
    ensures var files := TornFiles(log, tail);
            && NameOf(log[i]) in files
            && files[NameOf(log[i])] == BytesOf(log[i]) + (if i == |log| - 1 then tail else [])
            && files[NameOf(log[i]) := BytesOf(log[i])] == FilesAt(log, tail, i + 1)
  {
    hide FilesOf, LogOk, EncodeAll, Digits, NameOf, BytesOf;
    FileOf(log, i);
    assert BytesOf(log[i]) + [] == BytesOf(log[i]);
    if i < |log| - 1 {
      NamesDiffer(log, i, |log| - 1);
    } else {
      assert FilesOf(log)[NameOf(log[i]) := BytesOf(log[i])] == FilesOf(log);
    }
  }

  lemma {:induction false} ScanStep(s: StoreState, log: Log, tail: seq<byte>, i: nat)
    requires LogOk(log) && i < |log| && Torn(log[|log| - 1].v2, tail)
    requires ScannedTo(s.mem, log, i) && s.files == TornFiles(log, tail)
    ensures NameOf(log[i]) in s.files
    ensures var t := ScanOne(s, NameOf(log[i]));
            ScannedTo(t.mem, log, i + 1) && t.files == FilesAt(log, tail, i + 1)
  {
    hide ScanOne, LogOk, EncodeAll, Digits, FilesOf, TornFiles;
    FileAt(log, tail, i);
    forall k | 0 <= k < |log[i].records| ensures Fits(log[i].records[k]) && log[i].first <= log[i].records[k].seqNo {
      SeqBounds(log, i, k);
    }
    ScanOneRecovers(s, log[i], if i == |log| - 1 then tail else []);
    var t := ScanOne(s, NameOf(log[i]));
    var next := log[..i + 1];
    assert next[..i] == log[..i] && next[i] == log[i];
    forall j | 0 <= j < i + 1 ensures SegRep(t.mem.segments[j], next[j]) {
      if j < i {
        assert t.mem.segments[j] == t.mem.segments[..i][j] == s.mem.segments[j];
        assert SegRep(s.mem.segments[j], log[..i][j]);
      }
    }
  }

  lemma {:induction false} ScanRange(s: StoreState, log: Log, tail: seq<byte>, i: nat, end: nat)
    requires LogOk(log) && (log != [] ==> Torn(log[|log| - 1].v2, tail)) && i <= end <= |log|
    requires ScannedTo(s.mem, log, i) && s.files == FilesAt(log, tail, i)
    requires forall p :: p in Names(log)[i..end] ==> p in s.files
    ensures var t := ScanAll(s, Names(log)[i..end]);
            ScannedTo(t.mem, log, end) && t.files == FilesAt(log, tail, end)
    decreases end - i
  {
    if i < end {
      ScanStep(s, log, tail, i);
      var names := Names(log)[i..end];
      assert names[0] == NameOf(log[i]) && names[1..] == Names(log)[i + 1..end];
      ScanRange(ScanOne(s, NameOf(log[i])), log, tail, i + 1, end);
    }
  }

  /** A process that dies while opening has cut the torn tail or has changed nothing. */
  lemma {:induction false} OpenCrashHolds(files: Files, log: Log, tail: seq<byte>, paths: seq<FileName>, k: nat)
    requires LogOk(log) && Holds(files, log, tail) && IsListing(files, paths) && k <= |paths|
    ensures k <= |log| && ScanAll(StoreState(EMPTY, files), paths[..k]).files == FilesAt(log, tail, k)
  {
    hide LogOk, IndexOf, High, FilesOf, ScanOne, ScanAll, Torn, TornFiles, FilesAt;
    ListingOrder(files, log, tail, paths);
    assert Names(log)[0..k] == paths[..k];
    Empty(log);
    FilesBefore(files, log, tail);
    ScanRange(StoreState(EMPTY, files), log, tail, 0, k);
  }

  lemma {:induction false} FilesBefore(files: Files, log: Log, tail: seq<byte>)
    requires Holds(files, log, tail)
    ensures files == FilesAt(log, tail, 0)
  {
    hide FilesOf;
    if log == [] { NoFiles(); }
  }

  lemma {:induction false} NoFiles()
    ensures FilesOf([]) == map[]
  {
  }

  lemma {:induction false} Empty(log: Log)
    ensures ScannedTo(EMPTY, log, 0)
  {
    assert log[..0] == [];
  }

  /** Open: from whole records and at most one torn record, memory is rebuilt to represent exactly
      the whole records, the high water is their maximum, and the torn bytes are gone from disk. */
  lemma {:induction false} OpenRefines(files: Files, log: Log, tail: seq<byte>, paths: seq<FileName>)
    requires LogOk(log) && Holds(files, log, tail) && IsListing(files, paths)
    ensures var s := ScanAll(StoreState(EMPTY, files), paths);
            Rep(s, log) && s.mem.maxSeq == High(log)
  {
    hide LogOk, IndexOf, FilesOf, ScanOne, ScanAll;
    ListingOrder(files, log, tail, paths);
    assert Names(log)[0..|log|] == paths && log[..|log|] == log;
    Empty(log);
    FilesBefore(files, log, tail);
    ScanRange(StoreState(EMPTY, files), log, tail, 0, |log|);
  }
}
