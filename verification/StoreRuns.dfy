/** Whole runs of the store: any interleaving of opens, appends, collections and crashes, at any byte
    of a write and between any two removals, refines a plain map. */
module StoreRuns {
  import opened Bytes
  import opened StoreFormat
  import opened GroupStore
  import opened StoreRefinement
  import opened StoreRecovery
  import opened StoreGc

  type Groups = map<nat, seq<seq<byte>>>

  /** `mem` and `files` are the program's; `log`, `tail` and `top` record what was written, the torn
      bytes at the end, and the greatest sequence any append was attempted with. `exact` tells that no
      collection since the last open left a stale index entry. */
  datatype World = World(mem: Option<Mem>, files: Files, log: Log, tail: seq<byte>, top: int, exact: bool)

  datatype Event =
    | Open(paths: seq<FileName>)
    | OpenCrash(paths: seq<FileName>, scanned: nat)
    | Append(r: Record)
    | AppendCrash(r: Record, created: bool, written: nat)
    | Kill
    | Collect(cutoff: nat, maxBytes: nat)
    | CollectCrash(cutoff: nat, maxBytes: nat, removed: nat)

  function Up(w: World): StoreState
    requires w.mem.Some?
  {
    StoreState(w.mem.value, w.files)
  }

  ghost predicate Inv(w: World) {
    && LogOk(w.log) && (w.log != [] ==> Top(w.log[|w.log| - 1]) <= w.top)
    && (if w.mem.Some?
        then && Serves(Up(w), w.log) && Usable(Up(w)) && (w.exact ==> w.mem.value.index == IndexOf(w.log))
             && (w.mem.value.maxSeq.Some? ==> w.mem.value.maxSeq.value <= w.top)
        else Holds(w.files, w.log, w.tail))
  }

  /** Sequences ascend over the whole run and lengths fit their fields. */
  ghost predicate Enabled(w: World, e: Event) {
    match e
    case Open(paths) => w.mem.None? && IsListing(w.files, paths)
    case OpenCrash(paths, scanned) => w.mem.None? && IsListing(w.files, paths) && scanned <= |paths|
    case Append(r) => w.mem.Some? && Fits(r) && r.seqNo > w.top
    case AppendCrash(r, _, written) =>
      w.mem.Some? && Fits(r) && r.seqNo > w.top && written <= |Encode(true, r)|
    case Kill => w.mem.Some?
    case Collect(_, _) => w.mem.Some?
    case CollectCrash(cutoff, maxBytes, removed) =>
      w.mem.Some? && removed <= Removed(w.mem.value.segments, cutoff, maxBytes)
  }

  /** The log once the active file is open for `seqNo`: a rotation has created an empty file. */
  function OpenedLog(log: Log, target: nat, seqNo: u64): Log {
    if RotateLog(log, target) then log + [SegLog(seqNo, true, [])] else log
  }

  ghost function OpenStep(w: World, paths: seq<FileName>): (v: World)
    requires Inv(w) && Enabled(w, Open(paths))
    ensures Inv(v)
  {
    OpenRefines(w.files, w.log, w.tail, paths);
    HighBelow(w.log);
    var s := ScanAll(StoreState(EMPTY, w.files), paths);
    RepUsable(s, w.log);
    w.(mem := Some(s.mem), files := s.files, tail := [], exact := true)
  }

  ghost function OpenCrashStep(w: World, paths: seq<FileName>, scanned: nat): (v: World)
    requires Inv(w) && Enabled(w, OpenCrash(paths, scanned))
    ensures Inv(v)
  {
    OpenCrashHolds(w.files, w.log, w.tail, paths, scanned);
    WholeFiles(w.log);
    w.(files := ScanAll(StoreState(EMPTY, w.files), paths[..scanned]).files,
       tail := if scanned < |w.log| then w.tail else [])
  }

  ghost function AppendStep(w: World, target: nat, r: Record): (v: World)
    requires Inv(w) && Enabled(w, Append(r)) && target > 0
    ensures Inv(v)
  {
    AppendRefines(Up(w), w.log, target, r);
    AppendNameFree(Up(w), w.log, target, r.seqNo);
    AppendedUsable(Up(w), target, r);
    AppendTop(w.log, target, r);
    var s := Appended(Up(w), target, r);
    w.(mem := Some(s.mem), files := s.files, log := AppendLog(w.log, target, r), top := r.seqNo)
  }

  /** Dead before the append touched the disk, or `written` bytes into it. */
  ghost function AppendCrashStep(w: World, target: nat, r: Record, created: bool, written: nat): (v: World)
    requires Inv(w) && Enabled(w, AppendCrash(r, created, written)) && target > 0
    ensures Inv(v)
  {
    if !created then
      UntouchedKeeps(w, r);
      w.(mem := None, tail := [], top := r.seqNo)
    else
      CrashKeeps(w, target, r, written);
      var s := EnsureWriter(Up(w), target, r.seqNo);
      var part := Encode(true, r)[..written];
      if written < |Encode(true, r)| then
        World(None, Extend(s, part), OpenedLog(w.log, target, r.seqNo), part, r.seqNo, w.exact)
      else World(None, Extend(s, part), AppendLog(w.log, target, r), [], r.seqNo, w.exact)
  }

  lemma {:induction false} UntouchedKeeps(w: World, r: Record)
    requires Inv(w) && w.mem.Some? && r.seqNo > w.top
    ensures Inv(w.(mem := None, tail := [], top := r.seqNo))
  {
    hide LogOk, Covers, SegmentsRep, HighRep, Usable, IndexOf, FilesOf, Top, TornFiles;
    WholeFiles(w.log);
  }

  lemma {:induction false} CrashKeeps(w: World, target: nat, r: Record, written: nat)
    requires Inv(w) && w.mem.Some? && Fits(r) && r.seqNo > w.top && written <= |Encode(true, r)| && target > 0
    ensures var s, part := EnsureWriter(Up(w), target, r.seqNo), Encode(true, r)[..written];
            && s.mem.writer.Some? && s.mem.writer.value in s.files
            && Inv(if written < |Encode(true, r)|
                   then World(None, Extend(s, part), OpenedLog(w.log, target, r.seqNo), part, r.seqNo, w.exact)
                   else World(None, Extend(s, part), AppendLog(w.log, target, r), [], r.seqNo, w.exact))
  {
    hide Serves, Usable, Holds, LogOk, Fits, EnsureWriter, Extend, Encode, AppendLog, OpenedLog, Top;
    ServesAscends(w, r.seqNo);
    AppendTop(w.log, target, r);
    AppendCrashHolds(Up(w), w.log, target, r, written);
  }

  lemma {:induction false} ServesAscends(w: World, q: u64)
    requires Inv(w) && q > w.top
    ensures Ascends(w.log, q)
  {
    hide LogOk, Serves, Usable, Holds;
  }

  ghost function KillStep(w: World): (v: World)
    requires Inv(w) && w.mem.Some?
    ensures Inv(v)
  {
    WholeFiles(w.log);
    w.(mem := None, tail := [])
  }

  ghost function CollectStep(w: World, cutoff: nat, maxBytes: nat): (v: World)
    requires Inv(w) && Enabled(w, Collect(cutoff, maxBytes))
    ensures Inv(v)
  {
    CollectKeeps(w, cutoff, maxBytes);
    var s, r := Gc(Up(w), cutoff, maxBytes), Removed(w.mem.value.segments, cutoff, maxBytes);
    w.(mem := Some(s.mem), files := s.files, log := w.log[r..], exact := w.exact && Clean(w.mem.value.segments, r))
  }

  lemma {:induction false} CollectKeeps(w: World, cutoff: nat, maxBytes: nat)
    requires Inv(w) && w.mem.Some?
    ensures var s, r := Gc(Up(w), cutoff, maxBytes), Removed(w.mem.value.segments, cutoff, maxBytes);
            && r <= |w.log|
            && Inv(w.(mem := Some(s.mem), files := s.files, log := w.log[r..],
                      exact := w.exact && Clean(w.mem.value.segments, r)))
  {
    hide LogOk, IndexOf, Usable, Clean, Covers, HighRep, FilesOf, Gc, Removed, Top, Holds;
    if w.log == [] {
      NothingToCollect(Up(w), cutoff, maxBytes);
      assert w.log[0..] == w.log;
    } else {
      var r := Removed(w.mem.value.segments, cutoff, maxBytes);
      GcSegments(Up(w), cutoff, maxBytes);
      GcServes(Up(w), w.log, cutoff, maxBytes);
      if w.exact { GcExact(Up(w), w.log, cutoff, maxBytes); }
      assert w.log[r..][|w.log[r..]| - 1] == w.log[|w.log| - 1];
    }
  }

  lemma {:induction false} NothingToCollect(s: StoreState, cutoff: nat, maxBytes: nat)
    requires s.mem.segments == []
    ensures Gc(s, cutoff, maxBytes) == s && Removed(s.mem.segments, cutoff, maxBytes) == 0
  {
  }

  /** Dead inside a collection, `removed` files into it. */
  ghost function CollectCrashStep(w: World, cutoff: nat, maxBytes: nat, removed: nat): (v: World)
    requires Inv(w) && Enabled(w, CollectCrash(cutoff, maxBytes, removed))
    ensures Inv(v)
  {
    CollectCrashKeeps(w, removed);
    w.(mem := None, files := Turns(Up(w), removed).files, log := w.log[removed..], tail := [])
  }

  lemma {:induction false} CollectCrashKeeps(w: World, removed: nat)
    requires Inv(w) && w.mem.Some? && (removed == 0 || removed < |w.mem.value.segments|)
    ensures removed <= |w.log|
    ensures Inv(w.(mem := None, files := Turns(Up(w), removed).files, log := w.log[removed..], tail := []))
  {
    hide LogOk, IndexOf, Usable, Covers, HighRep, FilesOf, Turns, Top, TornFiles, SegRep;
    TurnsFiles(Up(w), w.log, removed);
    DropLogOk(w.log, removed);
    WholeFiles(w.log[removed..]);
    if removed < |w.log| { assert w.log[removed..][|w.log[removed..]| - 1] == w.log[|w.log| - 1]; }
  }

  ghost function Step(w: World, target: nat, e: Event): (v: World)
    requires Inv(w) && Enabled(w, e) && target > 0
    ensures Inv(v)
  {
    match e
    case Open(paths) => OpenStep(w, paths)
    case OpenCrash(paths, scanned) => OpenCrashStep(w, paths, scanned)
    case Append(r) => AppendStep(w, target, r)
    case AppendCrash(r, created, written) => AppendCrashStep(w, target, r, created, written)
    case Kill => KillStep(w)
    case Collect(cutoff, maxBytes) => CollectStep(w, cutoff, maxBytes)
    case CollectCrash(cutoff, maxBytes, removed) => CollectCrashStep(w, cutoff, maxBytes, removed)
  }

  lemma {:induction false} AppendTop(log: Log, target: nat, r: Record)
    ensures var after := AppendLog(log, target, r);
            after != [] && Top(after[|after| - 1]) == r.seqNo
    ensures var o := OpenedLog(log, target, r.seqNo);
            o != [] && (Top(o[|o| - 1]) == r.seqNo || o == log)
  {
  }

  /** A crash `written` bytes into the record leaves whole records and a torn tail, or, after the
      last byte, one whole record more. */
  lemma {:induction false} AppendCrashHolds(s: StoreState, log: Log, target: nat, r: Record, written: nat)
    requires Serves(s, log) && Usable(s) && Ascends(log, r.seqNo) && target > 0 && Fits(r)
    requires written <= |Encode(true, r)|
    ensures var w := EnsureWriter(s, target, r.seqNo);
            && w.mem.writer.Some? && w.mem.writer.value in w.files
            && var files := Extend(w, Encode(true, r)[..written]);
               if written < |Encode(true, r)|
               then LogOk(OpenedLog(log, target, r.seqNo))
                    && Holds(files, OpenedLog(log, target, r.seqNo), Encode(true, r)[..written])
               else LogOk(AppendLog(log, target, r)) && Holds(files, AppendLog(log, target, r), [])
  {
    hide LogOk, FilesOf, IndexOf, High, Encode, EncodeAll, Digits;
    var part := Encode(true, r)[..written];
    if written < |Encode(true, r)| {
      OpenedOk(log, target, r.seqNo);
      TornAppend(s, log, target, r, written);
    } else {
      assert part == Encode(true, r);
      AppendLogOk(log, target, r);
      AppendWritten(s, log, target, r);
      WholeFiles(AppendLog(log, target, r));
      AppendShape(log, target, r);
    }
  }

  lemma {:induction false} OpenedOk(log: Log, target: nat, q: u64)
    requires LogOk(log) && Ascends(log, q) && target > 0
    ensures LogOk(OpenedLog(log, target, q))
  {
    if log != [] && RotateLog(log, target) {
      assert (log + [SegLog(q, true, [])])[..|log|] == log;
    }
  }

  lemma {:induction false} TornAppend(s: StoreState, log: Log, target: nat, r: Record, written: nat)
    requires Serves(s, log) && Usable(s) && Ascends(log, r.seqNo) && target > 0 && Fits(r)
    requires written < |Encode(true, r)|
    ensures var w := EnsureWriter(s, target, r.seqNo);
            && w.mem.writer.value in w.files
            && Holds(Extend(w, Encode(true, r)[..written]), OpenedLog(log, target, r.seqNo), Encode(true, r)[..written])
  {
    hide LogOk, IndexOf, High, Encode, Digits;
    var part := Encode(true, r)[..written];
    RotateAgrees(s, log, target);
    AppendNameFree(s, log, target, r.seqNo);
    if RotateLog(log, target) {
      assert OpenedLog(log, target, r.seqNo)[..|log|] == log;
      assert [] + part == part;
    } else {
      FileOf(log, |log| - 1);
      assert SegRep(s.mem.segments[|log| - 1], log[|log| - 1]);
    }
    assert Torn(true, part);
  }

  ghost predicate Legal(w: World, target: nat, es: seq<Event>)
    requires Inv(w) && target > 0
    decreases es
  {
    es == [] || (Enabled(w, es[0]) && Legal(Step(w, target, es[0]), target, es[1..]))
  }

  ghost function Run(w: World, target: nat, es: seq<Event>): (v: World)
    requires Inv(w) && target > 0 && Legal(w, target, es)
    ensures Inv(v)
    decreases es
  {
    if es == [] then w else Run(Step(w, target, es[0]), target, es[1..])
  }

  // ---- what the caller may expect, from the events alone ----

  /** Appends that completed, in the process or in a crash after their last byte. */
  function Expected(m: Groups, es: seq<Event>): Groups
    decreases es
  {
    if es == [] then m else Expected(Completed(m, es[0]), es[1..])
  }

  function Completed(m: Groups, e: Event): Groups {
    match e
    case Append(r) => m[r.seqNo := r.frames]
    case AppendCrash(r, created, written) =>
      if created && written == |Encode(true, r)| then m[r.seqNo := r.frames] else m
    case _ => m
  }

  ghost predicate NoCollect(es: seq<Event>) { forall i :: 0 <= i < |es| ==> !es[i].Collect? && !es[i].CollectCrash? }

  /** How many files a step removes. */
  ghost function Heads(w: World, e: Event): nat
    requires Enabled(w, e)
  {
    match e
    case Collect(cutoff, maxBytes) => Removed(w.mem.value.segments, cutoff, maxBytes)
    case CollectCrash(_, _, removed) => removed
    case _ => 0
  }

  /** The map without the groups of the first `n` files. */
  function Without(log: Log, n: nat): Groups {
    if n < |log| then From(Contents(log), log[n].first) else Contents(log)
  }

  lemma {:induction false} StepContents(w: World, target: nat, e: Event)
    requires Inv(w) && Enabled(w, e) && target > 0
    ensures !e.Collect? && !e.CollectCrash? ==> Contents(Step(w, target, e).log) == Completed(Contents(w.log), e)
    ensures e.Collect? || e.CollectCrash? ==>
              && (w.log != [] ==> Heads(w, e) < |w.log|)
              && Contents(Step(w, target, e).log) == Without(w.log, Heads(w, e))
  {
    hide LogOk, Serves, Usable, Holds, Encode, EncodeAll, Contents, IndexOf, From, Without;
    if e.Append? {
      AppendContents(w.log, target, e.r);
    } else if e.AppendCrash? {
      CrashContents(w, target, e);
    } else if e.Collect? || e.CollectCrash? {
      HeadsContents(w, e);
    }
  }

  lemma {:induction false} CrashContents(w: World, target: nat, e: Event)
    requires Inv(w) && Enabled(w, e) && target > 0 && e.AppendCrash?
    ensures Contents(Step(w, target, e).log) == Completed(Contents(w.log), e)
  {
    hide LogOk, Serves, Usable, Holds, Encode, EncodeAll, Contents, IndexOf, High;
    AppendContents(w.log, target, e.r);
    OpenedContents(w.log, target, e.r.seqNo);
  }

  lemma {:induction false} HeadsContents(w: World, e: Event)
    requires Inv(w) && Enabled(w, e) && (e.Collect? || e.CollectCrash?)
    ensures Heads(w, e) <= |w.log| && (w.log != [] ==> Heads(w, e) < |w.log|)
    ensures Contents(w.log[Heads(w, e)..]) == Without(w.log, Heads(w, e))
  {
    hide LogOk, Contents, Covers, Usable, IndexOf;
    if w.log != [] { DropContents(w.log, Heads(w, e)); } else { assert w.log[0..] == w.log; }
  }

  lemma {:induction false} OpenedContents(log: Log, target: nat, q: u64)
    ensures var after := OpenedLog(log, target, q);
            && log <= after && Contents(after) == Contents(log)
            && IndexOf(after) == IndexOf(log) && High(after) == High(log)
  {
    if RotateLog(log, target) {
      assert (log + [SegLog(q, true, [])])[..|log|] == log;
    }
  }

  /** Nothing but what the log holds is in the index. */
  predicate Clear(w: World) { w.mem.Some? ==> w.exact }

  lemma {:induction false} RunContents(w: World, target: nat, es: seq<Event>)
    requires Inv(w) && target > 0 && Legal(w, target, es) && NoCollect(es)
    ensures Contents(Run(w, target, es).log) == Expected(Contents(w.log), es)
    ensures Clear(w) ==> Clear(Run(w, target, es))
    decreases es
  {
    hide Step, Inv, Contents, Clear;
    if es != [] {
      StepContents(w, target, es[0]);
      StepClear(w, target, es[0]);
      forall i | 0 <= i < |es[1..]| ensures !es[1..][i].Collect? && !es[1..][i].CollectCrash? {
        assert es[1..][i] == es[i + 1];
      }
      RunContents(Step(w, target, es[0]), target, es[1..]);
    }
  }

  lemma {:induction false} StepClear(w: World, target: nat, e: Event)
    requires Inv(w) && Enabled(w, e) && target > 0
    ensures !e.Collect? && Clear(w) ==> Clear(Step(w, target, e))
  {
    hide Inv;
  }

  /** Store refinement over whole runs: whatever was opened, appended, torn and killed on the way,
      a store that is up returns exactly the frames of each completed append and nothing else. */
  lemma {:induction false} RunReads(w: World, target: nat, es: seq<Event>, q: nat)
    requires Inv(w) && Clear(w) && target > 0 && Legal(w, target, es) && NoCollect(es)
    requires Run(w, target, es).mem.Some?
    ensures var v := Run(w, target, es);
            var m := Expected(Contents(w.log), es);
            && Usable(Up(v))
            && ReadGroup(Up(v), q) == if q in m then Frames(m[q]) else NotStored
  {
    hide Run, Legal, Expected, Contents, LogOk, Serves, Usable, IndexOf;
    RunContents(w, target, es);
    var v := Run(w, target, es);
    ReadRefines(Up(v), v.log, q);
  }

  /** Collections too, whatever they meet: at every moment of every legal run each group of the log's
      map reads back in full, and no other sequence is found unless a collection since the last open
      left its entry behind. `StepContents` says how each step changes that map. */
  lemma {:induction false} RunReadsLog(w: World, target: nat, es: seq<Event>, q: nat)
    requires Inv(w) && target > 0 && Legal(w, target, es) && Run(w, target, es).mem.Some?
    ensures var v := Run(w, target, es);
            && Usable(Up(v))
            && (q in Contents(v.log) ==> ReadGroup(Up(v), q) == Frames(Contents(v.log)[q]))
            && (q !in Contents(v.log) && v.exact ==> ReadGroup(Up(v), q) == NotStored)
  {
    hide Run, Legal, Contents, LogOk, Serves, Usable, IndexOf;
    var v := Run(w, target, es);
    ReadRefines(Up(v), v.log, q);
  }

  // ---- how full the files are ----

  /** Every file of this format but the active one has reached the target size, and none had reached it
      before its last record. */
  ghost predicate Filled(log: Log, target: nat) {
    forall i :: 0 <= i < |log| && log[i].v2 ==>
      && (i < |log| - 1 ==> |BytesOf(log[i])| >= target)
      && (log[i].records != [] ==> |EncodeAll(true, log[i].records[..|log[i].records| - 1])| < target)
  }

  lemma {:induction false} AppendFills(log: Log, target: nat, r: Record)
    requires Filled(log, target) && target > 0
    ensures Filled(AppendLog(log, target, r), target)
  {
    hide Encode, EncodeAll;
    var after := AppendLog(log, target, r);
    if RotateLog(log, target) {
      assert EncodeAll(true, [r][..0]) == [] by { NoneEncoded([r][..0]); }
    } else {
      var rs := log[|log| - 1].records;
      assert (rs + [r])[..|rs|] == rs;
    }
  }

  lemma {:induction false} NoneEncoded(rs: seq<Record>)
    requires rs == []
    ensures EncodeAll(true, rs) == []
  {
  }

  lemma {:induction false} OpenFills(log: Log, target: nat, q: u64)
    requires Filled(log, target) && target > 0
    ensures Filled(OpenedLog(log, target, q), target)
  {
    hide Encode, EncodeAll;
  }

  lemma {:induction false} StepFills(w: World, target: nat, e: Event)
    requires Inv(w) && Enabled(w, e) && target > 0 && Filled(w.log, target)
    ensures Filled(Step(w, target, e).log, target)
  {
    hide Inv, Encode, EncodeAll, LogOk, AppendLog, OpenedLog, AppendCrashStep, AppendStep, BytesOf, Contents, Removed;
    if e.Append? {
      CrashLog(w, target, e.r, false, 0);
      AppendFills(w.log, target, e.r);
    } else if e.AppendCrash? {
      CrashLog(w, target, e.r, e.created, e.written);
      AppendFills(w.log, target, e.r);
      OpenFills(w.log, target, e.r.seqNo);
    } else if e.Collect? || e.CollectCrash? {
      HeadsContents(w, e);
    }
  }

  /** Over any run files are only left for a new one once they have the target size, and each outgrows
      it by less than its last record. */
  lemma {:induction false} RunFills(w: World, target: nat, es: seq<Event>)
    requires Inv(w) && target > 0 && Legal(w, target, es) && Filled(w.log, target)
    ensures var log := Run(w, target, es).log;
            && Filled(log, target)
            && forall i :: 0 <= i < |log| && log[i].v2 && log[i].records != [] ==>
                 |BytesOf(log[i])| < target + |Encode(true, log[i].records[|log[i].records| - 1])|
    decreases es
  {
    hide Step, Inv, Enabled, Encode;
    if es != [] {
      StepFills(w, target, es[0]);
      RunFills(Step(w, target, es[0]), target, es[1..]);
    }
  }

  /** The first segments of `b` are those of `a`, name by name and byte count by byte count. */
  predicate SameTable(a: seq<Segment>, b: seq<Segment>) {
    |a| <= |b| && forall i :: 0 <= i < |a| ==> a[i].name == b[i].name && a[i].bytes == b[i].bytes
  }

  lemma {:induction false} SameTables(a: seq<Segment>, b: seq<Segment>, log: Log, more: Log)
    requires SegmentsRep(a, log) && SegmentsRep(b, more) && log <= more
    ensures SameTable(a, b)
  {
    forall i | 0 <= i < |a| ensures a[i].name == b[i].name && a[i].bytes == b[i].bytes {
      assert SegRep(a[i], log[i]) && SegRep(b[i], more[i]);
    }
  }

  /** Every byte of the record reached the file before the process died. */
  ghost predicate Whole(e: Event) {
    e.AppendCrash? && e.created && e.written == |Encode(true, e.r)|
  }

  /** The memory a crash at this point should give back: the one before the append, or the one after
      it when the record is whole. */
  ghost function Lasting(w: World, target: nat, e: Event): World
    requires Inv(w) && Enabled(w, e) && target > 0 && w.mem.Some?
  {
    if Whole(e) then Step(w, target, Append(e.r)) else w
  }

  /** What an open recovers, from what the log says. */
  lemma {:induction false} Recovered(down: World, target: nat, paths: seq<FileName>)
    requires Inv(down) && target > 0 && Enabled(down, Open(paths))
    ensures var up := Step(down, target, Open(paths));
            && up.mem.Some? && up.log == down.log && up.files == FilesOf(down.log)
            && up.mem.value.index == IndexOf(down.log) && up.mem.value.maxSeq == High(down.log)
            && SegmentsRep(up.mem.value.segments, down.log)
  {
    hide LogOk, IndexOf, High, FilesOf, Covers, Usable, Top;
    OpenRefines(down.files, down.log, down.tail, paths);
  }

  /** The log a crash leaves, and the one a completed append does. */
  lemma {:induction false} CrashLog(w: World, target: nat, r: Record, created: bool, written: nat)
    requires Inv(w) && Enabled(w, AppendCrash(r, created, written)) && target > 0
    ensures AppendStep(w, target, r).mem.Some? && AppendStep(w, target, r).log == AppendLog(w.log, target, r)
    ensures AppendCrashStep(w, target, r, created, written).log
         == if !created then w.log
            else if written < |Encode(true, r)| then OpenedLog(w.log, target, r.seqNo) else AppendLog(w.log, target, r)
  {
    hide LogOk, Serves, Usable, Holds, Encode, AppendLog, OpenedLog, Top;
  }

  /** Reopening a log that is the same, but for a file a torn rotation may have left empty. */
  lemma {:induction false} ReopenAfter(b: World, down: World, target: nat, q: u64, paths: seq<FileName>)
    requires Inv(b) && b.mem.Some? && Inv(down) && target > 0 && Enabled(down, Open(paths))
    requires down.log == b.log || down.log == OpenedLog(b.log, target, q)
    ensures var up := Step(down, target, Open(paths));
            && up.mem.Some? && Contents(up.log) == Contents(b.log) && up.log == down.log
            && up.mem.value.index == IndexOf(b.log) && (b.exact ==> up.mem.value.index == b.mem.value.index)
            && SameTable(b.mem.value.segments, up.mem.value.segments)
            && (up.mem.value.maxSeq == b.mem.value.maxSeq <==>
                  b.mem.value.maxSeq.None? || GroupLeft(b.mem.value.segments, 0))
            && (down.log == b.log ==> up.files == b.files)
  {
    hide Step, LogOk, IndexOf, High, FilesOf, Contents, Covers, Usable, Top, SegRep, SameTable, OpenedLog, IsListing;
    OpenedContents(b.log, target, q);
    Recovered(down, target, paths);
    var up := Step(down, target, Open(paths));
    SameTables(b.mem.value.segments, up.mem.value.segments, b.log, up.log);
    ReopenHighExact(b.mem.value.maxSeq, b.mem.value.segments, b.log);
  }

  /** Crashing at any byte of an append and reopening rebuilds index, byte counts and high water of the
      state before, minus the torn record. The index differs only by stale entries it had; the high
      water is the same exactly when it had none or a segment in its table holds a group. */
  lemma {:induction false} CrashReopen(w: World, target: nat, e: Event, paths: seq<FileName>)
    requires Inv(w) && target > 0 && w.mem.Some? && (e.Kill? || e.AppendCrash?) && Enabled(w, e)
    requires Enabled(Step(w, target, e), Open(paths))
    ensures var b := Lasting(w, target, e);
            var up := Step(Step(w, target, e), target, Open(paths));
            && b.mem.Some?
            && Contents(up.log) == Contents(b.log)
            && up.mem.value.index == IndexOf(b.log) && (b.exact ==> up.mem.value.index == b.mem.value.index)
            && SameTable(b.mem.value.segments, up.mem.value.segments)
            && (up.mem.value.maxSeq == b.mem.value.maxSeq <==>
                  b.mem.value.maxSeq.None? || GroupLeft(b.mem.value.segments, 0))
            && (Whole(e) || e.Kill? ==> up.files == b.files)
  {
    hide LogOk, Inv, AppendLog, OpenedLog, Encode, AppendStep, AppendCrashStep, OpenStep, Contents, IndexOf, SameTable,
         GroupLeft, Fits, IsListing, CollectStep, CollectCrashStep, OpenCrashStep;
    if e.AppendCrash? {
      CrashLog(w, target, e.r, e.created, e.written);
      ReopenAfter(Lasting(w, target, e), Step(w, target, e), target, e.r.seqNo, paths);
    } else {
      ReopenAfter(w, Step(w, target, e), target, 0, paths);
    }
  }

  // ---- what an empty file costs ----

  const SEGMENT_TARGET := 64 * 1024 * 1024

  /** A group that fills a segment file. */
  ghost predicate Fills(r: Record, target: nat) {
    r.frames != [] && Fits(r) && |Encode(true, r)| >= target > 0
  }

  function Copies(f: seq<byte>, n: nat): seq<seq<byte>> { if n == 0 then [] else [f] + Copies(f, n - 1) }

  lemma {:induction false} CopiesBody(f: seq<byte>, n: nat)
    requires |f| < U32
    ensures |Copies(f, n)| == n && FramesFit(Copies(f, n)) && |Body(Copies(f, n))| == n * (4 + |f|)
  {
    hide LittleEndian;
    if n > 0 {
      CopiesBody(f, n - 1);
      assert Copies(f, n)[1..] == Copies(f, n - 1);
    }
  }

  /** Sixty-four frames of one MiB are such a group. */
  lemma {:induction false} SomeGroupFills(f: seq<byte>, ms: u64)
    requires |f| == 1024 * 1024
    ensures Fills(Record(1, ms, Copies(f, 64)), SEGMENT_TARGET)
  {
    CopiesBody(f, 64);
    hide Copies, Body;
  }

  /** A store of one group alone, in a file it fills. */
  function OneStored(target: nat, one: Record): StoreState
    requires Usable(StoreState(EMPTY, map[]))
  {
    Appended(StoreState(EMPTY, map[]), target, one)
  }

  /** The files once a process died rotating for group `q`. */
  function TornRotation(target: nat, one: Record, q: u64): Files {
    EnsureWriter(OneStored(target, one), target, q).files
  }

  function TornLog(one: Record, q: u64): Log { [SegLog(one.seqNo, true, [one]), SegLog(q, true, [])] }

  lemma {:induction false} TornRotationReopens(target: nat, one: Record, q: u64, paths: seq<FileName>)
    requires Fills(one, target) && one.seqNo < q && IsListing(TornRotation(target, one, q), paths)
    ensures var s := Reopened(TornRotation(target, one, q), paths);
            Rep(s, TornLog(one, q)) && Usable(s) && s.mem.maxSeq == High(TornLog(one, q))
  {
    hide Encode, EncodeAll, Digits, FilesOf, IndexOf, High, LogOk, ScanAll, Fits;
    var log := [SegLog(one.seqNo, true, [one])];
    var s := OneStored(target, one);
    OneRecord(target, one);
    RepUsable(s, log);
    OpenedStore(s, log, target, q);
    assert log + [SegLog(q, true, [])] == TornLog(one, q);
    OpenRefines(TornRotation(target, one, q), TornLog(one, q), [], paths);
    RepUsable(Reopened(TornRotation(target, one, q), paths), TornLog(one, q));
  }

  /** A crash that rotates without writing leaves an empty file. Reopened, it has the placeholder
      `first_seq` 0 for as long as the process lives, and the collection that later removes the
      segment before it keeps that segment's index entries: group `one` is still listed though its file
      is gone. */
  lemma {:induction false} StaleEntryAfterTornRotation(
      target: nat, one: Record, q: u64, next: Record, cutoff: nat, paths: seq<FileName>)
    requires Fills(one, target) && one.seqNo < q < next.seqNo && Fits(next) && one.ms < cutoff
    requires IsListing(TornRotation(target, one, q), paths)
    ensures var reopened := Reopened(TornRotation(target, one, q), paths);
            && Usable(reopened)
            && var later := Appended(reopened, target, next);
               var t := Gc(later, cutoff, 0);
               && NameFor(one.seqNo) !in t.files && one.seqNo in t.mem.index
               && !Clean(later.mem.segments, Removed(later.mem.segments, cutoff, 0))
  {
    hide Encode, EncodeAll, Digits, FilesOf, IndexOf, High, LogOk, Reopened, Fits;
    TornRotationReopens(target, one, q, paths);
    StaleAfterAppend(Reopened(TornRotation(target, one, q), paths), target, one, q, next, cutoff);
  }

  /** The same empty file can cost the high water: once the segment before it is collected, the next
      open finds no group at all and restarts from none. */
  lemma {:induction false} HighWaterLost(
      target: nat, one: Record, q: u64, cutoff: nat, paths: seq<FileName>, again: seq<FileName>)
    requires Fills(one, target) && one.seqNo < q && one.ms < cutoff && IsListing(TornRotation(target, one, q), paths)
    requires IsListing(Gc(Reopened(TornRotation(target, one, q), paths), cutoff, 0).files, again)
    ensures var reopened := Reopened(TornRotation(target, one, q), paths);
            && reopened.mem.maxSeq == Some(one.seqNo)
            && Reopened(Gc(reopened, cutoff, 0).files, again).mem.maxSeq == None
  {
    hide Encode, EncodeAll, Digits, FilesOf, IndexOf, High, LogOk, Reopened, Gc, Contents, Fits;
    TornRotationReopens(target, one, q, paths);
    var reopened := Reopened(TornRotation(target, one, q), paths);
    var log := TornLog(one, q);
    OneThenEmpty(log, one);
    HeadGoes(reopened.mem.segments, log, cutoff);
    GcServes(reopened, log, cutoff, 0);
    ReopenedHigh(Gc(reopened, cutoff, 0).files, log[1..], again);
  }

  /** An expired first of two segments goes. */
  lemma {:induction false} HeadGoes(segs: seq<Segment>, log: Log, cutoff: nat)
    requires SegmentsRep(segs, log) && |log| == 2 && log[0].records != []
    requires log[0].records[|log[0].records| - 1].ms < cutoff
    ensures Removed(segs, cutoff, 0) == 1
  {
    assert SegRep(segs[0], log[0]);
    assert |segs[1..]| == 1;
  }

  lemma {:induction false} OneThenEmpty(log: Log, one: Record)
    requires |log| == 2 && log[0].records == [one] && log[1].records == []
    ensures High(log) == Some(one.seqNo) && High(log[1..]) == None
  {
    var first, rest := log[..1], log[1..];
    assert first == [log[0]] && first[..0] == [] && [one][..0] == [];
    assert HighRecords(None, [one]) == Some(one.seqNo);
    assert High(first) == Some(one.seqNo);
    assert rest == [log[1]] && rest[..0] == [];
  }

  lemma {:induction false} OneRecord(target: nat, one: Record)
    requires Fills(one, target)
    ensures Rep(OneStored(target, one), [SegLog(one.seqNo, true, [one])])
    ensures |EncodeAll(true, [one])| >= target
  {
    hide Encode, Fits;
    var zero := StoreState(EMPTY, map[]);
    assert Rep(zero, []);
    AppendRefines(zero, [], target, one);
    assert AppendLog([], target, one) == [SegLog(one.seqNo, true, [one])];
    assert [one][..0] == [];
  }

  lemma {:induction false} OpenedStore(s: StoreState, log: Log, target: nat, q: u64)
    requires Serves(s, log) && Usable(s) && Ascends(log, q) && RotateLog(log, target) && log != [] && target > 0
    ensures LogOk(log + [SegLog(q, true, [])])
    ensures Holds(EnsureWriter(s, target, q).files, log + [SegLog(q, true, [])], [])
  {
    OpenedOk(log, target, q);
    RotateAgrees(s, log, target);
    AppendNameFree(s, log, target, q);
    var after := log + [SegLog(q, true, [])];
    assert after[..|log|] == log;
    WholeFiles(after);
  }

  lemma {:induction false} StaleAfterAppend(s: StoreState, target: nat, one: Record, q: u64, next: Record, cutoff: nat)
    requires Fills(one, target) && one.seqNo < q < next.seqNo && Fits(next) && one.ms < cutoff
    requires Rep(s, TornLog(one, q)) && Usable(s) && s.mem.maxSeq == High(TornLog(one, q))
    ensures var later := Appended(s, target, next);
            var t := Gc(later, cutoff, 0);
            && NameFor(one.seqNo) !in t.files && one.seqNo in t.mem.index
            && !Clean(later.mem.segments, Removed(later.mem.segments, cutoff, 0))
  {
    hide Encode, EncodeAll, Digits, FilesOf, IndexOf, High, LogOk, Gc, Removed, Fits;
    var log, later := TornLog(one, q), Appended(s, target, next);
    var after := [log[0], SegLog(q, true, [next])];
    FillsEmpty(s, target, log, next, after);
    HighBelow(log);
    AppendRefines(s, log, target, next);
    StaleSegments(later, after, cutoff);
  }

  /** The next append goes into the empty file, whose first sequence stays the placeholder. */
  lemma {:induction false} FillsEmpty(s: StoreState, target: nat, log: Log, next: Record, after: Log)
    requires Rep(s, log) && Usable(s) && target > 0 && |log| == 2 && log[1].v2 && log[1].records == []
    requires after == [log[0], log[1].(records := [next])]
    ensures AppendLog(log, target, next) == after
    ensures Appended(s, target, next).mem.segments[1].firstSeq == 0
  {
    hide Encode, Digits, FilesOf, IndexOf, High, LogOk;
    RotateAgrees(s, log, target);
    assert !RotateLog(log, target);
    assert [] + [next] == [next];
    assert SegRep(s.mem.segments[1], log[1]);
  }

  lemma {:induction false} StaleSegments(s: StoreState, log: Log, cutoff: nat)
    requires Rep(s, log) && |log| == 2 && log[0].v2 && |log[0].records| == 1
    requires log[0].records[0].seqNo == log[0].first && log[0].records[0].ms < cutoff
    requires s.mem.segments[1].firstSeq == 0
    ensures var t := Gc(s, cutoff, 0);
            && NameFor(log[0].first) !in t.files && log[0].first in t.mem.index
            && !Clean(s.mem.segments, Removed(s.mem.segments, cutoff, 0))
  {
    hide Encode, EncodeAll, Digits, FilesOf, IndexOf, High, LogOk, Gc, Removed;
    var segs := s.mem.segments;
    HeadGoes(segs, log, cutoff);
    GcIndex(s, log, cutoff, 0);
    Present(log, 0, 0);
    GcFiles(s, log, cutoff, 0);
    assert SegRep(segs[0], log[0]);
    EmptySegment(segs[0], log[0]);
    assert KeepFrom(segs, 1) == 0;
    GoneFile(log);
    assert SeqAt(log, 0, 0) == log[0].first;
  }

  lemma {:induction false} GoneFile(log: Log)
    requires LogOk(log) && |log| == 2 && log[0].v2
    ensures NameFor(log[0].first) !in FilesOf(log[1..])
  {
    if NameFor(log[0].first) in FilesOf(log[1..]) {
      var i := FileIndex(log[1..], NameFor(log[0].first));
      NamesDiffer(log, 0, 1);
    }
  }
}
