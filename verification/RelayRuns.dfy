/** The publisher over the real store: every interleaving of its statements with what the store does
    on disk, down to the byte at which a write tears. The ascending sequences the store relies on are
    the ones the restart protocol produces, and a group read from disk is the group published. */
module RelayRuns {
  import opened Bytes
  import opened StoreFormat
  import opened GroupStore
  import opened StoreRefinement
  import opened StoreRecovery
  import opened StoreGc
  import P = Publisher
  import S = StoreRuns

  datatype System = System(p: P.World, s: S.World)

  /** The steps of the publisher that touch no file of the store, and those that do. A failed append
      that the process survives leaves the store as it was. */
  datatype Event =
    | Quiet(e: P.Event)
    | Boot(paths: seq<FileName>, window: seq<nat>) | BootCrash(paths: seq<FileName>, scanned: nat)
    | Store(ms: u64) | StoreFails | StoreCrash(ms: u64, created: bool, written: nat)
    | Collect(cutoff: nat, maxBytes: nat) | CollectCrash(cutoff: nat, maxBytes: nat, removed: nat)
    | Die

  /** The sequence a completed group or the final flush is stored under, at the points it is stored. */
  function Due(p: P.World): nat { P.InProgress(p) }

  predicate Storing(p: P.World) {
    p.pc.Rotated? || (p.pc == P.Ready && p.buffer != [])
  }

  ghost predicate CanStore(p: P.World, ms: u64) {
    Storing(p) && Due(p) < U64 && Fits(Record(Due(p), ms, p.buffer))
  }

  function Pending(p: P.World, ms: u64): Record
    requires Due(p) < U64
  {
    Record(Due(p), ms, p.buffer)
  }

  predicate IsQuiet(p: P.World, e: P.Event) {
    e.Reload? || e.Create? || e.PersistFirst? || e.Publish? || e.Rotate? || e.Persist? || (e.Flush? && p.buffer == [])
  }

  ghost predicate Enabled(y: System, e: Event) {
    match e
    case Quiet(e) => P.Enabled(y.p, e) && IsQuiet(y.p, e)
    case Boot(paths, window) =>
      y.p.pc == P.Down && IsListing(y.s.files, paths) && P.IsWindow(window, Contents(y.s.log))
    case BootCrash(paths, scanned) => y.p.pc == P.Down && IsListing(y.s.files, paths) && scanned <= |paths|
    case Store(ms) => CanStore(y.p, ms)
    case StoreFails => Storing(y.p)
    case StoreCrash(ms, _, written) => CanStore(y.p, ms) && written <= |Encode(true, Pending(y.p, ms))|
    case Collect(_, _) => y.p.pc == P.Ready
    case CollectCrash(cutoff, maxBytes, removed) =>
      y.p.pc == P.Ready && S.Enabled(y.s, S.CollectCrash(cutoff, maxBytes, removed))
    case Die => y.p.pc != P.Down
  }

  /** Every sequence an append was ever tried with is below this. */
  ghost function Above(p: P.World): int {
    match p.pc
    case Rotated(f) => f
    case Flushed => p.group + 1
    case Down => P.SeedValue(P.Seed(p.sidecar, P.MaxKey(p.store))) + 1
    case Reloading(_, _) => P.SeedValue(P.Seed(p.sidecar, P.MaxKey(p.store))) + 1
    case Loaded => P.SeedValue(P.Seed(p.sidecar, P.MaxKey(p.store))) + 1
    case Created => P.SeedValue(P.Seed(p.sidecar, P.MaxKey(p.store))) + 1
    case _ => p.group
  }

  /** The publisher's map is what the store on disk represents, the next append is above all, and from
      the open until the first group is made the store's `max_seq` is the map's greatest sequence. */
  ghost predicate Coupled(y: System) {
    && P.Safe(y.p) && S.Inv(y.s)
    && y.p.store == Contents(y.s.log) && (y.s.mem.Some? <==> y.p.pc != P.Down)
    && y.s.top < Above(y.p)
    && (y.p.pc == P.Created ==> Above(y.p) <= y.p.group)
    && (y.p.pc.Reloading? || y.p.pc == P.Loaded ==> y.s.mem.value.maxSeq == P.MaxKey(y.p.store))
  }

  /** The publisher's own step at a store: the map gains the group, the buffer is flushed or saved. */
  function StoreEvent(p: P.World, ok: bool): P.Event {
    if p.pc.Rotated? then P.Save(ok) else P.Flush(ok)
  }

  ghost function Stored(p: P.World, size: nat, ok: bool): P.World
    requires Storing(p)
  {
    P.Step(p, size, StoreEvent(p, ok))
  }

  ghost predicate Whole(p: P.World, ms: u64, created: bool, written: nat)
    requires Due(p) < U64
  {
    created && written == |Encode(true, Pending(p, ms))|
  }

  /** The first sequence of the head file once `n` files are removed. */
  function HeadOf(log: Log, n: nat): nat { if n < |log| then log[n].first else 0 }

  /** An append the publisher is about to make keeps the store's rule. */
  lemma {:induction false} PendingEnabled(y: System, ms: u64)
    requires Coupled(y) && CanStore(y.p, ms)
    ensures y.s.mem.Some? && Pending(y.p, ms).seqNo > y.s.top
  {
    hide S.Inv, Contents, P.Consistent, P.Archived, P.Past, P.AtMost, P.Own, P.InReload, Fits;
  }

  ghost function Stores(y: System, target: nat, size: nat, ms: u64): System
    requires Coupled(y) && Enabled(y, Store(ms)) && target > 0
  {
    PendingEnabled(y, ms);
    System(Stored(y.p, size, true), S.Step(y.s, target, S.Append(Pending(y.p, ms))))
  }

  /** Dying inside an append: the group is stored if its last byte made it. */
  ghost function StoresAndDies(y: System, target: nat, size: nat, ms: u64, created: bool, written: nat): System
    requires Coupled(y) && Enabled(y, StoreCrash(ms, created, written)) && target > 0
  {
    PendingEnabled(y, ms);
    var p := if Whole(y.p, ms, created, written) then Stored(y.p, size, true) else y.p;
    System(Dead(p), S.Step(y.s, target, S.AppendCrash(Pending(y.p, ms), created, written)))
  }

  function Dead(p: P.World): P.World {
    p.(pc := P.Down, cuts := P.CutsAtCrash(p))
  }

  /** The publisher writes above every file the store has. */
  lemma {:induction false} HeadBelowGroup(y: System, n: nat)
    requires Coupled(y) && y.p.pc == P.Ready
    ensures HeadOf(y.s.log, n) <= y.p.group
  {
    hide P.Safe, Contents, Serves, Usable, Holds;
    var log := y.s.log;
    if n < |log| {
      SegmentOk(log, n);
      SegmentOk(log, |log| - 1);
      if n < |log| - 1 { TopsAscend(log, n, |log| - 1); }
    }
  }

  ghost function Collects(y: System, target: nat, size: nat, e: S.Event): System
    requires Coupled(y) && y.p.pc == P.Ready && S.Enabled(y.s, e) && target > 0
  {
    HeadBelowGroup(y, S.Heads(y.s, e));
    System(P.Step(y.p, size, P.Collect(HeadOf(y.s.log, S.Heads(y.s, e)))), S.Step(y.s, target, e))
  }

  ghost function Step(y: System, target: nat, size: nat, e: Event): System
    requires Coupled(y) && Enabled(y, e) && target > 0
  {
    match e
    case Quiet(e) => System(P.Step(y.p, size, e), y.s)
    case Boot(paths, window) => System(P.Booted(y.p, window), S.Step(y.s, target, S.Open(paths)))
    case BootCrash(paths, scanned) => System(y.p, S.Step(y.s, target, S.OpenCrash(paths, scanned)))
    case Store(ms) => Stores(y, target, size, ms)
    case StoreFails => System(Stored(y.p, size, false), y.s)
    case StoreCrash(ms, created, written) => StoresAndDies(y, target, size, ms, created, written)
    case Collect(cutoff, maxBytes) => Collects(y, target, size, S.Collect(cutoff, maxBytes))
    case CollectCrash(cutoff, maxBytes, removed) =>
      var z := Collects(y, target, size, S.CollectCrash(cutoff, maxBytes, removed));
      System(Dead(z.p), z.s)
    case Die => System(Dead(y.p), S.Step(y.s, target, S.Kill))
  }

  ghost predicate QuietOk(p: P.World, v: P.World) {
    && v.store == p.store && v.pc != P.Down && p.pc != P.Down && Above(p) <= Above(v)
    && (v.pc == P.Created ==> Above(v) <= v.group)
    && (v.pc.Reloading? || v.pc == P.Loaded ==> p.pc.Reloading?)
  }

  lemma {:induction false} ReloadAbove(p: P.World, size: nat)
    requires P.Safe(p) && P.Enabled(p, P.Reload)
    ensures QuietOk(p, P.Step(p, size, P.Reload))
  {
    P.ReloadTurn(p);
    hide P.Safe, P.Reloaded, P.Seed, P.SeedValue;
  }

  /** A quiet step leaves the map alone and keeps the next append above what came before. */
  lemma {:induction false} QuietAbove(p: P.World, size: nat, e: P.Event)
    requires P.Safe(p) && P.Enabled(p, e) && (p.pc == P.Created ==> Above(p) <= p.group)
    requires IsQuiet(p, e)
    ensures QuietOk(p, P.Step(p, size, e))
  {
    hide P.Consistent, P.Archived, P.Past, P.AtMost, P.Own, P.InReload, P.Reloaded, P.CutsAtCrash, P.Live, P.Put;
    if e.Reload? { ReloadAbove(p, size); }
  }

  /** After a death the next start is above the sidecar, and so above whatever was being stored. */
  lemma {:induction false} DeadAbove(p: P.World)
    requires P.Safe(p) && P.Running(p.pc)
    ensures p.sidecar.Some? && p.sidecar.value < Above(Dead(p)) && Above(p) <= p.sidecar.value + 1
    ensures Storing(p) ==> Due(p) < Above(Dead(p))
  {
    hide P.Consistent, P.Archived, P.Past, P.AtMost, P.Own, P.InReload, P.CutsAtCrash, P.Live;
  }

  lemma {:induction false} QuietKeeps(y: System, size: nat, e: P.Event)
    requires Coupled(y) && Enabled(y, Quiet(e))
    ensures Coupled(System(P.Step(y.p, size, e), y.s))
  {
    QuietAbove(y.p, size, e);
    hide S.Inv, Contents, P.Safe, P.Step, Above;
    P.StepSafe(y.p, size, e);
  }

  lemma {:induction false} StoreKeeps(y: System, target: nat, size: nat, ms: u64)
    requires Coupled(y) && Enabled(y, Store(ms)) && target > 0
    ensures Coupled(Step(y, target, size, Store(ms)))
  {
    hide S.Inv, Contents, P.Consistent, P.Archived, P.Past, P.AtMost, P.Own;
    P.StepSafe(y.p, size, StoreEvent(y.p, true));
    S.StepContents(y.s, target, S.Append(Pending(y.p, ms)));
  }

  lemma {:induction false} FailKeeps(y: System, target: nat, size: nat)
    requires Coupled(y) && Enabled(y, StoreFails) && target > 0
    ensures Coupled(Step(y, target, size, StoreFails))
  {
    hide S.Inv, Contents, P.Consistent, P.Archived, P.Past, P.AtMost, P.Own;
    P.StepSafe(y.p, size, StoreEvent(y.p, false));
  }

  /** Dying inside an append: the sidecar already names the group, so its sequence stays used up
      whether or not the record made it. */
  lemma {:induction false} StoreCrashKeeps(
      y: System, target: nat, size: nat, ms: u64, created: bool, written: nat)
    requires Coupled(y) && Enabled(y, StoreCrash(ms, created, written)) && target > 0
    ensures Coupled(Step(y, target, size, StoreCrash(ms, created, written)))
  {
    hide S.Inv, Contents, P.Safe, P.Seed, P.SeedValue, Above, P.CutsAtCrash, Encode, P.InProgress;
    var whole := Whole(y.p, ms, created, written);
    DyingPublisher(y.p, size, whole);
    PendingEnabled(y, ms);
    S.StepContents(y.s, target, S.AppendCrash(Pending(y.p, ms), created, written));
  }

  lemma {:induction false} DyingPublisher(p: P.World, size: nat, whole: bool)
    requires P.Safe(p) && Storing(p)
    ensures var v := Dead(if whole then Stored(p, size, true) else p);
            && P.Safe(v) && v.pc == P.Down && Due(p) < Above(v)
            && v.store == if whole then p.store[Due(p) := p.buffer] else p.store
  {
    SidecarOfDue(p);
    StoredShape(p, size);
    hide P.Safe, P.Seed, P.SeedValue, P.CutsAtCrash, Above, P.InProgress;
    if whole {
      P.StepSafe(p, size, StoreEvent(p, true));
      DeadIsCrash(Stored(p, size, true), size);
      DeadAbove(Stored(p, size, true));
    } else {
      DeadIsCrash(p, size);
      DeadAbove(p);
    }
  }

  lemma {:induction false} DeadIsCrash(p: P.World, size: nat)
    requires P.Safe(p) && P.Running(p.pc)
    ensures P.Safe(Dead(p)) && Dead(p) == P.Step(p, size, P.Crash)
  {
    P.StepSafe(p, size, P.Crash);
  }

  lemma {:induction false} SidecarOfDue(p: P.World)
    requires P.Safe(p) && Storing(p)
    ensures p.sidecar == Some(Due(p))
  {
    hide P.Consistent, P.Archived, P.Past, P.AtMost, P.Own, P.InReload, P.Live;
  }

  lemma {:induction false} StoredShape(p: P.World, size: nat)
    requires Storing(p)
    ensures var v := Stored(p, size, true);
            && P.Running(v.pc) && v.sidecar == p.sidecar && v.store == p.store[Due(p) := p.buffer]
  {
  }

  /** What the scan recovers as `max_seq` is the greatest sequence of the map. */
  lemma {:induction false} HighIsMaxKey(log: Log)
    ensures High(log) == P.MaxKey(Contents(log))
  {
    HighIsGreatest(log);
  }

  lemma {:induction false} BootKeeps(y: System, target: nat, size: nat, paths: seq<FileName>, window: seq<nat>)
    requires Coupled(y) && Enabled(y, Boot(paths, window)) && target > 0
    ensures Coupled(Step(y, target, size, Boot(paths, window)))
  {
    hide Contents, LogOk, P.Consistent, P.Archived, P.Past, P.AtMost, P.Own, P.InRun, P.InReload, High, Serves, Usable;
    P.StepSafe(y.p, size, P.Boot(window));
    S.StepContents(y.s, target, S.Open(paths));
    OpenRefines(y.s.files, y.s.log, y.s.tail, paths);
    HighIsMaxKey(y.s.log);
  }

  lemma {:induction false} BootCrashKeeps(y: System, target: nat, size: nat, paths: seq<FileName>, scanned: nat)
    requires Coupled(y) && Enabled(y, BootCrash(paths, scanned)) && target > 0
    ensures Coupled(Step(y, target, size, BootCrash(paths, scanned)))
  {
    hide S.Inv, Contents, P.Safe;
    S.StepContents(y.s, target, S.OpenCrash(paths, scanned));
  }

  lemma {:induction false} CollectKeeps(y: System, target: nat, size: nat, cutoff: nat, maxBytes: nat)
    requires Coupled(y) && Enabled(y, Collect(cutoff, maxBytes)) && target > 0
    ensures Coupled(Step(y, target, size, Collect(cutoff, maxBytes)))
  {
    hide S.Inv, Contents, P.Consistent, P.Archived, P.Past, P.AtMost, P.Own, From;
    var e := S.Collect(cutoff, maxBytes);
    S.StepContents(y.s, target, e);
    var n := S.Heads(y.s, e);
    LeftOver(y.s.log, n);
    HeadBelowGroup(y, n);
    P.StepSafe(y.p, size, P.Collect(HeadOf(y.s.log, n)));
  }

  lemma {:induction false} CollectCrashKeeps(
      y: System, target: nat, size: nat, cutoff: nat, maxBytes: nat, removed: nat)
    requires Coupled(y) && Enabled(y, CollectCrash(cutoff, maxBytes, removed)) && target > 0
    ensures Coupled(Step(y, target, size, CollectCrash(cutoff, maxBytes, removed)))
  {
    hide S.Inv, Contents, P.Safe, P.Seed, P.SeedValue, From, P.CutsAtCrash, P.Running;
    var e := S.CollectCrash(cutoff, maxBytes, removed);
    S.StepContents(y.s, target, e);
    var z := Collects(y, target, size, e);
    LeftOver(y.s.log, S.Heads(y.s, e));
    HeadBelowGroup(y, S.Heads(y.s, e));
    P.StepSafe(y.p, size, P.Collect(HeadOf(y.s.log, S.Heads(y.s, e))));
    DyingWhileReady(z.p, size);
  }

  lemma {:induction false} DyingWhileReady(p: P.World, size: nat)
    requires P.Safe(p) && p.pc == P.Ready
    ensures P.Safe(Dead(p)) && Above(p) <= Above(Dead(p))
  {
    DeadIsCrash(p, size);
    DeadAbove(p);
  }

  /** What a collection leaves of the log's map is what the publisher's cut leaves of it. */
  lemma {:induction false} LeftOver(log: Log, n: nat)
    requires log != [] ==> n < |log|
    ensures P.NotBelow(Contents(log), HeadOf(log, n)) == S.Without(log, n)
  {
  }

  lemma {:induction false} DieKeeps(y: System, target: nat, size: nat)
    requires Coupled(y) && Enabled(y, Die) && target > 0
    ensures Coupled(Step(y, target, size, Die))
  {
    hide S.Inv, Contents, P.Consistent, P.Archived, P.Past, P.AtMost, P.Own, P.InReload, P.CutsAtCrash;
    P.StepSafe(y.p, size, P.Crash);
    S.StepContents(y.s, target, S.Kill);
  }

  lemma {:induction false} StepKeeps(y: System, target: nat, size: nat, e: Event)
    requires Coupled(y) && Enabled(y, e) && target > 0
    ensures Coupled(Step(y, target, size, e))
  {
    hide Coupled, P.Step, S.Step, Enabled;
    match e {
      case Quiet(q) => QuietKeeps(y, size, q);
      case Boot(paths, window) => BootKeeps(y, target, size, paths, window);
      case BootCrash(paths, scanned) => BootCrashKeeps(y, target, size, paths, scanned);
      case Store(ms) => StoreKeeps(y, target, size, ms);
      case StoreFails => FailKeeps(y, target, size);
      case StoreCrash(ms, created, written) => StoreCrashKeeps(y, target, size, ms, created, written);
      case Collect(cutoff, maxBytes) => CollectKeeps(y, target, size, cutoff, maxBytes);
      case CollectCrash(cutoff, maxBytes, removed) => CollectCrashKeeps(y, target, size, cutoff, maxBytes, removed);
      case Die => DieKeeps(y, target, size);
    }
  }

  ghost predicate Legal(y: System, target: nat, size: nat, es: seq<Event>)
    requires Coupled(y) && target > 0
    decreases es
  {
    es == [] || (Enabled(y, es[0]) &&
                 (StepKeeps(y, target, size, es[0]); Legal(Step(y, target, size, es[0]), target, size, es[1..])))
  }

  ghost function Run(y: System, target: nat, size: nat, es: seq<Event>): (z: System)
    requires Coupled(y) && target > 0 && Legal(y, target, size, es)
    ensures Coupled(z)
    decreases es
  {
    if es == [] then y else
      StepKeeps(y, target, size, es[0]);
      Run(Step(y, target, size, es[0]), target, size, es[1..])
  }

  /** Nothing on disk and nothing published yet. */
  function Fresh(): System {
    System(P.World(P.Down, None, map[], 0, None, 0, [], 0, map[], map[], map[], 0, [], {}, 0),
           S.World(None, map[], [], [], -1, true))
  }

  /** A first boot starts coupled. */
  lemma {:induction false} FreshCoupled()
    ensures Coupled(Fresh())
  {
  }

  /** End to end: after any history of starts, rotations, collections, failed appends and crashes at
      any byte, every group the publisher's store has is read back from disk in full, and it is what each
      run that published that sequence put on it, up to where that run died reloading it. Any other
      sequence is not stored, unless a collection since the open left its entry behind. */
  lemma {:induction false} DiskReadsWhatWasPublished(
      start: System, target: nat, size: nat, es: seq<Event>, run: nat, q: nat)
    requires target > 0 && Coupled(start) && Legal(start, target, size, es)
    requires Run(start, target, size, es).s.mem.Some?
    ensures var y := Run(start, target, size, es);
            && Usable(S.Up(y.s))
            && (q in y.p.store ==> ReadGroup(S.Up(y.s), q) == Frames(y.p.store[q]))
            && (q !in y.p.store && y.s.exact ==> ReadGroup(S.Up(y.s), q) == NotStored)
            && (P.Carries(y.p, run, q) && q in y.p.store ==>
                  && y.p.pubs[P.Key(run, q)] <= y.p.store[q]
                  && (y.p.pubs[P.Key(run, q)] == y.p.store[q] <==> P.Reached(y.p, run, q).None?))
  {
    hide Run, Legal, Contents, LogOk, Serves, Usable, IndexOf, P.Reached, P.AtMost, P.InRun, P.InReload, ReadGroup;
    var y := Run(start, target, size, es);
    ReadRefines(S.Up(y.s), y.s.log, q);
    if P.Carries(y.p, run, q) { assert P.Agrees(y.p, run, q); }
  }

  /** What the store reads for groups `a` up to `b`, end to end. */
  function DiskConcat(s: StoreState, a: nat, b: nat): seq<P.Frame>
    requires Usable(s)
    decreases b
  {
    if b <= a then [] else
      DiskConcat(s, a, b - 1) + match ReadGroup(s, b - 1) case Frames(frames) => frames case _ => []
  }

  /** Where the stored part of this run begins. */
  function Cut(p: P.World): nat { Max(p.first, p.head) }

  lemma {:induction false} StepConserved(y: System, target: nat, size: nat, e: Event)
    requires Coupled(y) && Enabled(y, e) && target > 0 && P.Conserved(y.p, size)
    ensures P.Conserved(Step(y, target, size, e).p, size)
  {
    hide P.Safe, S.Inv, Contents, P.Step, S.Step, P.CutsAtCrash, Fits, P.IsWindow, P.Booted, Above;
    match e {
      case Quiet(q) => P.StepConserved(y.p, size, q);
      case Boot(_, window) => BootConserved(y.p, size, window);
      case BootCrash(_, _) =>
      case Store(ms) => P.StepConserved(y.p, size, StoreEvent(y.p, true));
      case StoreFails => P.StepConserved(y.p, size, StoreEvent(y.p, false));
      case StoreCrash(_, _, _) =>
      case Collect(cutoff, maxBytes) => CollectConserved(y, size, S.Heads(y.s, S.Collect(cutoff, maxBytes)));
      case CollectCrash(_, _, _) =>
      case Die =>
    }
  }

  lemma {:induction false} BootConserved(p: P.World, size: nat, window: seq<nat>)
    requires P.Safe(p) && P.Conserved(p, size) && p.pc == P.Down && P.IsWindow(window, p.store)
    ensures P.Conserved(P.Booted(p, window), size)
  {
    hide P.Safe, P.Conserved;
    P.StepConserved(p, size, P.Boot(window));
  }

  lemma {:induction false} CollectConserved(y: System, size: nat, n: nat)
    requires Coupled(y) && y.p.pc == P.Ready && P.Conserved(y.p, size)
    ensures HeadOf(y.s.log, n) <= y.p.group
    ensures P.Conserved(P.Step(y.p, size, P.Collect(HeadOf(y.s.log, n))), size)
  {
    hide P.Safe, S.Inv, P.Conserved, Contents, P.Step, HeadOf, Above;
    HeadBelowGroup(y, n);
    P.StepConserved(y.p, size, P.Collect(HeadOf(y.s.log, n)));
  }

  lemma {:induction false} RunConserved(y: System, target: nat, size: nat, es: seq<Event>)
    requires target > 0 && Coupled(y) && Legal(y, target, size, es) && P.Conserved(y.p, size)
    ensures P.Conserved(Run(y, target, size, es).p, size)
    decreases es
  {
    hide Coupled, Step, Enabled, P.Conserved;
    if es != [] {
      StepKeeps(y, target, size, es[0]);
      StepConserved(y, target, size, es[0]);
      RunConserved(Step(y, target, size, es[0]), target, size, es[1..]);
    }
  }

  lemma {:induction false} DiskIsStore(y: System, a: nat, b: nat)
    requires Coupled(y) && y.s.mem.Some?
    requires forall s :: a <= s < b ==> s in y.p.store
    ensures Usable(S.Up(y.s)) && DiskConcat(S.Up(y.s), a, b) == P.StoreConcat(y.p.store, a, b)
    decreases b
  {
    hide P.Safe, Contents, LogOk, Serves, Usable, IndexOf, ReadGroup, Above;
    if a < b {
      ReadRefines(S.Up(y.s), y.s.log, b - 1);
      DiskIsStore(y, a, b - 1);
    }
  }

  /** Leaving out groups that are not stored. */
  lemma {:induction false} StoreConcatFrom(store: P.Groups, a: nat, cut: nat, b: nat)
    requires a <= cut && forall s :: a <= s < cut && s < b ==> s !in store
    ensures P.StoreConcat(store, a, b) == P.StoreConcat(store, cut, b)
    decreases b
  {
    if a < b { StoreConcatFrom(store, a, cut, b - 1); }
  }

  /** End to end: while a run lives every group it has rotated, but those refused and those collected,
      reads back from disk as it was published. With nothing refused, what the disk has of the run and
      then the buffer are all frames it was given but the oldest, in the collected groups. */
  lemma {:induction false} DiskHoldsTheRun(start: System, target: nat, size: nat, es: seq<Event>, q: nat)
    requires target > 0 && Coupled(start) && Legal(start, target, size, es) && P.Conserved(start.p, size)
    requires P.Running(Run(start, target, size, es).p.pc)
    ensures var y := Run(start, target, size, es);
            && y.s.mem.Some? && Usable(S.Up(y.s))
            && (y.p.first <= q < P.InProgress(y.p) && q >= y.p.head && q !in y.p.refused ==>
                  ReadGroup(S.Up(y.s), q) == Frames(P.Live(y.p, q)) && |P.Live(y.p, q)| == P.GroupSize(size))
            && (y.p.refused == {} ==>
                  && P.Dropped(y.p, size) <= |y.p.frames|
                  && y.p.frames[P.Dropped(y.p, size)..]
                     == DiskConcat(S.Up(y.s), Cut(y.p), P.InProgress(y.p)) + y.p.buffer)
  {
    RunConserved(start, target, size, es);
    hide Run, Legal, Contents, LogOk, Serves, IndexOf, P.Safe, Usable, ReadGroup, P.Concat, P.StoreConcat, DiskConcat;
    var y := Run(start, target, size, es);
    P.NothingAbove(y.p, size);
    ReadRefines(S.Up(y.s), y.s.log, q);
    if y.p.refused == {} { DiskIsRest(y, size, P.InProgress(y.p)); }
  }

  lemma {:induction false} DiskIsRest(y: System, size: nat, end: nat)
    requires Coupled(y) && P.Conserved(y.p, size) && P.Running(y.p.pc) && y.p.refused == {} && end == P.InProgress(y.p)
    ensures Usable(S.Up(y.s)) && P.Dropped(y.p, size) <= |y.p.frames|
    ensures y.p.frames[P.Dropped(y.p, size)..] == DiskConcat(S.Up(y.s), Cut(y.p), end) + y.p.buffer
  {
    P.StoreHoldsAll(y.p, size, end);
    hide Contents, S.Inv, P.Safe, Usable, P.Concat, P.StoreConcat, DiskConcat, Above, P.Dropped, P.GroupSize, P.Live;
    StoreConcatFrom(y.p.store, y.p.first, Cut(y.p), end);
    DiskIsStore(y, Cut(y.p), end);
  }

  /** The first group of a run, seeded as the code does from the `max_seq` that opening the store
      recovered, is above every sequence any run put a frame on and every one the store ever held. */
  lemma {:induction false} FirstGroupFromStore(start: System, target: nat, size: nat, es: seq<Event>, r: nat, q: nat)
    requires target > 0 && Coupled(start) && Legal(start, target, size, es)
    requires Run(start, target, size, es).p.pc == P.Loaded
    ensures var y := Run(start, target, size, es);
            && y.s.mem.Some?
            && var made := P.FirstGroup(y.p, y.s.mem.value.maxSeq);
               && made == P.Step(y.p, size, P.Create)
               && (P.Carries(y.p, r, q) || q in y.p.archive || q in Contents(y.s.log) ==> q < made.group)
  {
    hide Run, Legal, Contents, S.Inv;
    var y := Run(start, target, size, es);
    P.AboveAll(y.p, r, q);
  }

  /** The publisher keeps the store's one rule: every append it makes is above every sequence any
      earlier append, complete or torn, was tried with. */
  lemma {:induction false} AppendsAlwaysAscend(start: System, target: nat, size: nat, es: seq<Event>, ms: u64)
    requires target > 0 && Coupled(start) && Legal(start, target, size, es)
    requires CanStore(Run(start, target, size, es).p, ms)
    ensures var y := Run(start, target, size, es); S.Enabled(y.s, S.Append(Pending(y.p, ms)))
  {
    hide Run, Legal, Contents, S.Inv, P.Consistent, P.Archived, P.Past, P.AtMost;
  }
}
