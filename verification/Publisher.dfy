/** The frame publisher and its restart protocol (main.rs): group sequences are never reused for
    different content across runs and crashes, and rotation loses no frame. The store is the plain
    map it refines (`StoreRuns`). */
module Publisher {
  import opened Bytes

  type Frame = seq<byte>
  type Groups = map<nat, seq<Frame>>

  /** A group as one run of the process published it. */
  datatype Key = Key(run: nat, seqNo: nat)

  /** Where the process is, between two statements that leave a trace outside its memory. */
  datatype Pc =
    | Down
    | Reloading(window: seq<nat>, written: Option<nat>)
                              // groups still to reload, and frames of the first one already written
    | Loaded                  // replay window reloaded
    | Created                 // first group created, its sequence not yet in the sidecar
    | Ready                   // between writes
    | Full                    // group_size reached, next group not yet created
    | Rotated(finished: nat)  // next group created, old one not yet stored
    | Saved                   // store append returned, new sequence not yet in the sidecar
    | Flushed                 // final flush returned

  /** `sidecar` and `store` survive a crash. The rest is memory and history: everything ever published,
      everything ever stored, how far a run got in a reload it died in, what this run was given, its
      first group, the groups of it that the store refused, and the sequence its collections have cut the
      store at. */
  datatype World = World(
    pc: Pc, sidecar: Option<nat>, store: Groups,
    group: nat, trackMax: Option<nat>, count: nat, buffer: seq<Frame>,
    run: nat, pubs: map<Key, seq<Frame>>, archive: Groups, cuts: map<Key, nat>,
    first: nat, frames: seq<Frame>, refused: set<nat>, head: nat)

  datatype Event =
    | Boot(window: seq<nat>) | Reload | Create | PersistFirst
    | Publish(b: Frame) | Rotate | Save(ok: bool) | Persist
    | Flush(ok: bool) | Stop | Collect(head: nat) | Crash

  lemma {:induction false} GreatestExists(s: set<nat>)
    requires s != {}
    ensures exists m :: m in s && forall x :: x in s ==> x <= m
  {
    var m :| m in s;
    if s != {m} {
      GreatestExists(s - {m});
      var n :| n in s - {m} && forall x :: x in s - {m} ==> x <= n;
      forall x | x in s ensures x <= Max(m, n) { assert x == m || x in s - {m}; }
      assert Max(m, n) in s;
    }
  }

  /** `GroupStore::max_seq` right after opening. */
  ghost function MaxKey(store: Groups): (m: Option<nat>)
    ensures m.None? <==> store == map[]
    ensures m.Some? ==> m.value in store && forall s :: s in store ==> s <= m.value
  {
    if store.Keys == {} then
      assert store == map[];
      None
    else
      GreatestExists(store.Keys);
      var m :| m in store.Keys && forall s :: s in store.Keys ==> s <= m;
      Some(m)
  }

  /** `append_group`: one past the largest sequence on the track. */
  function NextGroup(trackMax: Option<nat>): nat {
    if trackMax.None? then 0 else trackMax.value + 1
  }

  /** The previous high water (main.rs `build_lite_publisher`). */
  function Seed(sidecar: Option<nat>, storeMax: Option<nat>): Option<nat> {
    match sidecar
    case Some(f) => Some(if storeMax.None? then f else Max(f, storeMax.value))
    case None => if storeMax.None? then None else Some(storeMax.value + 1)
  }

  /** Stored groups in ascending order, as the index lists those newer than the cutoff. */
  predicate IsWindow(window: seq<nat>, store: Groups) {
    && (forall i :: 0 <= i < |window| ==> window[i] in store)
    && (forall i, j :: 0 <= i < j < |window| ==> window[i] < window[j])
  }

  ghost predicate Enabled(w: World, e: Event) {
    match e
    case Boot(window) => w.pc == Down && IsWindow(window, w.store)
    case Reload => w.pc.Reloading? && IsWindow(w.pc.window, w.store)
    case Create => w.pc == Loaded
    case PersistFirst => w.pc == Created
    case Publish(_) => w.pc == Ready
    case Rotate => w.pc == Full
    case Save(_) => w.pc.Rotated?
    case Persist => w.pc == Saved
    case Flush(_) => w.pc == Ready
    case Stop => w.pc == Flushed
    case Collect(head) => w.pc == Ready && head <= w.group
    case Crash => w.pc != Down
  }

  /** What this run has on group `s`. */
  function Live(w: World, s: nat): seq<Frame> {
    if Key(w.run, s) in w.pubs then w.pubs[Key(w.run, s)] else []
  }

  function Put(w: World, s: nat, frames: seq<Frame>): map<Key, seq<Frame>> {
    w.pubs[Key(w.run, s) := frames]
  }

  /** `create_group` under an explicit sequence. */
  function Widen(trackMax: Option<nat>, s: nat): Option<nat> {
    Some(if trackMax.Some? && trackMax.value > s then trackMax.value else s)
  }

  /** One step of the reload: the next group is created, its next frame written, or it is finished. */
  function Reloaded(w: World): World
    requires w.pc.Reloading? && IsWindow(w.pc.window, w.store)
  {
    if w.pc.window == [] then w.(pc := Loaded) else
      var s := w.pc.window[0];
      match w.pc.written
      case None => w.(pc := Reloading(w.pc.window, Some(0)), pubs := Put(w, s, []), trackMax := Widen(w.trackMax, s))
      case Some(n) =>
        if n < |w.store[s]|
        then w.(pc := Reloading(w.pc.window, Some(n + 1)), pubs := Put(w, s, Live(w, s) + [w.store[s][n]]))
        else w.(pc := Reloading(w.pc.window[1..], None))
  }

  /** Run `r` is reloading `s` and has not written all of it. */
  predicate Short(w: World, r: nat, s: nat) {
    && r == w.run && w.pc.Reloading? && w.pc.window != [] && w.pc.window[0] == s && w.pc.written.Some?
    && s in w.store && w.pc.written.value < |w.store[s]|
  }

  /** Dying there leaves the group cut short in this run. */
  function CutsAtCrash(w: World): map<Key, nat> {
    if w.pc.Reloading? && w.pc.window != [] && Short(w, w.run, w.pc.window[0])
    then w.cuts[Key(w.run, w.pc.window[0]) := w.pc.written.value]
    else w.cuts
  }

  function Booted(w: World, window: seq<nat>): World {
    w.(pc := Reloading(window, None), run := w.run + 1, frames := [], refused := {}, head := 0,
       buffer := [], count := 0, trackMax := None)
  }

  /** The run's first group, above the previous high water. */
  function FirstGroup(w: World, storeMax: Option<nat>): World {
    var seed := Seed(w.sidecar, storeMax);
    var g := if seed.Some? then seed.value + 1 else NextGroup(w.trackMax);
    w.(pc := Created, group := g, trackMax := Some(g), pubs := Put(w, g, []), first := g)
  }

  function Published(w: World, size: nat, b: Frame): World {
    w.(pc := if w.count + 1 >= size then Full else Ready, pubs := Put(w, w.group, Live(w, w.group) + [b]),
       count := w.count + 1, buffer := w.buffer + [b], frames := w.frames + [b])
  }

  function NextOpened(w: World): World {
    var g := NextGroup(w.trackMax);
    w.(pc := Rotated(w.group), group := g, trackMax := Some(g), pubs := Put(w, g, []), count := 0)
  }

  function Saving(w: World, f: nat, ok: bool): World {
    if ok then w.(pc := Saved, store := w.store[f := w.buffer], archive := w.archive[f := w.buffer], buffer := [])
    else w.(pc := Saved, refused := w.refused + {f}, buffer := [])
  }

  /** A collection cuts the store at the first sequence of the head file it leaves. */
  function NotBelow(store: Groups, head: nat): Groups {
    map s | s in store && s >= head :: store[s]
  }

  function Flushing(w: World, ok: bool): World {
    if w.buffer == [] then w.(pc := Flushed)
    else if ok then
      w.(pc := Flushed, store := w.store[w.group := w.buffer], archive := w.archive[w.group := w.buffer])
    else w.(pc := Flushed, refused := w.refused + {w.group})
  }

  ghost function Step(w: World, size: nat, e: Event): World
    requires Enabled(w, e)
  {
    match e
    case Boot(window) => Booted(w, window)
    case Reload => Reloaded(w)
    case Create => FirstGroup(w, MaxKey(w.store))
    case PersistFirst => w.(pc := Ready, sidecar := Some(w.group))
    case Publish(b) => Published(w, size, b)
    case Rotate => NextOpened(w)
    case Save(ok) => Saving(w, w.pc.finished, ok)
    case Persist => w.(pc := Ready, sidecar := Some(w.group))
    case Flush(ok) => Flushing(w, ok)
    case Stop => w.(pc := Down)
    case Collect(head) => w.(store := NotBelow(w.store, head), head := Max(w.head, head))
    case Crash => w.(pc := Down, cuts := CutsAtCrash(w))
  }

  // ---- sequences are never reused ----

  /** Run `r` put frames on group `s`. */
  predicate Carries(w: World, r: nat, s: nat) { Key(r, s) in w.pubs && w.pubs[Key(r, s)] != [] }

  /** How many frames run `r` reloaded of `s` before it died there, or has so far; None when it has, or
      published, all of them. */
  function Reached(w: World, r: nat, s: nat): Option<nat> {
    if Key(r, s) in w.cuts then Some(w.cuts[Key(r, s)])
    else if Short(w, r, s) then w.pc.written
    else None
  }

  /** What a run has on a sequence is the group once stored under it, up to where its reload got; a
      sequence never stored belongs to one run. */
  ghost predicate Agrees(w: World, r: nat, s: nat)
    requires Carries(w, r, s)
  {
    if s in w.archive then
      match Reached(w, r, s)
      case None => w.pubs[Key(r, s)] == w.archive[s]
      case Some(n) => n < |w.archive[s]| && w.pubs[Key(r, s)] == w.archive[s][..n]
    else Reached(w, r, s).None? && forall q :: Carries(w, q, s) ==> q == r
  }

  ghost predicate Consistent(w: World) { forall r, s :: Carries(w, r, s) ==> Agrees(w, r, s) }

  /** What is stored was once put there, and the archive never changes a group. */
  ghost predicate Archived(w: World) { forall s :: s in w.store ==> s in w.archive && w.archive[s] == w.store[s] }

  /** Nothing is published or cut by a run still to come, nor cut by the one alive. */
  ghost predicate Past(w: World) {
    && (forall k :: k in w.pubs ==> k.run <= w.run)
    && (forall k :: k in w.cuts ==> k.run < w.run || (w.pc == Down && k.run == w.run))
  }

  /** Every sequence that ever received a frame, and every one ever stored, is at most `h`. */
  ghost predicate AtMost(w: World, h: int) {
    (forall r, s: nat :: Carries(w, r, s) ==> s <= h) && (forall s :: s in w.archive ==> s <= h)
  }

  /** Of the window only the group being reloaded is on this run's track, up to where the reload is. */
  ghost predicate InReload(w: World, window: seq<nat>, written: Option<nat>) {
    && IsWindow(window, w.store) && (written.Some? ==> window != [])
    && (forall s :: Key(w.run, s) in w.pubs ==> s in w.store && (s in window ==> written.Some? && s == window[0]))
    && (written.Some? ==>
          && Key(w.run, window[0]) in w.pubs && written.value <= |w.store[window[0]]|
          && w.pubs[Key(w.run, window[0])] == w.store[window[0]][..written.value])
    && (w.trackMax.Some? ==> w.store != map[])
  }

  function SeedValue(seed: Option<nat>): int { if seed.Some? then seed.value else -1 }

  /** Only this run has frames on `s`. */
  ghost predicate Own(w: World, s: nat) { forall r :: Carries(w, r, s) ==> r == w.run }

  predicate Running(pc: Pc) { pc != Down && !pc.Reloading? && pc != Loaded && pc != Created }

  /** Between the first `persist` of a run and its end the sidecar alone is the high water. */
  ghost predicate InRun(w: World) {
    && w.sidecar.Some? && AtMost(w, w.sidecar.value) && w.trackMax == Some(w.group) && Own(w, w.group)
    && match w.pc
       case Rotated(f) =>
         && w.group == f + 1 && w.sidecar.value == f && Own(w, f) && Live(w, f) == w.buffer && w.buffer != []
         && f !in w.archive && Live(w, w.group) == []
       case Saved => w.group == w.sidecar.value + 1 && w.buffer == [] && Live(w, w.group) == []
       case Flushed => w.group == w.sidecar.value && (w.buffer == [] ==> w.group !in w.archive)
       case _ =>
         && w.group == w.sidecar.value && Live(w, w.group) == w.buffer && w.group !in w.archive
         && (w.pc == Full ==> w.buffer != [])
  }

  ghost predicate Safe(w: World) {
    && Consistent(w) && Archived(w) && Past(w)
    && AtMost(w, SeedValue(Seed(w.sidecar, MaxKey(w.store))))
    && (w.pc.Reloading? ==> InReload(w, w.pc.window, w.pc.written) && w.buffer == [])
    && (w.pc == Loaded ==> w.trackMax.Some? ==> w.store != map[])
    && (w.pc == Loaded || w.pc == Created ==> w.buffer == [])
    && (w.pc == Created ==>
          AtMost(w, w.group - 1) && w.trackMax == Some(w.group) && Live(w, w.group) == [])
    && (Running(w.pc) ==> InRun(w))
  }

  lemma {:induction false} SidecarIsSeed(w: World)
    requires w.sidecar.Some? && AtMost(w, w.sidecar.value)
    ensures AtMost(w, SeedValue(Seed(w.sidecar, MaxKey(w.store))))
  {
  }

  /** A step that leaves what is published, stored and cut alone leaves it consistent. */
  lemma {:induction false} SameHistory(w: World, v: World)
    requires Consistent(w) && v.pubs == w.pubs && v.archive == w.archive
    requires forall r, s :: Carries(w, r, s) ==> Reached(v, r, s) == Reached(w, r, s)
    ensures Consistent(v)
    ensures forall r, s :: Carries(v, r, s) == Carries(w, r, s)
  {
    hide Reached;
    forall r, s | Carries(v, r, s) ensures Agrees(v, r, s) {
      assert Carries(w, r, s) && Agrees(w, r, s);
      forall q | Carries(v, q, s) ensures Carries(w, q, s) {}
    }
  }

  lemma {:induction false} BootSafe(w: World, size: nat, window: seq<nat>)
    requires Safe(w) && Enabled(w, Boot(window))
    ensures Safe(Step(w, size, Boot(window)))
  {
    hide AtMost, Seed;
    var v := Step(w, size, Boot(window));
    SameHistory(w, v);
    AtMostSame(w, v, SeedValue(Seed(w.sidecar, MaxKey(w.store))));
  }

  lemma {:induction false} AtMostSame(w: World, v: World, h: int)
    requires AtMost(w, h) && v.archive == w.archive
    requires forall r, s :: Carries(v, r, s) ==> Carries(w, r, s)
    ensures AtMost(v, h)
  {
  }

  lemma {:induction false} FinishReloadSafe(w: World)
    requires Safe(w) && w.pc.Reloading?
    requires w.pc.window == [] || (w.pc.written.Some? && w.pc.written.value == |w.store[w.pc.window[0]]|)
    ensures Safe(Reloaded(w))
  {
    hide AtMost, Seed;
    var v := Reloaded(w);
    SameHistory(w, v);
    AtMostSame(w, v, SeedValue(Seed(w.sidecar, MaxKey(w.store))));
  }

  lemma {:induction false} CreateReloadSafe(w: World)
    requires Safe(w) && w.pc.Reloading? && w.pc.window != [] && w.pc.written.None?
    ensures Safe(Reloaded(w))
  {
    hide AtMost, Seed, Agrees;
    var v := Reloaded(w);
    assert w.pc.window[0] in w.pc.window;
    forall r, s ensures Carries(v, r, s) == Carries(w, r, s) {}
    forall r, s | Carries(v, r, s) ensures Agrees(v, r, s) {
      assert Agrees(w, r, s);
      SameAgrees(w, v, r, s);
    }
    AtMostSame(w, v, SeedValue(Seed(w.sidecar, MaxKey(w.store))));
  }

  lemma {:induction false} SameAgrees(w: World, v: World, r: nat, s: nat)
    requires Carries(w, r, s) && Carries(v, r, s) && Agrees(w, r, s)
    requires v.archive == w.archive && v.pubs[Key(r, s)] == w.pubs[Key(r, s)] && Reached(v, r, s) == Reached(w, r, s)
    requires s !in w.archive ==> forall q :: Carries(v, q, s) ==> Carries(w, q, s)
    ensures Agrees(v, r, s)
  {
    hide Reached;
  }

  lemma {:induction false} WriteReloadSafe(w: World)
    requires Safe(w) && w.pc.Reloading? && w.pc.window != [] && w.pc.written.Some?
    requires w.pc.written.value < |w.store[w.pc.window[0]]|
    ensures Safe(Reloaded(w))
  {
    hide AtMost, Seed;
    var v := Reloaded(w);
    var mine := Key(w.run, w.pc.window[0]);
    var n, whole := w.pc.written.value, w.store[mine.seqNo];
    assert whole[..n] + [whole[n]] == whole[..n + 1] && whole[..|whole|] == whole;
    forall r, s | Carries(v, r, s) ensures Agrees(v, r, s) {
      if Key(r, s) != mine {
        SameAgrees(w, v, r, s);
      }
    }
    WriteAtMost(w, v, SeedValue(Seed(w.sidecar, MaxKey(w.store))));
  }

  lemma {:induction false} WriteAtMost(w: World, v: World, h: int)
    requires AtMost(w, h) && v.archive == w.archive
    requires forall r, s :: Carries(v, r, s) ==> Carries(w, r, s) || s in w.archive
    ensures AtMost(v, h)
  {
  }

  lemma {:induction false} ReloadSafe(w: World)
    requires Safe(w) && Enabled(w, Reload)
    ensures Safe(Reloaded(w))
  {
    if w.pc.window == [] {
      FinishReloadSafe(w);
    } else if w.pc.written.None? {
      CreateReloadSafe(w);
    } else if w.pc.written.value < |w.store[w.pc.window[0]]| {
      WriteReloadSafe(w);
    } else {
      FinishReloadSafe(w);
    }
  }

  lemma {:induction false} CreateSafe(w: World, size: nat)
    requires Safe(w) && Enabled(w, Create)
    ensures Safe(Step(w, size, Create))
  {
    hide Agrees, Reached;
    var v := Step(w, size, Create);
    forall r, s | Carries(v, r, s)
      ensures Carries(w, r, s) && v.pubs[Key(r, s)] == w.pubs[Key(r, s)] && Agrees(v, r, s) {
      assert Agrees(w, r, s);
      QuietReached(w, v, r, s);
      SameAgrees(w, v, r, s);
    }
  }

  /** Outside reloads nothing changes how far one got. */
  lemma {:induction false} QuietReached(w: World, v: World, r: nat, s: nat)
    requires !w.pc.Reloading? && !v.pc.Reloading? && v.cuts == w.cuts
    ensures Reached(v, r, s) == Reached(w, r, s)
  {
  }

  /** A crash keeps for good how far the reload had got. */
  lemma {:induction false} CrashReached(w: World, size: nat, r: nat, s: nat)
    requires Safe(w) && w.pc != Down
    ensures Reached(Step(w, size, Crash), r, s) == Reached(w, r, s)
  {
    hide Consistent, AtMost, Seed, Agrees;
  }

  lemma {:induction false} PublishSafe(w: World, size: nat, b: Frame)
    requires Safe(w) && Enabled(w, Publish(b))
    ensures Safe(Step(w, size, Publish(b)))
  {
    hide Reached, Agrees;
    var v := Step(w, size, Publish(b));
    assert Own(w, w.group);
    forall r, s | Carries(v, r, s)
      ensures Agrees(v, r, s) && (Key(r, s) == Key(w.run, w.group) || (Carries(w, r, s) && s != w.group)) {
      if Key(r, s) == Key(w.run, w.group) {
        OwnGroupAgrees(w, v);
      } else {
        assert Carries(w, r, s) && s != w.group;
        QuietReached(w, v, r, s);
        SameAgrees(w, v, r, s);
      }
    }
    SidecarIsSeed(v);
  }

  /** The group being written is this run's alone. */
  lemma {:induction false} OwnGroupAgrees(w: World, v: World)
    requires Past(w) && Own(w, w.group) && w.group !in w.archive && w.pc != Down
    requires v.archive == w.archive && v.cuts == w.cuts && !v.pc.Reloading? && Carries(v, w.run, w.group)
    requires forall r, s :: Key(r, s) != Key(w.run, w.group) ==> Carries(v, r, s) == Carries(w, r, s)
    ensures Agrees(v, w.run, w.group)
  {
    forall q | Carries(v, q, w.group) ensures q == w.run {
      assert Key(q, w.group) != Key(w.run, w.group) ==> Carries(w, q, w.group);
    }
  }

  lemma {:induction false} RotateSafe(w: World, size: nat)
    requires Safe(w) && Enabled(w, Rotate)
    ensures Safe(Step(w, size, Rotate))
  {
    hide Reached, Agrees;
    var v := Step(w, size, Rotate);
    forall r, s | Carries(v, r, s)
      ensures Carries(w, r, s) && v.pubs[Key(r, s)] == w.pubs[Key(r, s)] && Agrees(v, r, s) {
      QuietReached(w, v, r, s);
      SameAgrees(w, v, r, s);
    }
    assert forall r, s :: Carries(w, r, s) && s != v.group ==> Carries(v, r, s);
  }

  /** A group that this run alone published, and in full, goes to the store and the archive. */
  lemma {:induction false} StoredAgrees(w: World, v: World, f: nat)
    requires Consistent(w) && Own(w, f) && f !in w.archive && Live(w, f) == w.buffer
    requires v.pubs == w.pubs && v.archive == w.archive[f := w.buffer]
    requires !w.pc.Reloading? && !v.pc.Reloading? && v.cuts == w.cuts
    ensures Consistent(v) && forall r, s :: Carries(v, r, s) == Carries(w, r, s)
  {
    hide Reached;
    forall r, s | Carries(v, r, s) ensures Agrees(v, r, s) {
      assert Carries(w, r, s) && Agrees(w, r, s);
      QuietReached(w, v, r, s);
      if s != f { forall q | Carries(v, q, s) ensures Carries(w, q, s) {} }
    }
  }

  lemma {:induction false} SaveSafe(w: World, size: nat, ok: bool)
    requires Safe(w) && Enabled(w, Save(ok))
    ensures Safe(Step(w, size, Save(ok)))
  {
    hide Consistent, Reached, Agrees, Seed, SeedValue;
    var v := Saving(w, w.pc.finished, ok);
    if ok {
      StoredAgrees(w, v, w.pc.finished);
    } else {
      Unchanged(w, v);
    }
    SidecarIsSeed(v);
  }

  lemma {:induction false} Unchanged(w: World, v: World)
    requires Consistent(w) && v.pubs == w.pubs && v.archive == w.archive && v.cuts == w.cuts
    requires !w.pc.Reloading? && !v.pc.Reloading?
    ensures Consistent(v) && forall r, s :: Carries(v, r, s) == Carries(w, r, s)
  {
    hide Reached;
    forall r, s ensures Reached(v, r, s) == Reached(w, r, s) { QuietReached(w, v, r, s); }
    SameHistory(w, v);
  }

  lemma {:induction false} FlushStoredSafe(w: World)
    requires Safe(w) && w.pc == Ready && w.buffer != []
    ensures Safe(Flushing(w, true))
  {
    hide Consistent, Reached, Agrees, Seed, SeedValue, InReload;
    var v := Flushing(w, true);
    StoredAgrees(w, v, w.group);
    SidecarIsSeed(v);
  }

  lemma {:induction false} FlushNothingSafe(w: World, ok: bool)
    requires Safe(w) && w.pc == Ready && (w.buffer == [] || !ok)
    ensures Safe(Flushing(w, ok))
  {
    hide Consistent, Reached, Agrees, Seed, SeedValue, InReload;
    var v := Flushing(w, ok);
    Unchanged(w, v);
    SidecarIsSeed(v);
  }

  lemma {:induction false} FlushSafe(w: World, size: nat, ok: bool)
    requires Safe(w) && Enabled(w, Flush(ok))
    ensures Safe(Step(w, size, Flush(ok)))
  {
    hide Safe;
    if ok && w.buffer != [] { FlushStoredSafe(w); } else { FlushNothingSafe(w, ok); }
  }

  lemma {:induction false} CollectSafe(w: World, size: nat, head: nat)
    requires Safe(w) && Enabled(w, Collect(head))
    ensures Safe(Step(w, size, Collect(head)))
  {
    hide Consistent, Reached, Agrees, Seed, SeedValue;
    var v := Step(w, size, Collect(head));
    Unchanged(w, v);
    SidecarIsSeed(v);
  }

  lemma {:induction false} RestSafe(w: World, size: nat, e: Event)
    requires Safe(w) && Enabled(w, e) && (e.PersistFirst? || e.Persist? || e.Stop?)
    ensures Safe(Step(w, size, e))
  {
    hide Consistent, Reached;
    var v := Step(w, size, e);
    Unchanged(w, v);
    if e.PersistFirst? || e.Persist? { SidecarIsSeed(v); }
  }

  lemma {:induction false} CrashSafe(w: World, size: nat)
    requires Safe(w) && w.pc != Down
    ensures Safe(Step(w, size, Crash))
  {
    hide Consistent, Reached;
    var v := Step(w, size, Crash);
    forall r, s ensures Reached(v, r, s) == Reached(w, r, s) { CrashReached(w, size, r, s); }
    SameHistory(w, v);
  }

  lemma {:induction false} StepSafe(w: World, size: nat, e: Event)
    requires Safe(w) && Enabled(w, e)
    ensures Safe(Step(w, size, e))
  {
    hide Safe, Reloaded, CutsAtCrash;
    match e {
      case Boot(window) => BootSafe(w, size, window);
      case Reload => ReloadSafe(w);
      case Create => CreateSafe(w, size);
      case Publish(b) => PublishSafe(w, size, b);
      case Rotate => RotateSafe(w, size);
      case Save(ok) => SaveSafe(w, size, ok);
      case Flush(ok) => FlushSafe(w, size, ok);
      case Collect(head) => CollectSafe(w, size, head);
      case Crash => CrashSafe(w, size);
      case _ => RestSafe(w, size, e);
    }
  }

  // ---- rotation loses no frame ----

  /** Groups `a` up to `b` of run `run`, end to end. */
  function Concat(pubs: map<Key, seq<Frame>>, run: nat, a: nat, b: nat): seq<Frame>
    decreases b
  {
    if b <= a then [] else
      Concat(pubs, run, a, b - 1) + if Key(run, b - 1) in pubs then pubs[Key(run, b - 1)] else []
  }

  /** Stored groups `a` up to `b` in ascending order, end to end. */
  function StoreConcat(store: Groups, a: nat, b: nat): seq<Frame>
    decreases b
  {
    if b <= a then [] else StoreConcat(store, a, b - 1) + if b - 1 in store then store[b - 1] else []
  }

  /** The group whose frames the buffer holds. */
  function InProgress(w: World): nat { if w.pc.Rotated? then w.pc.finished else w.group }

  /** A group size of zero rotates on every frame, as one does. */
  function GroupSize(size: nat): nat { Max(size, 1) }

  /** Groups of this run below this have been handed to the store. */
  function Settled(w: World): nat { if w.pc == Flushed && w.buffer != [] then w.group + 1 else InProgress(w) }

  /** Of those the store has exactly the ones it neither refused nor collected, as published; collections
      reach no further than the group in progress. */
  ghost predicate Kept(w: World, end: nat) {
    && w.head <= InProgress(w) && (forall s :: s in w.refused ==> s < end)
    && (forall s :: w.first <= s < end ==> (s in w.store <==> s >= w.head && s !in w.refused))
    && (forall s :: w.first <= s < end && s in w.store ==> w.store[s] == Live(w, s))
  }

  ghost predicate Conserved(w: World, size: nat) {
    (w.pc == Created ==> w.frames == [] && w.buffer == [] && w.count == 0 && w.group == w.first) &&
    (w.pc.Reloading? || w.pc == Loaded ==> w.frames == [] && w.count == 0) &&
    (w.pc.Reloading? || w.pc == Loaded || w.pc == Created ==> w.refused == {} && w.head == 0) &&
    (Running(w.pc) ==>
      && w.first <= InProgress(w)
      && w.frames == Concat(w.pubs, w.run, w.first, InProgress(w)) + w.buffer
      && (forall s :: w.first <= s < w.group ==> |Live(w, s)| == GroupSize(size))
      && Kept(w, Settled(w))
      && (w.pc != Flushed && !w.pc.Rotated? ==> w.count == |w.buffer|)
      && (w.pc.Rotated? || w.pc == Saved ==> w.count == 0)
      && (if w.pc.Rotated? || w.pc == Full then |w.buffer| == GroupSize(size) else |w.buffer| < GroupSize(size))
      && (w.pc == Flushed ==>
            Live(w, w.group) == w.buffer))
  }

  lemma {:induction false} ConcatSame(p: map<Key, seq<Frame>>, q: map<Key, seq<Frame>>, run: nat, a: nat, b: nat)
    requires forall s :: a <= s < b ==> (Key(run, s) in p <==> Key(run, s) in q)
    requires forall s :: a <= s < b && Key(run, s) in p ==> p[Key(run, s)] == q[Key(run, s)]
    ensures Concat(p, run, a, b) == Concat(q, run, a, b)
    decreases b
  {
    if a < b { ConcatSame(p, q, run, a, b - 1); }
  }

  lemma {:induction false} PublishConserved(w: World, size: nat, b: Frame)
    requires Safe(w) && Conserved(w, size) && Enabled(w, Publish(b))
    ensures Conserved(Step(w, size, Publish(b)), size)
  {
    hide Consistent, Archived, Past, AtMost, Own, Concat;
    var v := Step(w, size, Publish(b));
    ConcatSame(w.pubs, v.pubs, w.run, w.first, w.group);
    forall s | s != v.group ensures Live(v, s) == Live(w, s) {}
    assert (Concat(w.pubs, w.run, w.first, w.group) + w.buffer) + [b]
        == Concat(w.pubs, w.run, w.first, w.group) + (w.buffer + [b]);
  }

  lemma {:induction false} RotateConserved(w: World, size: nat)
    requires Safe(w) && Conserved(w, size) && Enabled(w, Rotate)
    ensures Conserved(Step(w, size, Rotate), size)
  {
    hide Consistent, Archived, Past, AtMost, Own, Concat;
    var v := Step(w, size, Rotate);
    ConcatSame(w.pubs, v.pubs, w.run, w.first, w.group);
    forall s | s != v.group ensures Live(v, s) == Live(w, s) {}
  }

  lemma {:induction false} SaveKept(w: World, size: nat, ok: bool)
    requires w.pc.Rotated? && w.group == w.pc.finished + 1 && Kept(w, w.pc.finished) && w.pc.finished !in w.store
    requires Live(w, w.pc.finished) == w.buffer
    ensures Kept(Saving(w, w.pc.finished, ok), w.group)
  {
    var v := Saving(w, w.pc.finished, ok);
    forall s ensures Live(v, s) == Live(w, s) {}
  }

  lemma {:induction false} SaveConserved(w: World, size: nat, ok: bool)
    requires InRun(w) && Archived(w) && Conserved(w, size) && Enabled(w, Save(ok))
    ensures Conserved(Step(w, size, Save(ok)), size)
  {
    hide AtMost, Own, Kept, Live, Concat;
    var v := Step(w, size, Save(ok));
    SaveKept(w, size, ok);
    ConcatLast(w, w.pc.finished);
    forall s ensures Live(v, s) == Live(w, s) { SameLive(w, v, s); }
  }

  lemma {:induction false} ConcatLast(w: World, f: nat)
    requires w.first <= f
    ensures Concat(w.pubs, w.run, w.first, f + 1) == Concat(w.pubs, w.run, w.first, f) + Live(w, f)
  {
  }

  lemma {:induction false} SameLive(w: World, v: World, s: nat)
    requires v.pubs == w.pubs && v.run == w.run
    ensures Live(v, s) == Live(w, s)
  {
  }

  lemma {:induction false} FlushKept(w: World, ok: bool)
    requires Kept(w, w.group) && w.pc == Ready && w.group !in w.store && Live(w, w.group) == w.buffer
    ensures var v := Flushing(w, ok); Kept(v, Settled(v))
  {
    hide Live;
    var v := Flushing(w, ok);
    forall s ensures Live(v, s) == Live(w, s) { SameLive(w, v, s); }
  }

  lemma {:induction false} FlushConserved(w: World, size: nat, ok: bool)
    requires InRun(w) && Archived(w) && Conserved(w, size) && Enabled(w, Flush(ok))
    ensures Conserved(Step(w, size, Flush(ok)), size)
  {
    hide AtMost, Own, Kept, Live, Concat;
    var v := Step(w, size, Flush(ok));
    FlushKept(w, ok);
    forall s ensures Live(v, s) == Live(w, s) { SameLive(w, v, s); }
  }

  lemma {:induction false} CollectConserved(w: World, size: nat, head: nat)
    requires Conserved(w, size) && Enabled(w, Collect(head))
    ensures Conserved(Step(w, size, Collect(head)), size)
  {
    hide Concat;
    var v := Step(w, size, Collect(head));
    forall s ensures Live(v, s) == Live(w, s) {}
  }

  lemma {:induction false} StartConserved(w: World, size: nat, e: Event)
    requires Conserved(w, size) && Enabled(w, e) && (e.Boot? || e.Reload? || e.Create? || e.Stop? || e.Crash?)
    requires w.pc == Loaded ==> w.buffer == []
    ensures Conserved(Step(w, size, e), size)
  {
    hide MaxKey, IsWindow, Concat, Kept, CutsAtCrash, Live, Put;
  }

  lemma {:induction false} FirstConserved(w: World, size: nat)
    requires Conserved(w, size) && w.pc == Created && Live(w, w.group) == []
    ensures Conserved(Step(w, size, PersistFirst), size)
  {
  }

  lemma {:induction false} PersistConserved(w: World, size: nat)
    requires Conserved(w, size) && w.pc == Saved && w.buffer == []
    ensures Conserved(Step(w, size, Persist), size)
  {
    hide Concat;
    var v := Step(w, size, Persist);
    forall s ensures Live(v, s) == Live(w, s) {}
  }

  lemma {:induction false} StepConserved(w: World, size: nat, e: Event)
    requires Safe(w) && Conserved(w, size) && Enabled(w, e)
    ensures Conserved(Step(w, size, e), size)
  {
    InRunOf(w);
    hide Safe, Conserved, Step, Archived, InRun;
    match e {
      case Publish(b) => PublishConserved(w, size, b);
      case Rotate => RotateConserved(w, size);
      case Save(ok) => SaveConserved(w, size, ok);
      case Flush(ok) => FlushConserved(w, size, ok);
      case Collect(head) => CollectConserved(w, size, head);
      case PersistFirst => FirstConserved(w, size);
      case Persist => PersistConserved(w, size);
      case _ => StartConserved(w, size, e);
    }
  }

  lemma {:induction false} InRunOf(w: World)
    requires Safe(w)
    ensures Archived(w) && (Running(w.pc) ==> InRun(w)) && (w.pc == Loaded || w.pc == Saved ==> w.buffer == [])
    ensures w.pc == Created ==> Live(w, w.group) == []
  {
    hide Consistent, Archived, Past, AtMost, Own, Seed, Agrees;
  }

  // ---- whole runs ----

  ghost predicate Legal(w: World, size: nat, es: seq<Event>)
    decreases es
  {
    es == [] || (Enabled(w, es[0]) && Legal(Step(w, size, es[0]), size, es[1..]))
  }

  ghost function Run(w: World, size: nat, es: seq<Event>): World
    requires Legal(w, size, es)
    decreases es
  {
    if es == [] then w else Run(Step(w, size, es[0]), size, es[1..])
  }

  /** What is on disk between processes: nothing is running, and whatever earlier releases left is
      below the high water the next start will compute. */
  ghost predicate Boots(w: World) { w.pc == Down && Safe(w) }

  lemma {:induction false} RunSafe(w: World, size: nat, es: seq<Event>)
    requires Safe(w) && Conserved(w, size) && Legal(w, size, es)
    ensures Safe(Run(w, size, es)) && Conserved(Run(w, size, es), size)
    decreases es
  {
    hide Safe, Conserved, Step;
    if es != [] {
      StepSafe(w, size, es[0]);
      StepConserved(w, size, es[0]);
      RunSafe(Step(w, size, es[0]), size, es[1..]);
    }
  }

  /** A group sequence never carries two different contents, over any run of starts, reloads,
      rotations, collections, clean finishes and crashes between any two statements, even when store
      appends fail. What two runs put on one sequence is the same up to the frame one of them died at
      while reloading it, and is the same outright exactly when their reloads of it got equally far;
      likewise against the store. No later start goes back below such a sequence. */
  lemma {:induction false} NeverReused(w: World, size: nat, es: seq<Event>, r: nat, q: nat, s: nat)
    requires Boots(w) && Legal(w, size, es)
    requires Carries(Run(w, size, es), r, s) && Carries(Run(w, size, es), q, s)
    ensures var v := Run(w, size, es);
            var a, b := v.pubs[Key(r, s)], v.pubs[Key(q, s)];
            && (a <= b || b <= a)
            && (a == b <==> Reached(v, r, s) == Reached(v, q, s))
            && (s in v.store ==> a <= v.store[s] && (a == v.store[s] <==> Reached(v, r, s).None?))
            && Seed(v.sidecar, MaxKey(v.store)).Some? && s <= Seed(v.sidecar, MaxKey(v.store)).value
  {
    hide Legal, Run, InRun, InReload, Reached;
    RunSafe(w, size, es);
    var v := Run(w, size, es);
    assert Agrees(v, r, s) && Agrees(v, q, s);
  }

  /** Some event is a crash that run `r` dies of while it is short in its reload of `s`. */
  ghost predicate DiesShort(w: World, size: nat, es: seq<Event>, r: nat, s: nat)
    requires Legal(w, size, es)
    decreases es
  {
    es != [] && ((es[0] == Crash && Short(w, r, s)) || DiesShort(Step(w, size, es[0]), size, es[1..], r, s))
  }

  lemma {:induction false} CutOnlyByCrash(w: World, size: nat, e: Event, r: nat, s: nat)
    requires Enabled(w, e)
    ensures Key(r, s) in Step(w, size, e).cuts <==> Key(r, s) in w.cuts || (e == Crash && Short(w, r, s))
  {
    hide MaxKey, Live, Put, NotBelow, IsWindow, Seed, NextGroup, Widen;
  }

  lemma {:induction false} ShortReached(w: World, r: nat, s: nat)
    ensures Reached(w, r, s).Some? <==> Key(r, s) in w.cuts || Short(w, r, s)
  {
  }

  /** Over whole histories a run stays short of a group only by dying in its reload of it, or by being
      there still. */
  lemma {:induction false} ShortExact(w: World, size: nat, es: seq<Event>, r: nat, s: nat)
    requires Legal(w, size, es)
    ensures var v := Run(w, size, es);
            Reached(v, r, s).Some? <==> Key(r, s) in w.cuts || DiesShort(w, size, es, r, s) || Short(v, r, s)
    decreases es
  {
    hide Step, Enabled, Short;
    if es == [] {
      ShortReached(w, r, s);
    } else {
      CutOnlyByCrash(w, size, es[0], r, s);
      ShortExact(Step(w, size, es[0]), size, es[1..], r, s);
    }
  }

  /** Without such a death, what any runs have on a sequence is equal, and equal to what is stored under
      it, outside a reload in progress. */
  lemma {:induction false} WholeGroupsEqual(w: World, size: nat, es: seq<Event>, r: nat, q: nat, s: nat)
    requires Boots(w) && Legal(w, size, es)
    requires Carries(Run(w, size, es), r, s) && Carries(Run(w, size, es), q, s)
    requires forall k :: k in {r, q} ==>
               Key(k, s) !in w.cuts && !DiesShort(w, size, es, k, s) && !Short(Run(w, size, es), k, s)
    ensures var v := Run(w, size, es);
            v.pubs[Key(r, s)] == v.pubs[Key(q, s)] && (s in v.store ==> v.pubs[Key(r, s)] == v.store[s])
  {
    hide *;
    NeverReused(w, size, es, r, q, s);
    ShortExact(w, size, es, r, s);
    ShortExact(w, size, es, q, s);
  }

  const A: Frame := [1]
  const B: Frame := [2]

  /** One run stored two frames as group 0 and is gone. */
  function TwoFramesStored(): World {
    World(Down, Some(1), map[0 := [A, B]], 1, Some(1), 0, [], 1, map[Key(1, 0) := [A, B]], map[0 := [A, B]], map[],
          0, [A, B], {}, 0)
  }

  lemma {:induction false} TwoFramesBoot()
    ensures Boots(TwoFramesStored())
  {
    var w := TwoFramesStored();
    forall r, s | Carries(w, r, s) ensures r == 1 && s == 0 {}
  }

  /** The next run dies after reloading one of the two: the sequence then carries both and one frame. */
  lemma {:induction false} CrashInReloadCutsShort()
    ensures var w, es := TwoFramesStored(), [Boot([0]), Reload, Reload, Crash];
            && Boots(w) && Legal(w, 2, es)
            && Run(w, 2, es).pubs[Key(1, 0)] == [A, B] && Run(w, 2, es).pubs[Key(2, 0)] == [A]
  {
    TwoFramesBoot();
    hide Safe, MaxKey;
    var w, es := TwoFramesStored(), [Boot([0]), Reload, Reload, Crash];
    var w1 := Booted(w, [0]);
    var w2 := Reloaded(w1);
    var w3 := Reloaded(w2);
    var w4 := Step(w3, 2, Crash);
    assert w3.pubs[Key(2, 0)] == [A] && w3.pubs[Key(1, 0)] == [A, B];
    LegalNext(w3, 2, [Crash]);
    LegalNext(w2, 2, [Reload, Crash]);
    LegalNext(w1, 2, [Reload, Reload, Crash]);
    LegalNext(w, 2, es);
    assert es[1..] == [Reload, Reload, Crash] && es[1..][1..] == [Reload, Crash] && es[1..][1..][1..] == [Crash];
  }

  lemma {:induction false} LegalNext(w: World, size: nat, es: seq<Event>)
    requires es != [] && Enabled(w, es[0])
    ensures Legal(w, size, es) <==> Legal(Step(w, size, es[0]), size, es[1..])
    ensures Legal(w, size, es) ==> Run(w, size, es) == Run(Step(w, size, es[0]), size, es[1..])
  {
  }

  /** A run's first group is above every sequence that ever carried a frame or is stored. */
  lemma {:induction false} FirstGroupFresh(w: World, size: nat, es: seq<Event>, r: nat, s: nat)
    requires Boots(w) && Legal(w, size, es) && Run(w, size, es).pc == Loaded
    ensures var v := Run(w, size, es);
            Carries(v, r, s) || s in v.archive ==> s < Step(v, size, Create).group
  {
    hide Legal, Run;
    RunSafe(w, size, es);
    AboveAll(Run(w, size, es), r, s);
  }

  lemma {:induction false} AboveAll(w: World, r: nat, s: nat)
    requires Safe(w) && w.pc == Loaded
    ensures Carries(w, r, s) || s in w.archive ==> s < FirstGroup(w, MaxKey(w.store)).group
  {
    hide Consistent, Archived, Past;
  }

  /** Which group that is: with a sidecar one past the larger of it and the store's greatest sequence, with
      a store alone two past its greatest, on an empty start 0. */
  lemma {:induction false} FirstGroupExact(w: World, size: nat, es: seq<Event>)
    requires Boots(w) && Legal(w, size, es) && Run(w, size, es).pc == Loaded
    ensures var v := Run(w, size, es);
            var g := Step(v, size, Create).group;
            && (v.sidecar.Some? ==>
                  && v.sidecar.value < g && (forall s :: s in v.store ==> s < g)
                  && (g == v.sidecar.value + 1 || g - 1 in v.store))
            && (v.sidecar.None? && v.store != map[] ==>
                  g >= 2 && g - 2 in v.store && forall s :: s in v.store ==> s <= g - 2)
            && (v.sidecar.None? && v.store == map[] ==> g == 0)
  {
    RunSafe(w, size, es);
    hide Legal, Run, Consistent, Archived, Past, AtMost, InReload, InRun;
  }

  /** Every append the publisher makes is above all stored sequences: the order the store needs. */
  lemma {:induction false} AppendsAscend(w: World, size: nat, es: seq<Event>)
    requires Boots(w) && Legal(w, size, es)
    ensures var v := Run(w, size, es);
            && (v.pc.Rotated? ==> forall s :: s in v.archive ==> s < v.pc.finished)
            && (v.pc == Ready ==> forall s :: s in v.archive ==> s < v.group)
  {
    hide Legal, Run, Consistent, Archived, Past;
    RunSafe(w, size, es);
  }

  /** Frames of this run in the groups that collections have removed. */
  function Dropped(w: World, size: nat): nat {
    if w.head <= w.first then 0 else (w.head - w.first) * GroupSize(size)
  }

  lemma {:induction false} ConcatLength(w: World, g: nat, b: nat)
    requires w.first <= b && forall s :: w.first <= s < b ==> |Live(w, s)| == g
    ensures |Concat(w.pubs, w.run, w.first, b)| == (b - w.first) * g
    decreases b
  {
    if b > w.first {
      ConcatLength(w, g, b - 1);
      assert |Live(w, b - 1)| == g;
    }
  }

  /** Whole groups up to `cut` gone, the rest stored: the store has what is left of the frames. */
  lemma {:induction false} StoreHolds(w: World, cut: nat, b: nat)
    requires w.first <= cut <= b
    requires forall s :: w.first <= s < cut ==> s !in w.store
    requires forall s :: cut <= s < b ==> s in w.store && w.store[s] == Live(w, s)
    ensures |Concat(w.pubs, w.run, w.first, cut)| <= |Concat(w.pubs, w.run, w.first, b)|
    ensures StoreConcat(w.store, w.first, b)
         == Concat(w.pubs, w.run, w.first, b)[|Concat(w.pubs, w.run, w.first, cut)|..]
    decreases b
  {
    if cut < b {
      StoreHolds(w, cut, b - 1);
      SliceLeft(Concat(w.pubs, w.run, w.first, b - 1), Live(w, b - 1), |Concat(w.pubs, w.run, w.first, cut)|);
    } else if w.first < b {
      StoreHolds(w, cut - 1, b - 1);
    }
  }

  lemma {:induction false} StoreHoldsAll(v: World, size: nat, b: nat)
    requires Safe(v) && Conserved(v, size) && Running(v.pc) && v.refused == {} && b == InProgress(v)
    ensures Dropped(v, size) <= |v.frames|
    ensures v.frames[Dropped(v, size)..] == StoreConcat(v.store, v.first, b) + v.buffer
  {
    GroupsBelow(v);
    hide Concat, StoreConcat, Safe, GroupSize;
    var cut := Max(v.first, v.head);
    ConcatLength(v, GroupSize(size), cut);
    StoreHolds(v, cut, b);
    SliceLeft(Concat(v.pubs, v.run, v.first, b), v.buffer, Dropped(v, size));
  }

  lemma {:induction false} GroupsBelow(v: World)
    requires Safe(v) && Running(v.pc)
    ensures InProgress(v) <= v.group
  {
    hide Consistent, Archived, Past, AtMost, Seed, Own, Live;
  }

  lemma {:induction false} SliceLeft<T>(a: seq<T>, b: seq<T>, n: nat)
    requires n <= |a|
    ensures (a + b)[n..] == a[n..] + b
  {
  }

  /** While a run lives, what it was given is its groups in ascending order and then the buffer, and
      every rotated group has exactly `group_size` frames. The store has each of them whole, except
      those it refused and those below where collections cut it. So with nothing refused, the stored
      groups and then the buffer are all frames but the ones collected, which are the oldest. */
  lemma {:induction false} Conservation(w: World, size: nat, es: seq<Event>)
    requires Boots(w) && Legal(w, size, es)
    ensures var v := Run(w, size, es);
            Running(v.pc) ==>
              && v.frames == Concat(v.pubs, v.run, v.first, InProgress(v)) + v.buffer
              && (forall s :: v.first <= s < v.group ==> |Live(v, s)| == GroupSize(size))
              && (forall s :: v.first <= s < InProgress(v) ==>
                    && (s in v.store <==> s >= v.head && s !in v.refused)
                    && (s in v.store ==> v.store[s] == Live(v, s)))
              && (v.refused == {} ==>
                    && Dropped(v, size) <= |v.frames|
                    && v.frames[Dropped(v, size)..] == StoreConcat(v.store, v.first, InProgress(v)) + v.buffer)
  {
    hide Legal, Run, Consistent, Archived, Past, AtMost, Seed, Concat, StoreConcat;
    RunSafe(w, size, es);
    var v := Run(w, size, es);
    if Running(v.pc) && v.refused == {} { StoreHoldsAll(v, size, InProgress(v)); }
  }

  /** A clean finish leaves nothing behind: what was not refused or collected is all in the store. */
  lemma {:induction false} CleanFinish(w: World, size: nat, es: seq<Event>)
    requires Boots(w) && Legal(w, size, es) && Run(w, size, es).pc == Flushed
    ensures var v := Run(w, size, es);
            && Step(v, size, Stop).store == v.store
            && (forall s :: v.first <= s && Carries(v, v.run, s) ==>
                  && (s in v.store <==> s >= v.head && s !in v.refused)
                  && (s in v.store ==> v.store[s] == Live(v, s)))
            && (v.refused == {} ==>
                  && Dropped(v, size) <= |v.frames|
                  && v.frames[Dropped(v, size)..] == StoreConcat(v.store, v.first, v.group + 1))
  {
    hide Legal, Run, Safe, Concat, Carries, GroupSize;
    RunSafe(w, size, es);
    var v := Run(w, size, es);
    if v.refused == {} { StoreHoldsAll(v, size, InProgress(v)); }
    NothingAbove(v, size);
  }

  lemma {:induction false} NothingAbove(v: World, size: nat)
    requires Safe(v) && Conserved(v, size) && Running(v.pc)
    ensures InProgress(v) <= v.group
    ensures forall s: nat :: Carries(v, v.run, s) ==> s <= InProgress(v)
    ensures v.pc == Flushed && v.buffer == [] ==> !Carries(v, v.run, v.group) && v.group !in v.store
  {
    hide Consistent, Past, Seed, Concat;
  }

  /** A crash loses at most the frames of one sequence, the highest that has any: they are the buffer.
      Every other group of the run stays as stored. */
  lemma {:induction false} CrashLoss(w: World, size: nat, es: seq<Event>)
    requires Boots(w) && Legal(w, size, es) && Running(Run(w, size, es).pc)
    ensures var v := Run(w, size, es);
            var down := Step(v, size, Crash);
            && (forall s :: v.first <= s && Carries(v, v.run, s) ==>
                  || (s in down.store && down.store[s] == Live(v, s)) || s < v.head || s in v.refused
                  || (s == InProgress(v) && Live(v, s) == v.buffer))
            && (forall s :: s > InProgress(v) ==> !Carries(v, v.run, s))
            && (v.refused == {} ==>
                  && Dropped(v, size) <= |down.frames|
                  && down.frames[Dropped(v, size)..] == StoreConcat(down.store, v.first, InProgress(v)) + v.buffer)
  {
    hide Legal, Run, Consistent, Archived, Past, Seed, Concat, StoreConcat;
    RunSafe(w, size, es);
    var v := Run(w, size, es);
    if v.refused == {} { StoreHoldsAll(v, size, InProgress(v)); }
    NothingAbove(v, size);
  }

  // ---- the publisher, as written ----

  /** Frames and steps a reload still has before it. */
  function Left(pc: Pc, store: Groups): nat
    requires pc.Reloading? && IsWindow(pc.window, store)
  {
    if pc.window == [] then 0 else
      var n := |store[pc.window[0]]|;
      match pc.written case None => n + 2 case Some(k) => if k <= n then n + 1 - k else 0
  }

  /** The reload run to its end. */
  ghost function ReloadedAll(w: World): (v: World)
    requires w.pc.Reloading? && IsWindow(w.pc.window, w.store)
    ensures v.pc == Loaded && v.store == w.store
    decreases |w.pc.window|, Left(w.pc, w.store)
  {
    if w.pc.window == [] then Reloaded(w) else ReloadedAll(Reloaded(w))
  }

  lemma {:induction false} ReloadTurn(w: World)
    requires Safe(w) && w.pc.Reloading?
    ensures var v := Reloaded(w);
            && Safe(v) && v == w.(pc := v.pc, pubs := v.pubs, trackMax := v.trackMax)
            && (w.pc.window == [] ==> v.pc == Loaded && v.pubs == w.pubs)
            && (w.pc.window != [] ==>
                  var mine := Key(w.run, w.pc.window[0]);
                  && v.pc.Reloading? && IsWindow(v.pc.window, v.store)
                  && (forall k: Key :: k != mine ==>
                        (k in v.pubs <==> k in w.pubs) && (k in v.pubs ==> v.pubs[k] == w.pubs[k]))
                  && (v.pc.window == w.pc.window
                      || (v.pc.window == w.pc.window[1..] && mine in v.pubs && v.pubs[mine] == w.store[mine.seqNo]
                          && mine.seqNo !in v.pc.window)))
  {
    hide AtMost, Consistent, Archived;
    ReloadSafe(w);
  }

  /** A reload that is not interrupted puts every group of the window on the track in full, and changes
      nothing else that is published. */
  lemma {:induction false} ReloadComplete(w: World)
    requires Safe(w) && w.pc.Reloading? && IsWindow(w.pc.window, w.store)
    ensures var v := ReloadedAll(w);
            && v == w.(pc := Loaded, pubs := v.pubs, trackMax := v.trackMax)
            && (forall s :: s in w.pc.window ==> Key(w.run, s) in v.pubs && v.pubs[Key(w.run, s)] == w.store[s])
            && (forall k: Key :: k.run != w.run || k.seqNo !in w.pc.window ==>
                  (k in v.pubs <==> k in w.pubs) && (k in v.pubs ==> v.pubs[k] == w.pubs[k]))
    decreases |w.pc.window|, Left(w.pc, w.store)
  {
    ReloadTurn(w);
    if w.pc.window != [] {
      ReloadCloser(w);
      hide Safe, Reloaded, Left;
      ReloadComplete(Reloaded(w));
    }
  }

  lemma {:induction false} ReloadCloser(w: World)
    requires w.pc.Reloading? && IsWindow(w.pc.window, w.store) && w.pc.window != []
    ensures var v := Reloaded(w);
            && v.pc.Reloading? && v.store == w.store && IsWindow(v.pc.window, v.store)
            && (|v.pc.window| < |w.pc.window|
                || (|v.pc.window| == |w.pc.window| && Left(v.pc, v.store) < Left(w.pc, w.store)))
            && ReloadedAll(v) == ReloadedAll(w)
  {
  }

  lemma {:induction false} AllReloaded(w: World)
    requires w.pc.Reloading? && w.pc.window == []
    ensures ReloadedAll(w) == w.(pc := Loaded)
  {
  }

  ghost function AfterStart(w: World, size: nat, window: seq<nat>): World
    requires w.pc == Down && IsWindow(window, w.store)
  {
    Step(Step(ReloadedAll(Step(w, size, Boot(window))), size, Create), size, PersistFirst)
  }

  ghost function AfterWrite(w: World, size: nat, b: Frame, ok: bool): World
    requires w.pc == Ready
  {
    var v := Step(w, size, Publish(b));
    if v.pc == Full then Step(Step(Step(v, size, Rotate), size, Save(ok)), size, Persist) else v
  }

  ghost function AfterFinish(w: World, size: nat, ok: bool): World
    requires w.pc == Ready
  {
    Step(Step(w, size, Flush(ok)), size, Stop)
  }

  /** Fields of the publisher and the durable state it writes. `past` holds the history and where the
      process is; its other fields are not used. The outcome of each store append is a parameter. */
  class FramePublisher {
    var groupSeqFile: Option<nat>
    var store: Groups
    var group: nat
    var trackMax: Option<nat>
    var count: nat
    var groupFrames: seq<Frame>
    ghost var past: World

    ghost function State(): World
      reads this
    {
      past.(sidecar := groupSeqFile, store := store, group := group, trackMax := trackMax, count := count,
            buffer := groupFrames)
    }

    /** `build_lite_publisher`: reload the window, seed from sidecar and store, open the first group. */
    method Start(size: nat, window: seq<nat>, storeMax: Option<nat>)
      requires past.pc == Down && IsWindow(window, store) && storeMax == MaxKey(store)
      modifies this
      ensures State() == AfterStart(old(State()), size, window)
    {
      ReloadWindow(size, window);
      MakeFirstGroup(size, storeMax);
      PersistGroupSeq(size);
    }

    /** Every group of the window is created on the track and its frames are written one by one. */
    method ReloadWindow(size: nat, window: seq<nat>)
      requires past.pc == Down && IsWindow(window, store)
      modifies this
      ensures State() == ReloadedAll(Step(old(State()), size, Boot(window)))
      ensures past.pc == Loaded && store == old(store)
    {
      hide IsWindow, ReloadedAll;
      StartRun(size, window);
      ghost var done := ReloadedAll(State());
      var i := 0;
      assert window[0..] == window;
      while i < |window|
        invariant i <= |window| && store == old(store) && past.pc == Reloading(window[i..], None)
        invariant IsWindow(window[i..], store) && ReloadedAll(State()) == done
      {
        assert window[i..][1..] == window[i + 1..];
        ReloadGroup(window[i..]);
        i := i + 1;
      }
      AllReloaded(State());
      past := past.(pc := Loaded);
    }

    /** A new process: fresh memory, nothing on its track yet. */
    method StartRun(size: nat, window: seq<nat>)
      requires past.pc == Down && IsWindow(window, store)
      modifies this
      ensures State() == Step(old(State()), size, Boot(window))
      ensures store == old(store) && past.pc == Reloading(window, None)
    {
      past := Booted(State(), window);
      trackMax, groupFrames, count := None, [], 0;
    }

    /** One turn of the loop: create, write, finish. */
    method ReloadGroup(window: seq<nat>)
      requires past.pc == Reloading(window, None) && window != [] && IsWindow(window, store)
      modifies this
      ensures store == old(store) && past.pc == Reloading(window[1..], None) && IsWindow(window[1..], store)
      ensures ReloadedAll(State()) == ReloadedAll(old(State()))
    {
      hide ReloadedAll, Reloaded, Left;
      var seqNo := window[0];
      ReloadCloser(State());
      CreateReloaded(seqNo);
      ghost var all := ReloadedAll(State());
      var stored := store[seqNo];
      var j := 0;
      while j < |stored|
        invariant j <= |stored| && seqNo in store && store[seqNo] == stored && store == old(store)
        invariant past.pc == Reloading(window, Some(j)) && IsWindow(window, store) && ReloadedAll(State()) == all
      {
        ReloadCloser(State());
        WriteReloaded(seqNo, j, stored[j]);
        j := j + 1;
      }
      ReloadCloser(State());
      FinishReloaded();
    }

    method CreateReloaded(seqNo: nat)
      requires past.pc.Reloading? && past.pc.written.None? && IsWindow(past.pc.window, store)
      requires past.pc.window != [] && seqNo == past.pc.window[0]
      modifies this
      ensures State() == Reloaded(old(State())) && store == old(store)
      ensures past.pc == Reloading(old(past.pc).window, Some(0))
    {
      past := past.(pc := Reloading(past.pc.window, Some(0)), pubs := Put(past, seqNo, []));
      trackMax := Widen(trackMax, seqNo);
    }

    method WriteReloaded(seqNo: nat, j: nat, frame: Frame)
      requires past.pc.Reloading? && past.pc.written == Some(j) && IsWindow(past.pc.window, store)
      requires past.pc.window != [] && seqNo == past.pc.window[0]
      requires j < |store[seqNo]| && frame == store[seqNo][j]
      modifies this
      ensures State() == Reloaded(old(State())) && store == old(store)
      ensures past.pc == Reloading(old(past.pc).window, Some(j + 1))
    {
      past := past.(pc := Reloading(past.pc.window, Some(j + 1)),
                    pubs := Put(past, seqNo, Live(past, seqNo) + [frame]));
    }

    method FinishReloaded()
      requires past.pc.Reloading? && past.pc.window != [] && IsWindow(past.pc.window, store)
      requires past.pc.written == Some(|store[past.pc.window[0]]|)
      modifies this
      ensures State() == Reloaded(old(State())) && store == old(store)
      ensures past.pc == Reloading(old(past.pc).window[1..], None) && IsWindow(past.pc.window, store)
    {
      past := past.(pc := Reloading(past.pc.window[1..], None));
    }

    method MakeFirstGroup(size: nat, storeMax: Option<nat>)
      requires past.pc == Loaded && storeMax == MaxKey(store)
      modifies this
      ensures State() == Step(old(State()), size, Create)
    {
      past := FirstGroup(State(), storeMax);
      var seed: Option<nat> := None;
      match groupSeqFile {
        case Some(f) => seed := Some(if storeMax.Some? && storeMax.value > f then storeMax.value else f);
        case None => if storeMax.Some? { seed := Some(storeMax.value + 1); }
      }
      group := if seed.Some? then seed.value + 1 else NextGroup(trackMax);
      trackMax := Some(group);
    }

    /** The sequence of the group just created goes to the sidecar, replacing it atomically. */
    method PersistGroupSeq(size: nat)
      requires past.pc == Created || past.pc == Saved
      modifies this
      ensures State() == Step(old(State()), size, if old(past.pc) == Created then PersistFirst else Persist)
    {
      past := past.(pc := Ready);
      groupSeqFile := Some(group);
    }

    method Write(data: Frame, groupSize: nat, stored: bool)
      requires past.pc == Ready
      modifies this
      ensures State() == AfterWrite(old(State()), groupSize, data, stored)
    {
      WriteFrame(data, groupSize);
      if count >= groupSize {
        var finishedSeq := RotateGroup(groupSize);
        SaveGroup(finishedSeq, groupSize, stored);
        PersistGroupSeq(groupSize);
      }
    }

    method WriteFrame(data: Frame, groupSize: nat)
      requires past.pc == Ready
      modifies this
      ensures State() == Step(old(State()), groupSize, Publish(data))
      ensures past.pc == Full <==> count >= groupSize
    {
      past := Published(State(), groupSize, data);
      groupFrames := groupFrames + [data];
      count := count + 1;
    }

    method RotateGroup(size: nat) returns (finishedSeq: nat)
      requires past.pc == Full
      modifies this
      ensures State() == Step(old(State()), size, Rotate) && finishedSeq == old(group)
    {
      past := NextOpened(State());
      finishedSeq := group;
      group := NextGroup(trackMax);
      trackMax := Some(group);
      count := 0;
    }

    method SaveGroup(finishedSeq: nat, size: nat, stored: bool)
      requires past.pc == Rotated(finishedSeq)
      modifies this
      ensures State() == Step(old(State()), size, Save(stored))
    {
      past := Saving(State(), finishedSeq, stored);
      if stored { store := store[finishedSeq := groupFrames]; }
      groupFrames := [];
    }

    method Finish(size: nat, stored: bool)
      requires past.pc == Ready
      modifies this
      ensures State() == AfterFinish(old(State()), size, stored)
    {
      past := Flushing(State(), stored).(pc := Down);
      if groupFrames != [] && stored { store := store[group := groupFrames]; }
    }
  }
}
