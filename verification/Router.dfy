/** The per-DID router (router.rs): the request loop, the unused-track watchers and the pump's
    `route` interleave wherever one of them takes or releases the map's lock. */
module Router {
  import opened Bytes
  import opened Frame

  const MAX_DID_TRACKS: nat := 10_000
  const DID_PREFIX: seq<byte> := [0x64, 0x69, 0x64, 0x3a]

  type Name = seq<byte>
  type Raw = seq<byte>

  /** `generation`, `group` and `count` are the code's. `done` holds the finished groups, `since` the
      number of frames routed before the track existed, `intact` and `punctual` whether every frame
      write and every group rotation so far succeeded. */
  datatype Track = Track(
    generation: nat, group: seq<Raw>, count: nat, done: seq<seq<Raw>>, since: nat, intact: bool, punctual: bool)

  datatype Watcher = Watcher(did: Name, generation: nat)

  /** The request loop: waiting, or with an entry inserted whose watcher is not yet spawned. */
  datatype Loop = Waiting | Spawning(watcher: Watcher)

  /** The pump: idle, past `route`'s emptiness check, or past `route` with the aggregate write to do. */
  datatype Pump = Idle | Routing(raw: Raw) | Publishing(raw: Raw)

  datatype Config = Config(groupSize: nat, maxTracks: nat)

  datatype State = State(
    active: map<Name, Track>, nextGeneration: nat, loop: Loop, watchers: set<Watcher>, pump: Pump,
    openings: nat, closings: nat, refused: nat, superseded: nat, routed: seq<Raw>, published: seq<Raw>)

  datatype Event =
    | Request(did: Name, groupOpens: bool) | Spawn | Unused(w: Watcher)
    | Skip(raw: Raw) | Begin(raw: Raw) | End(writes: bool, rotates: bool) | Publish

  const INITIAL := State(map[], 0, Waiting, {}, Idle, 0, 0, 0, 0, [], [])

  predicate IsDid(name: Name) {
    DID_PREFIX <= name && 7 <= |name| <= 256
  }

  function Cap(c: Config): nat {
    if c.maxTracks == 0 then MAX_DID_TRACKS else c.maxTracks
  }

  predicate Enabled(s: State, e: Event) {
    match e
    case Request(_, _) => s.loop.Waiting?
    case Spawn => s.loop.Spawning?
    case Unused(w) => w in s.watchers
    case Skip(_) => s.pump.Idle? && s.active == map[]
    case Begin(_) => s.pump.Idle? && s.active != map[]
    case End(_, _) => s.pump.Routing?
    case Publish => s.pump.Publishing?
  }

  /** `route` on the track the frame belongs to. A failed write leaves it as it was. */
  function Written(t: Track, raw: Raw, groupSize: nat, writes: bool, rotates: bool): Track {
    if !writes then t.(intact := false)
    else if t.count + 1 >= groupSize then
      if rotates then t.(done := t.done + [t.group + [raw]], group := [], count := 0)
      else t.(group := t.group + [raw], count := t.count + 1, punctual := false)
    else t.(group := t.group + [raw], count := t.count + 1)
  }

  function Admit(s: State, did: Name): State {
    var g := s.nextGeneration;
    s.(active := s.active[did := Track(g, [], 0, [], |s.routed|, true, true)],
       superseded := s.superseded + (if did in s.active then 1 else 0),
       nextGeneration := g + 1, loop := Spawning(Watcher(did, g)))
  }

  predicate Current(s: State, w: Watcher) {
    w.did in s.active && s.active[w.did].generation == w.generation
  }

  function Apply(c: Config, s: State, e: Event): State
    requires Enabled(s, e)
  {
    match e
    case Request(did, groupOpens) =>
      if !IsDid(did) || !groupOpens then s
      else if |s.active| >= Cap(c) then s.(nextGeneration := s.nextGeneration + 1, refused := s.refused + 1)
      else Admit(s, did)
    case Spawn => s.(loop := Waiting, watchers := s.watchers + {s.loop.watcher}, openings := s.openings + 1)
    case Unused(w) =>
      if Current(s, w) then s.(watchers := s.watchers - {w}, active := s.active - {w.did}, closings := s.closings + 1)
      else s.(watchers := s.watchers - {w})
    case Skip(raw) => s.(routed := s.routed + [raw], pump := Publishing(raw))
    case Begin(raw) => s.(pump := Routing(raw))
    case End(writes, rotates) =>
      var raw, did := s.pump.raw, EventDid(s.pump.raw);
      s.(routed := s.routed + [raw], pump := Publishing(raw),
         active := if did.Some? && did.value in s.active
                   then s.active[did.value := Written(s.active[did.value], raw, c.groupSize, writes, rotates)]
                   else s.active)
    case Publish => s.(published := s.published + [s.pump.raw], pump := Idle)
  }

  // ---- the map and its watchers ----

  predicate Watched(s: State, did: Name, generation: nat) {
    Watcher(did, generation) in s.watchers || s.loop == Spawning(Watcher(did, generation))
  }

  ghost predicate MapOk(c: Config, s: State) {
    && |s.active| <= Cap(c)
    && (forall did :: did in s.active ==>
          IsDid(did) && s.active[did].generation < s.nextGeneration && Watched(s, did, s.active[did].generation))
    && (forall w :: w in s.watchers ==> w.generation < s.nextGeneration)
    && (s.loop.Spawning? ==> s.loop.watcher !in s.watchers && s.loop.watcher.generation + 1 == s.nextGeneration)
    && s.openings + (if s.loop.Spawning? then 1 else 0) == s.closings + |s.active| + s.superseded
  }

  lemma {:induction false} SizeAfterPut(m: map<Name, Track>, did: Name, t: Track)
    ensures |m[did := t]| == |m| + (if did in m then 0 else 1)
  {
    assert m[did := t].Keys == m.Keys + {did};
  }

  lemma {:induction false} SizeAfterRemove(m: map<Name, Track>, did: Name)
    requires did in m
    ensures |m - {did}| == |m| - 1
  {
    assert (m - {did}).Keys == m.Keys - {did};
  }

  lemma {:induction false} AdmitKeeps(c: Config, s: State, did: Name)
    requires MapOk(c, s) && s.loop.Waiting? && IsDid(did) && |s.active| < Cap(c)
    ensures MapOk(c, Admit(s, did))
  {
    hide IsDid;
    SizeAfterPut(s.active, did, Admit(s, did).active[did]);
  }

  lemma {:induction false} UnusedKeeps(c: Config, s: State, w: Watcher)
    requires MapOk(c, s) && w in s.watchers
    ensures MapOk(c, Apply(c, s, Unused(w)))
  {
    hide IsDid, EventDid, Written, Cap;
    if Current(s, w) { SizeAfterRemove(s.active, w.did); }
  }

  lemma {:induction false} SameGeneration(t: Track, raw: Raw, groupSize: nat, writes: bool, rotates: bool)
    ensures Written(t, raw, groupSize, writes, rotates).generation == t.generation
  {
  }

  lemma {:induction false} EndKeeps(c: Config, s: State, e: Event)
    requires MapOk(c, s) && e.End? && Enabled(s, e)
    ensures MapOk(c, Apply(c, s, e))
  {
    hide IsDid, EventDid, Cap, Written;
    var did := EventDid(s.pump.raw);
    if did.Some? && did.value in s.active {
      SameGeneration(s.active[did.value], s.pump.raw, c.groupSize, e.writes, e.rotates);
      SizeAfterPut(s.active, did.value, Written(s.active[did.value], s.pump.raw, c.groupSize, e.writes, e.rotates));
    }
  }

  lemma {:induction false} MapKeeps(c: Config, s: State, e: Event)
    requires MapOk(c, s) && Enabled(s, e)
    ensures MapOk(c, Apply(c, s, e))
  {
    hide IsDid, EventDid, Admit, Cap;
    match e
    case Request(did, groupOpens) =>
      if IsDid(did) && groupOpens && |s.active| < Cap(c) { AdmitKeeps(c, s, did); }
    case Unused(w) => UnusedKeeps(c, s, w);
    case End(_, _) => EndKeeps(c, s, e);
    case _ =>
  }

  // ---- the projection ----

  /** The frames of an account, in order. */
  ghost function Filter(frames: seq<Raw>, did: Name): seq<Raw> {
    if frames == [] then []
    else Filter(frames[..|frames| - 1], did)
           + (if EventDid(frames[|frames| - 1]) == Some(did) then [frames[|frames| - 1]] else [])
  }

  ghost function Flat(groups: seq<seq<Raw>>): seq<Raw> {
    if groups == [] then [] else Flat(groups[..|groups| - 1]) + groups[|groups| - 1]
  }

  /** Everything a track's subscribers are given: finished groups, then the open one. */
  ghost function Carried(t: Track): seq<Raw> {
    Flat(t.done) + t.group
  }

  /** `a` is `b` with some elements left out. */
  ghost predicate Embeds(a: seq<Raw>, b: seq<Raw>)
    decreases |b|
  {
    a == [] || (b != [] && (Embeds(a, b[..|b| - 1])
                            || (a[|a| - 1] == b[|b| - 1] && Embeds(a[..|a| - 1], b[..|b| - 1]))))
  }

  lemma {:induction false} EmbedsSkip(a: seq<Raw>, b: seq<Raw>, x: Raw)
    requires Embeds(a, b)
    ensures Embeds(a, b + [x])
  {
    assert (b + [x])[..|b|] == b;
  }

  lemma {:induction false} EmbedsTake(a: seq<Raw>, b: seq<Raw>, x: Raw)
    requires Embeds(a, b)
    ensures Embeds(a + [x], b + [x])
  {
    assert (b + [x])[..|b|] == b && (a + [x])[..|a|] == a;
  }

  lemma {:induction false} FilterEmbeds(frames: seq<Raw>, did: Name)
    ensures Embeds(Filter(frames, did), frames)
  {
    if frames != [] {
      hide Embeds, Filter, EventDid;
      var n := |frames| - 1;
      FilterEmbeds(frames[..n], did);
      FilterNext(frames[..n], frames[n], did);
      assert frames == frames[..n] + [frames[n]];
      EmbedsSkip(Filter(frames[..n], did), frames[..n], frames[n]);
      EmbedsTake(Filter(frames[..n], did), frames[..n], frames[n]);
    }
  }

  lemma {:induction false} FilterNext(frames: seq<Raw>, raw: Raw, did: Name)
    ensures Filter(frames + [raw], did)
            == if EventDid(raw) == Some(did) then Filter(frames, did) + [raw] else Filter(frames, did)
  {
    assert (frames + [raw])[..|frames|] == frames;
  }

  function Unit(c: Config): nat {
    if c.groupSize == 0 then 1 else c.groupSize
  }

  /** What a track has to carry of the frames routed since it exists. */
  ghost predicate Projects(t: Track, due: seq<Raw>) {
    Embeds(Carried(t), due) && (t.intact ==> Carried(t) == due)
  }

  ghost predicate Cut(c: Config, t: Track) {
    && t.count == |t.group|
    && (forall g :: g in t.done ==> |g| >= Unit(c))
    && (t.punctual ==> |t.group| < Unit(c) && forall g :: g in t.done ==> |g| == Unit(c))
  }

  ghost predicate TrackOk(c: Config, t: Track, did: Name, routed: seq<Raw>) {
    t.since <= |routed| && Cut(c, t) && Projects(t, Filter(routed[t.since..], did))
  }

  lemma {:induction false} WrittenCarries(t: Track, raw: Raw, groupSize: nat, writes: bool, rotates: bool)
    ensures var u := Written(t, raw, groupSize, writes, rotates);
      && Carried(u) == (if writes then Carried(t) + [raw] else Carried(t))
      && u.since == t.since && u.intact == (t.intact && writes)
  {
    var group := t.group + [raw];
    assert (t.done + [group])[..|t.done|] == t.done;
  }

  lemma {:induction false} WrittenCuts(c: Config, t: Track, raw: Raw, writes: bool, rotates: bool)
    requires Cut(c, t)
    ensures Cut(c, Written(t, raw, c.groupSize, writes, rotates))
  {
  }

  /** A frame of the account written to its track. */
  lemma {:induction false} WrittenOk(
      c: Config, t: Track, did: Name, routed: seq<Raw>, raw: Raw, writes: bool, rotates: bool)
    requires TrackOk(c, t, did, routed) && EventDid(raw) == Some(did)
    ensures TrackOk(c, Written(t, raw, c.groupSize, writes, rotates), did, routed + [raw])
  {
    hide Cut, Carried, Filter, Embeds, Written, EventDid;
    var due := Filter(routed[t.since..], did);
    assert (routed + [raw])[t.since..] == routed[t.since..] + [raw];
    FilterNext(routed[t.since..], raw, did);
    WrittenCarries(t, raw, c.groupSize, writes, rotates);
    WrittenCuts(c, t, raw, writes, rotates);
    EmbedsSkip(Carried(t), due, raw);
    EmbedsTake(Carried(t), due, raw);
  }

  /** A frame of another account leaves a track as it is. */
  lemma {:induction false} OtherOk(c: Config, t: Track, did: Name, routed: seq<Raw>, raw: Raw)
    requires TrackOk(c, t, did, routed) && EventDid(raw) != Some(did)
    ensures TrackOk(c, t, did, routed + [raw])
  {
    assert (routed + [raw])[t.since..] == routed[t.since..] + [raw];
    FilterNext(routed[t.since..], raw, did);
  }

  lemma {:induction false} FreshOk(c: Config, g: nat, did: Name, routed: seq<Raw>)
    ensures TrackOk(c, Track(g, [], 0, [], |routed|, true, true), did, routed)
  {
    assert routed[|routed|..] == [];
  }

  ghost predicate TracksOk(c: Config, s: State) {
    forall did :: did in s.active ==> TrackOk(c, s.active[did], did, s.routed)
  }

  ghost predicate PumpOk(s: State) {
    s.routed == s.published + (if s.pump.Publishing? then [s.pump.raw] else [])
  }

  ghost predicate Inv(c: Config, s: State) {
    MapOk(c, s) && TracksOk(c, s) && PumpOk(s)
  }

  lemma {:induction false} TracksKeep(c: Config, s: State, e: Event)
    requires TracksOk(c, s) && Enabled(s, e)
    ensures TracksOk(c, Apply(c, s, e))
  {
    hide TrackOk, EventDid, IsDid, Written;
    var t := Apply(c, s, e);
    forall did | did in t.active ensures TrackOk(c, t.active[did], did, t.routed) {
      match e
      case Request(d, _) => FreshOk(c, s.nextGeneration, did, s.routed);
      case End(writes, rotates) =>
        assert TrackOk(c, s.active[did], did, s.routed);
        if EventDid(s.pump.raw) == Some(did) {
          WrittenOk(c, s.active[did], did, s.routed, s.pump.raw, writes, rotates);
        } else {
          OtherOk(c, s.active[did], did, s.routed, s.pump.raw);
        }
      case _ =>
    }
  }

  ghost predicate Legal(c: Config, s: State, run: seq<Event>)
    decreases run
  {
    run == [] || (Enabled(s, run[0]) && Legal(c, Apply(c, s, run[0]), run[1..]))
  }

  ghost function Final(c: Config, s: State, run: seq<Event>): State
    requires Legal(c, s, run)
    decreases run
  {
    if run == [] then s else Final(c, Apply(c, s, run[0]), run[1..])
  }

  ghost predicate Reachable(c: Config, s: State) {
    exists run :: Legal(c, INITIAL, run) && Final(c, INITIAL, run) == s
  }

  lemma {:induction false} PumpKeeps(c: Config, s: State, e: Event)
    requires PumpOk(s) && Enabled(s, e)
    ensures PumpOk(Apply(c, s, e))
  {
    hide EventDid, IsDid, Cap, Written;
  }

  lemma {:induction false} StepKeeps(c: Config, s: State, e: Event)
    requires Inv(c, s) && Enabled(s, e)
    ensures Inv(c, Apply(c, s, e))
  {
    hide MapOk, TracksOk, PumpOk, Apply;
    MapKeeps(c, s, e);
    TracksKeep(c, s, e);
    PumpKeeps(c, s, e);
  }

  lemma {:induction false} RunKeeps(c: Config, s: State, run: seq<Event>)
    requires Inv(c, s) && Legal(c, s, run)
    ensures Inv(c, Final(c, s, run))
    decreases run
  {
    if run != [] {
      StepKeeps(c, s, run[0]);
      RunKeeps(c, Apply(c, s, run[0]), run[1..]);
    }
  }

  lemma {:induction false} ReachableInv(c: Config, s: State)
    requires Reachable(c, s)
    ensures Inv(c, s)
  {
    var run :| Legal(c, INITIAL, run) && Final(c, INITIAL, run) == s;
    RunKeeps(c, INITIAL, run);
  }

  // ---- the guarantees ----

  /** Under every interleaving the map stays within the cap, every entry is a DID's with a watcher of
      its own generation live or about to be, and openings balance: live entries, closed ones, and
      those a newer request replaced. */
  lemma {:induction false} MapSafe(c: Config, s: State)
    requires Reachable(c, s)
    ensures |s.active| <= Cap(c)
    ensures forall did :: did in s.active ==> IsDid(did) && Watched(s, did, s.active[did].generation)
    ensures s.loop.Waiting? ==> s.openings - s.closings == |s.active| + s.superseded
    ensures s.loop.Waiting? && s.watchers == {} ==> s.active == map[]
  {
    ReachableInv(c, s);
    if s.loop.Waiting? && s.watchers == {} {
      assert forall did :: did !in s.active;
    }
  }

  /** The names that are served: "did:" and something after it, at most 256 bytes in all. */
  predicate Served(name: Name) {
    && 7 <= |name| <= 256
    && name[0] == 'd' as int && name[1] == 'i' as int && name[2] == 'd' as int && name[3] == ':' as int
  }

  lemma {:induction false} ServedIsDid(name: Name)
    ensures IsDid(name) <==> Served(name)
  {
    if DID_PREFIX <= name { assert name[..4] == DID_PREFIX; }
    if Served(name) { assert name[..4] == DID_PREFIX; }
  }

  /** A request for an account whose group opens is served exactly while the map is below the cap: a fresh
      entry of the next generation, with an empty group, its watcher due, every other entry untouched. At the
      cap it counts as refused and uses a generation up; every other request changes nothing. */
  lemma {:induction false} RequestServed(c: Config, s: State, did: Name, groupOpens: bool)
    requires Reachable(c, s) && s.loop.Waiting?
    ensures var t := Apply(c, s, Request(did, groupOpens));
            var limit := if c.maxTracks == 0 then 10000 else c.maxTracks;
            var asked, g := Served(did) && groupOpens, s.nextGeneration;
            && (asked && |s.active| < limit <==>
                  did in t.active && t.active[did].generation == g && t.loop == Spawning(Watcher(did, g)))
            && (asked && |s.active| < limit ==>
                  && t.active.Keys == s.active.Keys + {did} && Carried(t.active[did]) == []
                  && t.active[did].since == |s.routed| && t.nextGeneration == g + 1 && t.refused == s.refused
                  && forall d :: d in s.active && d != did ==> t.active[d] == s.active[d])
            && (asked && |s.active| >= limit ==>
                  t == s.(nextGeneration := g + 1, refused := s.refused + 1))
            && (!asked ==> t == s)
  {
    Generations(c, s);
    ServedIsDid(did);
    NothingCarried(s.nextGeneration, |s.routed|);
    hide IsDid, Served, EventDid, Carried, Reachable, Inv;
  }

  lemma {:induction false} Generations(c: Config, s: State)
    requires Reachable(c, s)
    ensures forall d :: d in s.active ==> s.active[d].generation < s.nextGeneration
  {
    ReachableInv(c, s);
    hide Watched, IsDid, Cap, TracksOk, Reachable;
  }

  lemma {:induction false} NothingCarried(g: nat, since: nat)
    ensures Carried(Track(g, [], 0, [], since, true, true)) == []
  {
  }

  /** What routing a frame does to a track: nothing unless it is the account's and the write succeeds;
      then the track carries it, and the group is finished when it has the group size and a new one opens. */
  lemma {:induction false} RouteExact(c: Config, s: State, did: Name, writes: bool, rotates: bool)
    requires Reachable(c, s) && s.pump.Routing? && did in s.active
    ensures var raw, t, u := s.pump.raw, s.active[did], Apply(c, s, End(writes, rotates)).active[did];
            && did in Apply(c, s, End(writes, rotates)).active
            && (EventDid(raw) != Some(did) ==> u == t)
            && (EventDid(raw) == Some(did) && !writes ==> u.done == t.done && u.group == t.group && !u.intact)
            && (EventDid(raw) == Some(did) && writes ==>
                  && Carried(u) == Carried(t) + [raw] && u.intact == t.intact
                  && if |t.group| + 1 >= Unit(c) && rotates
                     then u.done == t.done + [t.group + [raw]] && u.group == [] && u.punctual == t.punctual
                     else u.done == t.done && (u.punctual <==> t.punctual && |t.group| + 1 < Unit(c)))
  {
    CountIsSize(c, s, did);
    hide EventDid, IsDid, Carried, Unit, Written, Reachable, Inv;
    if EventDid(s.pump.raw) == Some(did) { WrittenExact(c, s.active[did], s.pump.raw, writes, rotates); }
  }

  lemma {:induction false} CountIsSize(c: Config, s: State, did: Name)
    requires Reachable(c, s) && did in s.active
    ensures s.active[did].count == |s.active[did].group|
  {
    ReachableInv(c, s);
    hide MapOk, Projects, Filter, Reachable;
    assert TrackOk(c, s.active[did], did, s.routed);
  }

  lemma {:induction false} WrittenExact(c: Config, t: Track, raw: Raw, writes: bool, rotates: bool)
    requires t.count == |t.group|
    ensures var u := Written(t, raw, c.groupSize, writes, rotates);
            && (!writes ==> u.done == t.done && u.group == t.group && !u.intact)
            && (writes ==>
                  && Carried(u) == Carried(t) + [raw] && u.intact == t.intact
                  && if |t.group| + 1 >= Unit(c) && rotates
                     then u.done == t.done + [t.group + [raw]] && u.group == [] && u.punctual == t.punctual
                     else u.done == t.done && (u.punctual <==> t.punctual && |t.group| + 1 < Unit(c)))
  {
    WrittenCarries(t, raw, c.groupSize, writes, rotates);
    hide Carried;
  }

  /** Every write to a track and every rotation of its groups succeeded. */
  predicate Healthy(run: seq<Event>) {
    forall i :: 0 <= i < |run| && run[i].End? ==> run[i].writes && run[i].rotates
  }

  ghost predicate AllWell(s: State) { forall did :: did in s.active ==> s.active[did].intact && s.active[did].punctual }

  lemma {:induction false} WellKeeps(c: Config, s: State, e: Event)
    requires AllWell(s) && Enabled(s, e) && (e.End? ==> e.writes && e.rotates)
    ensures AllWell(Apply(c, s, e))
  {
    hide EventDid, IsDid, Cap;
  }

  lemma {:induction false} WellRun(c: Config, s: State, run: seq<Event>)
    requires AllWell(s) && Legal(c, s, run) && Healthy(run)
    ensures AllWell(Final(c, s, run))
    decreases run
  {
    hide AllWell, Apply, Enabled;
    if run != [] {
      WellKeeps(c, s, run[0]);
      forall i | 0 <= i < |run[1..]| && run[1..][i].End? ensures run[1..][i].writes && run[1..][i].rotates {
        assert run[1..][i] == run[i + 1];
      }
      WellRun(c, Apply(c, s, run[0]), run[1..]);
    }
  }

  /** While the transport takes everything a live track carries exactly its account's frames since it exists,
      in finished groups of exactly the group size and an open one below it. */
  lemma {:induction false} HealthyTrack(c: Config, run: seq<Event>, did: Name)
    requires Legal(c, INITIAL, run) && Healthy(run) && did in Final(c, INITIAL, run).active
    ensures var s := Final(c, INITIAL, run);
            var t := s.active[did];
            && t.since <= |s.routed| && Carried(t) == Filter(s.routed[t.since..], did)
            && |t.group| < Unit(c) && forall g :: g in t.done ==> |g| == Unit(c)
  {
    RunKeeps(c, INITIAL, run);
    WellRun(c, INITIAL, run);
    assert TrackOk(c, Final(c, INITIAL, run).active[did], did, Final(c, INITIAL, run).routed);
    hide MapOk, Legal, Final, Filter, Carried, Embeds;
  }

  predicate LeavesFor(t: State, e: Event, did: Name, g: nat, next: nat) {
    || (did in t.active && t.active[did].generation == g)
    || (did !in t.active && e == Unused(Watcher(did, g)))
    || (did in t.active && e.Request? && e.did == did && t.active[did].generation == next > g)
  }

  lemma {:induction false} StepLeaves(c: Config, s: State, e: Event, did: Name)
    requires Enabled(s, e) && did in s.active && s.active[did].generation < s.nextGeneration
    ensures LeavesFor(Apply(c, s, e), e, did, s.active[did].generation, s.nextGeneration)
  {
    hide EventDid, IsDid, Cap;
  }

  /** An entry changes generation or leaves only through its own watcher or a newer request for the
      same DID; a stale watcher never touches a fresh track. */
  lemma {:induction false} LeavesOnlyByItsOwn(c: Config, s: State, e: Event, did: Name)
    requires Reachable(c, s) && Enabled(s, e) && did in s.active
    ensures LeavesFor(Apply(c, s, e), e, did, s.active[did].generation, s.nextGeneration)
  {
    ReachableInv(c, s);
    assert s.active[did].generation < s.nextGeneration;
    hide *;
    StepLeaves(c, s, e, did);
  }

  /** A live track carries frames of its account only, in the aggregate's order; while its writes
      succeed it carries every one routed since it exists. Every finished group has the group size,
      as long as rotations succeed. */
  lemma {:induction false} TrackIsProjection(c: Config, s: State, did: Name)
    requires Reachable(c, s) && did in s.active
    ensures var t := s.active[did];
      && t.since <= |s.routed| && Embeds(Carried(t), Filter(s.routed[t.since..], did))
      && (t.intact ==> Carried(t) == Filter(s.routed[t.since..], did))
      && (forall g :: g in t.done ==> |g| >= Unit(c))
      && (t.punctual ==> |t.group| < Unit(c) && forall g :: g in t.done ==> |g| == Unit(c))
  {
    ReachableInv(c, s);
  }

  lemma {:induction false} EmbedsTransitive(x: seq<Raw>, y: seq<Raw>, z: seq<Raw>)
    requires Embeds(x, y) && Embeds(y, z)
    ensures Embeds(x, z)
    decreases |y| + |z|
  {
    if x != [] {
      var n := |z| - 1;
      if Embeds(y, z[..n]) {
        EmbedsTransitive(x, y, z[..n]);
      } else if Embeds(x, y[..|y| - 1]) {
        EmbedsTransitive(x, y[..|y| - 1], z[..n]);
      } else {
        EmbedsTransitive(x[..|x| - 1], y[..|y| - 1], z[..n]);
      }
    }
  }

  /** Between frames, what a per-account track has carried is a subsequence of what the aggregate has
      published since the track exists. */
  lemma {:induction false} TrackWithinAggregate(c: Config, s: State, did: Name)
    requires Reachable(c, s) && did in s.active && !s.pump.Publishing?
    ensures var t := s.active[did]; t.since <= |s.published| && Embeds(Carried(t), s.published[t.since..])
  {
    ReachableInv(c, s);
    var t := s.active[did];
    assert TrackOk(c, t, did, s.routed) && s.routed == s.published;
    var due := Filter(s.routed[t.since..], did);
    FilterEmbeds(s.routed[t.since..], did);
    EmbedsTransitive(Carried(t), due, s.published[t.since..]);
  }

  // ---- the code between two locks ----

  /** Each method runs one stretch of the code that holds the map's lock, and is that step. */
  class DidRouter {
    const config: Config
    var active: map<Name, Track>
    var nextGeneration: nat
    var openings: nat
    var closings: nat
    var refused: nat
    /** Where request loop, watchers and pump stand, and the history; its other fields are not used. */
    var rest: State

    ghost function Now(): State
      reads this
    {
      rest.(active := active, nextGeneration := nextGeneration,
            openings := openings, closings := closings, refused := refused)
    }

    constructor (config: Config)
      ensures Now() == INITIAL && this.config == config
    {
      this.config := config;
      active, nextGeneration, openings, closings, refused := map[], 0, 0, 0, 0;
      rest := INITIAL;
    }

    /** A requested track, up to the end of the lock; the result says whether a watcher is due. */
    method HandleRequest(did: Name, groupOpens: bool) returns (serving: bool)
      requires Enabled(Now(), Event.Request(did, groupOpens))
      modifies this
      ensures Now() == Apply(config, old(Now()), Event.Request(did, groupOpens))
      ensures serving == Now().loop.Spawning?
    {
      if !IsDid(did) || !groupOpens { return false; }
      var generation := nextGeneration;
      nextGeneration := nextGeneration + 1;
      var max := if config.maxTracks == 0 then MAX_DID_TRACKS else config.maxTracks;
      if |active| >= max {
        refused := refused + 1;
        return false;
      }
      rest := rest.(superseded := rest.superseded + (if did in active then 1 else 0),
                    loop := Spawning(Watcher(did, generation)));
      active := active[did := Track(generation, [], 0, [], |rest.routed|, true, true)];
      return true;
    }

    method SpawnWatcher()
      requires Enabled(Now(), Spawn)
      modifies this
      ensures Now() == Apply(config, old(Now()), Spawn)
    {
      openings := openings + 1;
      rest := rest.(loop := Waiting, watchers := rest.watchers + {rest.loop.watcher});
    }

    /** The watcher's section once its track has no subscriber left. */
    method TrackUnused(w: Watcher)
      requires Enabled(Now(), Event.Unused(w))
      modifies this
      ensures Now() == Apply(config, old(Now()), Event.Unused(w))
    {
      rest := rest.(watchers := rest.watchers - {w});
      if w.did in active && active[w.did].generation == w.generation {
        active := active - {w.did};
        closings := closings + 1;
      }
    }

    /** `route` with nothing between its two locks; `writes` and `rotates` are the transport's answers. */
    method Route(raw: Raw, writes: bool, rotates: bool)
      requires Now().pump.Idle?
      modifies this
      ensures old(active) == map[] ==> Now() == Apply(config, old(Now()), Skip(raw))
      ensures old(active) != map[] ==>
        Now() == Apply(config, Apply(config, old(Now()), Begin(raw)), End(writes, rotates))
    {
      hide EventDid, MapOk, TracksOk;
      rest := rest.(routed := rest.routed + [raw], pump := Publishing(raw));
      if active == map[] { return; }
      var did := EventDid(raw);
      if did.None? || did.value !in active { return; }
      var track := active[did.value];
      if !writes {
        active := active[did.value := track.(intact := false)];
        return;
      }
      track := track.(group := track.group + [raw], count := track.count + 1);
      if track.count >= config.groupSize {
        track := if rotates then track.(done := track.done + [track.group], group := [], count := 0)
                 else track.(punctual := false);
      }
      active := active[did.value := track];
    }
  }
}
