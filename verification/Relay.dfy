/** Upstream ingest and the pump (main.rs `spawn_ingest`, `pump`): two tasks that share one cursor
    and a bounded channel. Within a run every upstream event above the initial cursor is relayed
    once, in order, with no gap, exactly when that cursor is not the sentinel -1. */
module Relay {
  import opened Bytes

  const CHANNEL_CAPACITY := 256

  /** A frame in the channel: a sequenced event, an informational frame without a sequence, or an
      error frame. */
  datatype Message = Event(seqNo: int) | Info | ErrorFrame

  /** `log` is everything upstream has emitted so far, `conn` the open connection's next position in
      it, `loaded` a cursor read by ingest whose subscription has not started yet. `cursor` is the
      shared atomic, -1 meaning none. `relayed` holds the sequenced frames handed to the publisher. */
  datatype State = State(
    log: seq<int>, loaded: Option<int>, conn: Option<nat>, channel: seq<Message>, cursor: int, relayed: seq<int>)

  /** First position whose sequence is above `c`: where a subscription with cursor `c` starts. */
  function After(log: seq<int>, c: int): (n: nat)
    ensures n <= |log|
  {
    if log == [] then 0 else if log[|log| - 1] > c then After(log[..|log| - 1], c) else |log|
  }

  /** A cursor of -1 is sent as no cursor, and upstream starts at its live edge. */
  function StartAt(log: seq<int>, c: int): nat {
    if c == -1 then |log| else After(log, c)
  }

  ghost predicate Next(s: State, t: State) {
    || (exists n :: Emit(s, t, n))
    || LoadCursor(s, t) || Connect(s, t) || Send(s, t) || SendUnsequenced(s, t, Info)
    || SendUnsequenced(s, t, ErrorFrame) || Disconnect(s, t) || Pump(s, t)
  }

  /** Upstream sequences ascend and are never negative. */
  ghost predicate Emit(s: State, t: State, n: int) {
    n >= 0 && (s.log != [] ==> n > s.log[|s.log| - 1]) && t == s.(log := s.log + [n])
  }

  ghost predicate LoadCursor(s: State, t: State) {
    s.loaded.None? && s.conn.None? && t == s.(loaded := Some(s.cursor))
  }

  ghost predicate Connect(s: State, t: State) {
    s.loaded.Some? && t == s.(loaded := None, conn := Some(StartAt(s.log, s.loaded.value)))
  }

  ghost predicate Send(s: State, t: State) {
    && s.conn.Some? && s.conn.value < |s.log| && |s.channel| < CHANNEL_CAPACITY
    && t == s.(conn := Some(s.conn.value + 1), channel := s.channel + [Event(s.log[s.conn.value])])
  }

  ghost predicate SendUnsequenced(s: State, t: State, m: Message) {
    !m.Event? && s.conn.Some? && |s.channel| < CHANNEL_CAPACITY && t == s.(channel := s.channel + [m])
  }

  ghost predicate Disconnect(s: State, t: State) {
    (s.conn.Some? || s.loaded.Some?) && t == s.(conn := None, loaded := None)
  }

  /** The pump relays a sequenced frame only when it is above the cursor. */
  predicate Fresh(cursor: int, m: Message) {
    m.Event? && m.seqNo > cursor
  }

  /** One turn of the pump: a fresh event moves the cursor and is relayed, the rest change neither. */
  ghost predicate Pump(s: State, t: State) {
    && s.channel != []
    && var m := s.channel[0];
       t == if Fresh(s.cursor, m) then
              s.(channel := s.channel[1..], cursor := m.seqNo, relayed := s.relayed + [m.seqNo])
            else s.(channel := s.channel[1..])
  }

  ghost predicate Init(s: State, c: int) {
    && Ascending(s.log) && s.loaded.None? && s.conn.None? && s.channel == [] && s.cursor == c && s.relayed == []
  }

  ghost predicate Ascending(log: seq<int>) {
    (forall i, j :: 0 <= i < j < |log| ==> log[i] < log[j]) && (forall i :: 0 <= i < |log| ==> log[i] >= 0)
  }

  ghost predicate IsRun(run: seq<State>, c: int) {
    run != [] && Init(run[0], c) && forall i :: 0 <= i < |run| - 1 ==> Next(run[i], run[i + 1])
  }

  /** What was relayed is an unbroken segment of the upstream log, in its order, without repeats. */
  ghost predicate Unbroken(s: State) {
    exists m: nat, n: nat {:trigger s.log[m..n]} :: m <= n <= |s.log| && s.relayed == s.log[m..n]
  }

  ghost predicate SafeFrom(c: int) {
    forall run :: IsRun(run, c) ==> Unbroken(run[|run| - 1])
  }

  // ---- the invariant ----

  /** Position one past the log entry a message came from; 0 for one without a sequence. */
  function Past(log: seq<int>, m: Message): int {
    if m.Event? then After(log, m.seqNo) else 0
  }

  /** Reading the channel from position `k` of the log, every event is at or right after the highest
      position reached so far; the result is that position at the end. None if some event skips. */
  function Frontier(log: seq<int>, k: nat, channel: seq<Message>): Option<nat>
    decreases channel
  {
    if channel == [] then Some(k)
    else if Past(log, channel[0]) > k + 1 then None
    else Frontier(log, Max(k, Past(log, channel[0])), channel[1..])
  }

  ghost predicate FromLog(log: seq<int>, channel: seq<Message>) {
    forall i :: 0 <= i < |channel| && channel[i].Event? ==> channel[i].seqNo in log
  }

  ghost predicate Inv(s: State, c: int) {
    && Ascending(s.log) && FromLog(s.log, s.channel)
    && c <= s.cursor && s.cursor != -1
    && (s.cursor == c || (s.log != [] && s.cursor <= s.log[|s.log| - 1]))
    && After(s.log, c) <= After(s.log, s.cursor)
    && s.relayed == s.log[After(s.log, c)..After(s.log, s.cursor)]
    && Reached(s).Some?
    && (s.conn.Some? ==> s.conn.value <= Reached(s).value)
    && (s.loaded.Some? ==> s.loaded.value != -1 && s.loaded.value <= s.cursor)
  }

  /** The position everything relayed or still in the channel reaches without a gap. */
  ghost function Reached(s: State): Option<nat> {
    Frontier(s.log, After(s.log, s.cursor), s.channel)
  }

  lemma {:induction false} AfterExact(log: seq<int>, c: int)
    requires Ascending(log)
    ensures forall i :: 0 <= i < |log| ==> (i < After(log, c) <==> log[i] <= c)
  {
    if log != [] && log[|log| - 1] > c { AfterExact(log[..|log| - 1], c); }
  }

  lemma {:induction false} AfterOwn(log: seq<int>, i: nat)
    requires Ascending(log) && i < |log|
    ensures After(log, log[i]) == i + 1
  {
    AfterExact(log, log[i]);
    assert i + 1 < |log| ==> log[i + 1] > log[i];
  }

  lemma {:induction false} AfterMonotone(log: seq<int>, c: int, d: int)
    requires Ascending(log) && c <= d
    ensures After(log, c) <= After(log, d)
  {
    AfterExact(log, c);
    AfterExact(log, d);
    var i := After(log, d);
    assert i < |log| ==> log[i] > d;
  }

  /** New events at the end of the log move no position of an old sequence. */
  lemma {:induction false} AfterGrows(log: seq<int>, c: int, n: int)
    requires Ascending(log + [n]) && c < n
    ensures After(log + [n], c) == After(log, c)
  {
    assert (log + [n])[..|log|] == log;
  }

  lemma {:induction false} FrontierBounds(log: seq<int>, k: nat, channel: seq<Message>)
    requires Frontier(log, k, channel).Some? && k <= |log|
    ensures k <= Frontier(log, k, channel).value <= |log|
    decreases channel
  {
    if channel != [] { FrontierBounds(log, Max(k, Past(log, channel[0])), channel[1..]); }
  }

  lemma {:induction false} FrontierSend(log: seq<int>, k: nat, channel: seq<Message>, m: Message)
    requires Frontier(log, k, channel).Some? && Past(log, m) <= Frontier(log, k, channel).value + 1
    ensures Frontier(log, k, channel + [m]) == Some(Max(Frontier(log, k, channel).value, Past(log, m)))
    decreases channel
  {
    if channel == [] {
      assert ([] + [m])[1..] == [];
    } else {
      assert (channel + [m])[1..] == channel[1..] + [m];
      FrontierSend(log, Max(k, Past(log, channel[0])), channel[1..], m);
    }
  }

  lemma {:induction false} FrontierGrows(log: seq<int>, n: int, k: nat, channel: seq<Message>)
    requires Ascending(log + [n]) && FromLog(log, channel)
    ensures Frontier(log + [n], k, channel) == Frontier(log, k, channel)
    decreases channel
  {
    if channel != [] {
      if channel[0].Event? {
        assert channel[0].seqNo in log;
        var i :| 0 <= i < |log| && log[i] == channel[0].seqNo;
        assert (log + [n])[i] < (log + [n])[|log|];
        AfterGrows(log, channel[0].seqNo, n);
      }
      forall i | 0 <= i < |channel[1..]| && channel[1..][i].Event? ensures channel[1..][i].seqNo in log {
        assert channel[i + 1].seqNo in log;
      }
      FrontierGrows(log, n, Max(k, Past(log, channel[0])), channel[1..]);
    }
  }

  // ---- every step keeps it ----

  lemma {:induction false} AscendingGrows(log: seq<int>, n: int)
    requires Ascending(log) && n >= 0 && (log != [] ==> n > log[|log| - 1])
    ensures Ascending(log + [n])
  {
    forall i | 0 <= i < |log| ensures (log + [n])[i] < n { assert log[i] <= log[|log| - 1]; }
  }

  /** A cursor above the whole log has nothing to wait for. */
  lemma {:induction false} FrontierFull(log: seq<int>, channel: seq<Message>)
    ensures Frontier(log, |log|, channel) == Some(|log|)
    decreases channel
  {
    if channel != [] { FrontierFull(log, channel[1..]); }
  }

  lemma {:induction false} EmitAboveCursor(s: State, t: State, n: int, c: int)
    requires Inv(s, c) && Emit(s, t, n) && Ascending(t.log) && FromLog(t.log, t.channel) && s.cursor < n
    ensures Inv(t, c)
  {
    hide After, Frontier, Ascending, FromLog;
    var k := After(s.log, s.cursor);
    AfterGrows(s.log, c, n);
    AfterGrows(s.log, s.cursor, n);
    FrontierGrows(s.log, n, k, s.channel);
    assert t.log[After(s.log, c)..k] == s.log[After(s.log, c)..k];
  }

  /** A cursor still above the log: everything so far is behind it, and nothing was relayed. */
  lemma {:induction false} EmitBelowCursor(s: State, t: State, n: int, c: int)
    requires Inv(s, c) && Emit(s, t, n) && Ascending(t.log) && FromLog(t.log, t.channel) && s.cursor >= n
    ensures Inv(t, c)
  {
    hide Frontier, Ascending, FromLog;
    FrontierFull(s.log, s.channel);
    FrontierFull(t.log, t.channel);
  }

  lemma {:induction false} EmitKeeps(s: State, t: State, n: int, c: int)
    requires Inv(s, c) && Emit(s, t, n)
    ensures Inv(t, c)
  {
    hide After, Frontier;
    AscendingGrows(s.log, n);
    assert t.log[..|s.log|] == s.log;
    if s.cursor < n {
      EmitAboveCursor(s, t, n, c);
    } else {
      EmitBelowCursor(s, t, n, c);
    }
  }

  lemma {:induction false} ConnectKeeps(s: State, t: State, c: int)
    requires Inv(s, c) && Connect(s, t)
    ensures Inv(t, c)
  {
    AfterMonotone(s.log, s.loaded.value, s.cursor);
    FrontierBounds(s.log, After(s.log, s.cursor), s.channel);
  }

  lemma {:induction false} SendKeeps(s: State, t: State, m: Message, c: int)
    requires Inv(s, c) && t == s.(conn := t.conn, channel := s.channel + [m])
    requires m.Event? ==> Send(s, t)
    requires !m.Event? ==> t.conn == s.conn
    requires m.Event? ==> m.seqNo == s.log[s.conn.value]
    ensures Inv(t, c)
  {
    if m.Event? {
      AfterOwn(s.log, s.conn.value);
      assert m.seqNo in s.log;
    }
    FrontierSend(s.log, After(s.log, s.cursor), s.channel, m);
    assert FromLog(t.log, t.channel);
  }

  /** The channel's head is at or right after the position reached, and the rest goes on from there. */
  lemma {:induction false} FrontierHead(log: seq<int>, k: nat, channel: seq<Message>)
    requires channel != [] && Frontier(log, k, channel).Some?
    ensures Past(log, channel[0]) <= k + 1
    ensures Frontier(log, k, channel) == Frontier(log, Max(k, Past(log, channel[0])), channel[1..])
  {
  }

  lemma {:induction false} PumpKeeps(s: State, t: State, c: int)
    requires Inv(s, c) && Pump(s, t)
    ensures Inv(t, c)
  {
    hide Frontier, After;
    var k, m := After(s.log, s.cursor), s.channel[0];
    FrontierHead(s.log, k, s.channel);
    forall i | 0 <= i < |t.channel| && t.channel[i].Event? ensures t.channel[i].seqNo in t.log {
      assert t.channel[i] == s.channel[i + 1];
    }
    if m.Event? {
      assert m.seqNo in s.log;
      var i :| 0 <= i < |s.log| && s.log[i] == m.seqNo;
      AfterOwn(s.log, i);
      AfterExact(s.log, s.cursor);
      assert Fresh(s.cursor, m) ==> i == k;
    }
  }

  lemma {:induction false} StepKeeps(s: State, t: State, c: int)
    requires Inv(s, c) && Next(s, t)
    ensures Inv(t, c)
  {
    hide Frontier, After;
    if LoadCursor(s, t) || Disconnect(s, t) {
    } else if Connect(s, t) {
      ConnectKeeps(s, t, c);
    } else if Send(s, t) {
      SendKeeps(s, t, Event(s.log[s.conn.value]), c);
    } else if SendUnsequenced(s, t, Info) {
      SendKeeps(s, t, Info, c);
    } else if SendUnsequenced(s, t, ErrorFrame) {
      SendKeeps(s, t, ErrorFrame, c);
    } else if Pump(s, t) {
      PumpKeeps(s, t, c);
    } else {
      var n :| Emit(s, t, n);
      EmitKeeps(s, t, n, c);
    }
  }

  lemma {:induction false} RunKeeps(run: seq<State>, c: int)
    requires IsRun(run, c) && c != -1
    ensures Inv(run[|run| - 1], c)
  {
    var n := |run| - 1;
    if n == 0 {
      var s := run[0];
      assert s.log[After(s.log, c)..After(s.log, c)] == [];
    } else {
      RunKeeps(run[..n], c);
      StepKeeps(run[n - 1], run[n], c);
    }
  }

  /** Exactly once, in order: from a real cursor, what has been relayed is the log's segment from
      right above the initial cursor up to the shared one. */
  lemma {:induction false} RelayedExactly(run: seq<State>, c: int)
    requires IsRun(run, c) && c != -1
    ensures var s := run[|run| - 1];
      After(s.log, c) <= After(s.log, s.cursor) && s.relayed == s.log[After(s.log, c)..After(s.log, s.cursor)]
  {
    RunKeeps(run, c);
  }

  // ---- the sentinel ----

  /** With no cursor, a reconnect before the pump has handled anything resumes at the live edge: the
      event 1 emitted meanwhile is lost between 0 and 2. */
  function Skipping(): seq<State> {
    var s0 := State([], None, None, [], -1, []);
    var s4 := State([0], None, Some(1), [Event(0)], -1, []);
    [ s0, s0.(loaded := Some(-1)), s0.(conn := Some(0)), s0.(conn := Some(0), log := [0]), s4,
      s4.(conn := None), s4.(conn := None, loaded := Some(-1)), s4.(conn := None, loaded := Some(-1), log := [0, 1]),
      s4.(conn := Some(2), log := [0, 1]), s4.(conn := Some(2), log := [0, 1, 2]),
      s4.(conn := Some(3), log := [0, 1, 2], channel := [Event(0), Event(2)]),
      State([0, 1, 2], None, Some(3), [Event(2)], 0, [0]),
      State([0, 1, 2], None, Some(3), [], 2, [0, 2]) ]
  }

  /** Connect, take event 0, and lose the connection before the pump handles it. */
  lemma {:induction false} SkippingLosesConnection()
    ensures forall i :: 0 <= i < 6 ==> Next(Skipping()[i], Skipping()[i + 1])
  {
    hide After, Pump;
    var run := Skipping();
    assert LoadCursor(run[0], run[1]) && Connect(run[1], run[2]) && Emit(run[2], run[3], 0);
    assert Send(run[3], run[4]) && Disconnect(run[4], run[5]) && LoadCursor(run[5], run[6]);
  }

  /** Event 1 passes before the new connection starts at the live edge and brings event 2. */
  lemma {:induction false} SkippingReconnects()
    ensures forall i :: 6 <= i < 12 ==> Next(Skipping()[i], Skipping()[i + 1])
  {
    hide After;
    var run := Skipping();
    assert Emit(run[6], run[7], 1) && Connect(run[7], run[8]) && Emit(run[8], run[9], 2);
    assert Send(run[9], run[10]) && Pump(run[10], run[11]) && Pump(run[11], run[12]);
  }

  lemma {:induction false} SkippingIsBroken()
    ensures !Unbroken(Skipping()[12])
  {
    var s := Skipping()[12];
    forall m: nat, n: nat | m <= n <= |s.log| ensures s.relayed != s.log[m..n] {
      assert n - m == 2 ==> s.log[m..n][1] == s.log[m..n][0] + 1;
    }
  }

  /** The relay is gap-free and duplicate-free over every run exactly from a cursor other than -1. */
  lemma {:induction false} GapFreeExact(c: int)
    ensures SafeFrom(c) <==> c != -1
  {
    if c == -1 {
      SkippingLosesConnection();
      SkippingReconnects();
      assert IsRun(Skipping(), c);
      SkippingIsBroken();
    } else {
      forall run | IsRun(run, c) ensures Unbroken(run[|run| - 1]) {
        RelayedExactly(run, c);
      }
    }
  }

  // ---- a start without a cursor ----

  /** A subscription without a cursor: it starts at the live edge. */
  ghost predicate LiveConnect(s: State, t: State) { Connect(s, t) && s.loaded == Some(-1) }

  /** No second subscription is made without a cursor: none has been loaded again before the pump passed
      an event. */
  ghost predicate OneLiveStart(run: seq<State>) {
    forall i, j :: 0 <= i < j < |run| - 1 && LiveAt(run, i) ==> !LiveAt(run, j)
  }

  ghost predicate LiveAt(run: seq<State>, i: nat)
    requires i < |run| - 1
  {
    LiveConnect(run[i], run[i + 1])
  }

  /** `v` in place of the missing cursor: the last sequence before the live edge. */
  function Lift(s: State, v: int): State {
    s.(cursor := if s.cursor == -1 then v else s.cursor, loaded := if s.loaded == Some(-1) then Some(v) else s.loaded)
  }

  /** Until the first subscription nothing happens; from then on the run is one that began at `v`. */
  ghost predicate LiveInv(s: State, v: Option<int>) {
    match v
    case None =>
      && Ascending(s.log) && s.conn.None? && s.channel == [] && s.cursor == -1 && s.relayed == []
      && (s.loaded.Some? ==> s.loaded.value == -1)
    case Some(v) =>
      && v != -1 && Inv(Lift(s, v), v) && (v < 0 || (s.log != [] && v <= s.log[|s.log| - 1])) && AtEdge(s, v)
  }

  /** Before the pump has passed an event, all that is connected or in flight is past `v`. */
  ghost predicate AtEdge(s: State, v: int) {
    s.cursor == -1 ==>
      && (s.loaded.Some? ==> s.loaded.value == -1)
      && (s.conn.Some? ==> After(s.log, v) <= s.conn.value)
      && forall i :: 0 <= i < |s.channel| && s.channel[i].Event? ==> s.channel[i].seqNo > v
  }

  lemma {:induction false} FirstLiveConnect(s: State, t: State) returns (v: int)
    requires LiveInv(s, None) && LiveConnect(s, t)
    ensures LiveInv(t, Some(v))
  {
    v := if s.log == [] then -2 else s.log[|s.log| - 1];
    if s.log != [] { AfterOwn(s.log, |s.log| - 1); }
    assert t.log[|t.log|..|t.log|] == [];
  }

  lemma {:induction false} IdleKeeps(s: State, t: State)
    requires LiveInv(s, None) && Next(s, t) && !LiveConnect(s, t)
    ensures LiveInv(t, None)
  {
    hide After, Frontier;
    if n :| Emit(s, t, n) { AscendingGrows(s.log, n); }
  }

  /** Each step is one of the run that began at `v`. */
  lemma {:induction false} LiftStep(s: State, t: State, v: int)
    requires LiveInv(s, Some(v)) && Next(s, t) && !LiveConnect(s, t)
    ensures Next(Lift(s, v), Lift(t, v))
  {
    hide After, Frontier, Ascending;
    var a, b := Lift(s, v), Lift(t, v);
    if LoadCursor(s, t) || Disconnect(s, t) {
    } else if Connect(s, t) {
      assert Connect(a, b);
    } else if Send(s, t) {
      assert Send(a, b);
    } else if SendUnsequenced(s, t, Info) {
      assert SendUnsequenced(a, b, Info);
    } else if SendUnsequenced(s, t, ErrorFrame) {
      assert SendUnsequenced(a, b, ErrorFrame);
    } else if Pump(s, t) {
      LiftPump(s, t, v);
    } else {
      var n :| Emit(s, t, n);
      assert Emit(a, b, n);
    }
  }

  lemma {:induction false} LiftPump(s: State, t: State, v: int)
    requires LiveInv(s, Some(v)) && Pump(s, t)
    ensures Pump(Lift(s, v), Lift(t, v))
  {
    hide After, Frontier;
    var m := s.channel[0];
    if m.Event? {
      var i :| 0 <= i < |s.log| && s.log[i] == m.seqNo;
      assert s.log[i] >= 0;
    }
  }

  lemma {:induction false} LogGrows(s: State, t: State)
    requires Next(s, t)
    ensures s.log <= t.log && s.cursor <= t.cursor
    ensures t.log != s.log ==> t.log != [] && (s.log != [] ==> t.log[|t.log| - 1] > s.log[|s.log| - 1])
  {
  }

  lemma {:induction false} EdgeKeeps(s: State, t: State, v: int)
    requires AtEdge(s, v) && Next(s, t) && !LiveConnect(s, t)
    requires Ascending(s.log) && Ascending(t.log) && FromLog(s.log, s.channel)
    requires v < 0 || (s.log != [] && v <= s.log[|s.log| - 1])
    ensures AtEdge(t, v)
  {
    hide After;
    if Send(s, t) {
      AfterExact(s.log, v);
    } else if n :| Emit(s, t, n) {
      AfterGrows(s.log, v, n);
    } else if Pump(s, t) {
      PumpAtEdge(s, t, v);
    }
  }

  lemma {:induction false} PumpAtEdge(s: State, t: State, v: int)
    requires AtEdge(s, v) && Pump(s, t) && Ascending(s.log) && FromLog(s.log, s.channel)
    ensures AtEdge(t, v)
  {
    hide After;
    var m := s.channel[0];
    if m.Event? {
      var i :| 0 <= i < |s.log| && s.log[i] == m.seqNo;
      assert s.log[i] >= 0;
    }
  }

  lemma {:induction false} LiveRun(run: seq<State>) returns (v: Option<int>)
    requires IsRun(run, -1) && OneLiveStart(run)
    ensures LiveInv(run[|run| - 1], v)
    ensures v.Some? ==> exists i :: 0 <= i < |run| - 1 && LiveAt(run, i)
  {
    hide LiveInv, LiveConnect, Next, LiveAt, Init;
    var n := |run| - 1;
    if n == 0 {
      v := None;
      LiveInit(run[0]);
    } else {
      PrefixLive(run);
      v := LiveRun(run[..n]);
      if v.Some? {
        var i :| 0 <= i < n - 1 && LiveAt(run[..n], i);
        assert LiveAt(run, i);
      }
      v := LiveNext(run, v);
    }
  }

  lemma {:induction false} PrefixLive(run: seq<State>)
    requires |run| > 1
    ensures forall i :: 0 <= i < |run| - 2 ==> LiveAt(run[..|run| - 1], i) == LiveAt(run, i)
    ensures OneLiveStart(run) ==> OneLiveStart(run[..|run| - 1])
    ensures forall c :: IsRun(run, c) ==> IsRun(run[..|run| - 1], c)
  {
    hide LiveConnect, Next, Init;
    var before := run[..|run| - 1];
    forall i | 0 <= i < |run| - 2 ensures LiveAt(before, i) == LiveAt(run, i) {
      assert before[i] == run[i] && before[i + 1] == run[i + 1];
    }
    if OneLiveStart(run) {
      forall i, j | 0 <= i < j < |before| - 1 && LiveAt(before, i) ensures !LiveAt(before, j) {
        assert LiveAt(run, i);
        assert LiveAt(before, j) == LiveAt(run, j);
      }
    }
  }

  lemma {:induction false} LiveNext(run: seq<State>, v: Option<int>) returns (w: Option<int>)
    requires |run| > 1 && OneLiveStart(run) && Next(run[|run| - 2], run[|run| - 1]) && LiveInv(run[|run| - 2], v)
    requires v.Some? ==> exists i :: 0 <= i < |run| - 2 && LiveAt(run, i)
    ensures LiveInv(run[|run| - 1], w)
    ensures w.Some? ==> exists i :: 0 <= i < |run| - 1 && LiveAt(run, i)
  {
    hide LiveInv, LiveConnect, Next;
    var s, t := run[|run| - 2], run[|run| - 1];
    assert LiveAt(run, |run| - 2) == LiveConnect(s, t);
    w := v;
    if LiveConnect(s, t) {
      var edge := FirstLiveConnect(s, t);
      w := Some(edge);
    } else if v.None? {
      IdleKeeps(s, t);
    } else {
      Lifted(s, v.value);
      LiftStep(s, t, v.value);
      StepKeeps(Lift(s, v.value), Lift(t, v.value), v.value);
      LiftedKeeps(s, t, v.value);
    }
  }

  lemma {:induction false} Lifted(s: State, v: int)
    requires LiveInv(s, Some(v))
    ensures Inv(Lift(s, v), v)
  {
  }

  lemma {:induction false} LiftedKeeps(s: State, t: State, v: int)
    requires LiveInv(s, Some(v)) && Next(s, t) && !LiveConnect(s, t) && Inv(Lift(t, v), v)
    ensures LiveInv(t, Some(v))
  {
    hide After, Frontier, Next, AtEdge, LiveConnect, Ascending, FromLog;
    EdgeKeeps(s, t, v);
    LogGrows(s, t);
  }

  lemma {:induction false} LiveInit(s: State)
    requires Init(s, -1)
    ensures LiveInv(s, None)
  {
  }

  /** Without a cursor the relay is still an unbroken segment, from where its first subscription started,
      as long as no second one is made without a cursor. */
  lemma {:induction false} LiveStartUnbroken(run: seq<State>)
    requires IsRun(run, -1) && OneLiveStart(run)
    ensures Unbroken(run[|run| - 1])
  {
    hide Next, After, Frontier;
    var s := run[|run| - 1];
    var v := LiveRun(run);
    if v.None? {
      assert s.relayed == s.log[0..0];
    } else {
      assert s.relayed == s.log[After(s.log, v.value)..After(s.log, Lift(s, v.value).cursor)];
    }
  }

  // ---- restarts ----

  /** `load_initial_cursor`: the cursor file before the flag, and -1 with neither. */
  function Initial(file: Option<int>, flag: Option<int>): int {
    if file.Some? then file.value else if flag.Some? then flag.value else -1
  }

  /** The cursor file after `persist_cursor`. */
  function Persisted(file: Option<int>, cursor: int): Option<int> {
    if cursor < 0 then file else Some(cursor)
  }

  /** Once an event has been seen a save and a restart resume exactly where the pump was, whatever file was
      there before and whatever flag is given. Before that a save changes nothing. */
  lemma {:induction false} SaveThenRestart(c: int, rx: seq<Message>, file: Option<int>, flag: Option<int>)
    requires c >= -1 && forall i :: 0 <= i < |rx| && rx[i].Event? ==> rx[i].seqNo >= 0
    ensures var seen := Highest(c, rx);
            && (c >= 0 || (exists i :: 0 <= i < |rx| && rx[i].Event?) ==> Initial(Persisted(file, seen), flag) == seen)
            && (c < 0 && (forall i :: 0 <= i < |rx| ==> !rx[i].Event?) ==> Persisted(file, seen) == file)
  {
    HighestIsOne(c, rx);
    if i :| 0 <= i < |rx| && rx[i].Event? { assert rx[i] in rx; }
  }

  /** Without a file the flag counts, and with neither there is no cursor. */
  lemma {:induction false} FileBeforeFlag(saved: int, flag: Option<int>)
    ensures Initial(Some(saved), flag) == saved
    ensures Initial(None, Some(saved)) == saved && Initial(None, None) == -1
  {
  }

  /** One process: its run, and the cursor file it found. */
  datatype Process = Process(run: seq<State>, file: Option<int>)

  function Last(p: Process): State
    requires p.run != []
  {
    p.run[|p.run| - 1]
  }

  /** The next process finds the file as it was, or as it was last written at some moment of the run;
      upstream goes on in between. */
  ghost predicate Follows(p: Process, q: Process)
    requires p.run != [] && q.run != []
  {
    && Last(p).log <= q.run[0].log
    && (q.file == p.file || exists i :: 0 <= i < |p.run| && q.file == Persisted(p.file, p.run[i].cursor))
  }

  /** Processes one after another, each ended by a shutdown or a crash at any step, all started with the
      same flag. */
  ghost predicate IsHistory(h: seq<Process>, flag: Option<int>) {
    && h != [] && (forall k :: 0 <= k < |h| ==> IsRun(h[k].run, Initial(h[k].file, flag)))
    && (forall k :: 0 <= k < |h| - 1 ==> Follows(h[k], h[k + 1]))
  }

  ghost predicate RelayedBy(h: seq<Process>, n: int)
    requires forall k :: 0 <= k < |h| ==> h[k].run != []
  {
    exists k :: 0 <= k < |h| && n in Last(h[k]).relayed
  }

  /** What all the processes relayed is every upstream event above `c`, up to the highest cursor. */
  ghost predicate Covers(h: seq<Process>, c: int)
    requires h != [] && forall k :: 0 <= k < |h| ==> h[k].run != []
  {
    forall n :: RelayedBy(h, n) <==>
      n in Last(h[|h| - 1]).log && c < n && exists k :: 0 <= k < |h| && n <= Last(h[k]).cursor
  }

  /** Cursor and log only grow. */
  lemma {:induction false} RunGrows(run: seq<State>, c: int, i: nat)
    requires IsRun(run, c) && i < |run|
    ensures c <= run[i].cursor <= run[|run| - 1].cursor && run[0].log <= run[|run| - 1].log
  {
    hide Next;
    var n := |run| - 1;
    if n > 0 {
      RunGrows(run[..n], c, if i < n then i else 0);
      LogGrows(run[n - 1], run[n]);
    }
  }

  /** What one run relayed, found in any later state of the upstream log. */
  lemma {:induction false} RelayedSet(run: seq<State>, c: int, log: seq<int>, n: int)
    requires IsRun(run, c) && c != -1 && Ascending(log) && run[|run| - 1].log <= log
    ensures n in run[|run| - 1].relayed <==> n in log && c < n <= run[|run| - 1].cursor
  {
    RunKeeps(run, c);
    var s := run[|run| - 1];
    hide Next, After, Frontier, IsRun, Ascending;
    SegmentSet(s.log, c, s.cursor, log, n);
  }

  lemma {:induction false} SegmentSet(part: seq<int>, c: int, d: int, log: seq<int>, n: int)
    requires Ascending(log) && Ascending(part) && part <= log && After(part, c) <= After(part, d)
    requires d == c || (part != [] && d <= part[|part| - 1])
    ensures n in part[After(part, c)..After(part, d)] <==> n in log && c < n <= d
  {
    hide After;
    AfterExact(part, c);
    AfterExact(part, d);
    var m, e := After(part, c), After(part, d);
    if n in log && c < n <= d {
      var i :| 0 <= i < |log| && log[i] == n;
      assert n <= part[|part| - 1] == log[|part| - 1];
      assert part[m..e][i - m] == n;
    }
    if n in part[m..e] {
      var i :| 0 <= i < e - m && part[m..e][i] == n;
      assert part[m + i] == n && log[m + i] == n;
    }
  }

  /** A restart begins at or before where the run before it ended, and not before where that began. */
  lemma {:induction false} RestartBehind(p: Process, q: Process, flag: Option<int>)
    requires IsRun(p.run, Initial(p.file, flag)) && q.run != [] && Follows(p, q) && Initial(p.file, flag) != -1
    ensures Initial(p.file, flag) <= Initial(q.file, flag) <= Last(p).cursor && Initial(q.file, flag) != -1
  {
    hide Next;
    var c := Initial(p.file, flag);
    RunGrows(p.run, c, 0);
    if q.file != p.file {
      var i :| 0 <= i < |p.run| && q.file == Persisted(p.file, p.run[i].cursor);
      RunGrows(p.run, c, i);
    }
  }

  lemma {:induction false} HistoryAscends(h: seq<Process>, flag: Option<int>, k: nat)
    requires IsHistory(h, flag) && Initial(h[0].file, flag) != -1 && k < |h|
    ensures Initial(h[0].file, flag) <= Initial(h[k].file, flag) && Initial(h[k].file, flag) != -1
  {
    hide IsHistory;
    if k > 0 {
      HistoryAscends(h, flag, k - 1);
      HistoryStep(h, flag, k);
    }
  }

  lemma {:induction false} HistoryStep(h: seq<Process>, flag: Option<int>, k: nat)
    requires IsHistory(h, flag) && 0 < k < |h| && Initial(h[k - 1].file, flag) != -1
    ensures h[k - 1].run != [] && Initial(h[k].file, flag) != -1
    ensures Initial(h[k - 1].file, flag) <= Initial(h[k].file, flag) <= Last(h[k - 1]).cursor
  {
    hide Next, Initial;
    assert Follows(h[k - 1], h[k - 1 + 1]);
    RestartBehind(h[k - 1], h[k], flag);
  }

  lemma {:induction false} HistoryLog(h: seq<Process>, flag: Option<int>, k: nat)
    requires IsHistory(h, flag) && k < |h|
    ensures Last(h[k]).log <= Last(h[|h| - 1]).log
    decreases |h| - k
  {
    hide Next;
    if k < |h| - 1 {
      HistoryLog(h, flag, k + 1);
      assert Follows(h[k], h[k + 1]);
      RunGrows(h[k + 1].run, Initial(h[k + 1].file, flag), 0);
    }
  }

  /** Of the processes that got as far as `n`, the earliest began below it. */
  lemma {:induction false} FirstToPass(h: seq<Process>, flag: Option<int>, n: int, k: nat) returns (j: nat)
    requires IsHistory(h, flag) && Initial(h[0].file, flag) != -1
    requires k < |h| && Initial(h[0].file, flag) < n <= Last(h[k]).cursor
    ensures j < |h| && Initial(h[j].file, flag) < n <= Last(h[j]).cursor
  {
    hide Next, Init, Follows;
    j := k;
    if n <= Initial(h[k].file, flag) {
      HistoryAscends(h, flag, k - 1);
      HistoryStep(h, flag, k);
      j := FirstToPass(h, flag, n, k - 1);
    }
  }

  lemma {:induction false} HistoryCovers(h: seq<Process>, flag: Option<int>)
    requires IsHistory(h, flag) && Initial(h[0].file, flag) != -1
    ensures Covers(h, Initial(h[0].file, flag))
  {
    var c, log := Initial(h[0].file, flag), Last(h[|h| - 1]).log;
    HistoryAscends(h, flag, |h| - 1);
    RunKeeps(h[|h| - 1].run, Initial(h[|h| - 1].file, flag));
    assert Ascending(log);
    hide IsRun, Follows, Ascending;
    forall k, n | 0 <= k < |h|
      ensures n in Last(h[k]).relayed <==> n in log && Initial(h[k].file, flag) < n <= Last(h[k]).cursor
      ensures c <= Initial(h[k].file, flag)
    {
      HistoryAscends(h, flag, k);
      HistoryLog(h, flag, k);
      RelayedSet(h[k].run, Initial(h[k].file, flag), log, n);
    }
    forall n, k | n in log && c < n && 0 <= k < |h| && n <= Last(h[k]).cursor ensures RelayedBy(h, n) {
      var j := FirstToPass(h, flag, n, k);
    }
  }

  /** Over any number of restarts, by shutdown or by a crash at any step, every upstream event above the
      first cursor is relayed up to the highest cursor reached, and nothing else is: exactly when that
      first cursor is not the sentinel. Events relayed after the last save of the file are relayed again. */
  lemma {:induction false} GapFreeAcrossRestarts(file: Option<int>, flag: Option<int>)
    ensures (forall h: seq<Process> :: IsHistory(h, flag) && h[0].file == file ==> Covers(h, Initial(file, flag)))
            <==> Initial(file, flag) != -1
  {
    if Initial(file, flag) == -1 {
      SkippingLosesConnection();
      SkippingReconnects();
      hide Next;
      var h := [Process(Skipping(), file)];
      assert IsRun(Skipping(), -1) && IsHistory(h, flag);
      assert 1 in Last(h[0]).log && 1 <= Last(h[0]).cursor;
      assert !RelayedBy(h, 1);
    } else {
      forall h: seq<Process> | IsHistory(h, flag) && h[0].file == file ensures Covers(h, Initial(file, flag)) {
        HistoryCovers(h, flag);
      }
    }
  }

  // ---- the pump's loop ----

  /** The shared cursor after the pump has handled `rx`: the greatest sequence seen, at least `c`. */
  function Highest(c: int, rx: seq<Message>): (h: int)
    ensures h >= c && forall m :: m in rx && m.Event? ==> m.seqNo <= h
  {
    if rx == [] then c
    else
      var h := Highest(c, rx[..|rx| - 1]);
      if Fresh(h, rx[|rx| - 1]) then rx[|rx| - 1].seqNo else h
  }

  /** What the pump hands to the publisher: events that beat every earlier one, and every
      informational frame. */
  function Passed(c: int, rx: seq<Message>): seq<Message> {
    if rx == [] then []
    else
      var m := rx[|rx| - 1];
      var before := Passed(c, rx[..|rx| - 1]);
      if m.Info? || Fresh(Highest(c, rx[..|rx| - 1]), m) then before + [m] else before
  }

  /** What a subscriber should get of `rx`: informational frames, and events above the initial cursor and
      above every event received before them. */
  ghost predicate Due(c: int, rx: seq<Message>, i: nat)
    requires i < |rx|
  {
    rx[i].Info? ||
    (rx[i].Event? && rx[i].seqNo > c && forall j :: 0 <= j < i && rx[j].Event? ==> rx[j].seqNo < rx[i].seqNo)
  }

  /** The highest sequence is the initial cursor or one of those received. */
  lemma {:induction false} HighestIsOne(c: int, rx: seq<Message>)
    ensures Highest(c, rx) == c || Event(Highest(c, rx)) in rx
  {
    if rx != [] { HighestIsOne(c, rx[..|rx| - 1]); }
  }

  /** The pump hands over exactly the messages at the positions due, in the order received; so every
      informational frame as often as it came, and no error frame. */
  lemma {:induction false} PassedExact(c: int, rx: seq<Message>) returns (at: seq<nat>)
    ensures forall i, j :: 0 <= i < j < |at| ==> at[i] < at[j]
    ensures forall k :: 0 <= k < |at| ==> at[k] < |rx|
    ensures forall i :: 0 <= i < |rx| ==> (i in at <==> Due(c, rx, i))
    ensures |Passed(c, rx)| == |at| && forall k :: 0 <= k < |at| ==> Passed(c, rx)[k] == rx[at[k]]
    ensures multiset(Passed(c, rx))[Info] == multiset(rx)[Info] && ErrorFrame !in Passed(c, rx)
  {
    at := [];
    if rx != [] {
      var n := |rx| - 1;
      var before := rx[..n];
      at := PassedExact(c, before);
      assert rx == before + [rx[n]];
      forall i | 0 <= i < n ensures Due(c, rx, i) <==> Due(c, before, i) { DuePrefix(c, rx, i); }
      LastDue(c, rx);
      hide Due, Highest;
      if rx[n].Info? || Fresh(Highest(c, before), rx[n]) { at := at + [n]; }
    }
  }

  lemma {:induction false} DuePrefix(c: int, rx: seq<Message>, i: nat)
    requires i < |rx| - 1
    ensures Due(c, rx, i) <==> Due(c, rx[..|rx| - 1], i)
  {
    forall j | 0 <= j < i ensures rx[..|rx| - 1][j] == rx[j] {}
  }

  lemma {:induction false} LastDue(c: int, rx: seq<Message>)
    requires rx != []
    ensures var n := |rx| - 1; Due(c, rx, n) <==> rx[n].Info? || Fresh(Highest(c, rx[..n]), rx[n])
  {
    var n := |rx| - 1;
    HighestIsOne(c, rx[..n]);
    if rx[n].Event? {
      forall j | 0 <= j < n && rx[j].Event? ensures rx[j].seqNo <= Highest(c, rx[..n]) { assert rx[j] == rx[..n][j]; }
      if Event(Highest(c, rx[..n])) in rx[..n] {
        var j :| 0 <= j < n && rx[..n][j] == Event(Highest(c, rx[..n]));
        assert rx[j] == rx[..n][j];
      }
    }
  }

  function Sequences(ms: seq<Message>): seq<int> {
    if ms == [] then []
    else Sequences(ms[..|ms| - 1]) + (if ms[|ms| - 1].Event? then [ms[|ms| - 1].seqNo] else [])
  }

  /** Strictly ascending above `c`, and ending at `h`. */
  ghost predicate Climbs(out: seq<int>, c: int, h: int) {
    && (forall i, j :: 0 <= i < j < |out| ==> out[i] < out[j])
    && (forall i :: 0 <= i < |out| ==> c < out[i] <= h)
    && h == (if out == [] then c else out[|out| - 1])
  }

  lemma {:induction false} SequencesNext(ms: seq<Message>, m: Message)
    ensures Sequences(ms + [m]) == if m.Event? then Sequences(ms) + [m.seqNo] else Sequences(ms)
  {
    assert (ms + [m])[..|ms|] == ms;
  }

  /** Whatever arrives, the relayed sequences ascend strictly above the initial cursor and end at
      the final one. */
  lemma {:induction false} PassedAscends(c: int, rx: seq<Message>)
    ensures Climbs(Sequences(Passed(c, rx)), c, Highest(c, rx))
  {
    if rx != [] {
      hide Sequences;
      var before, m := rx[..|rx| - 1], rx[|rx| - 1];
      PassedAscends(c, before);
      SequencesNext(Passed(c, before), m);
    } else {
      assert Passed(c, rx) == [];
    }
  }

  /** A replay of frames the pump has already passed changes nothing. */
  lemma {:induction false} ReplayPassesNothing(c: int, rx: seq<Message>, replay: seq<Message>)
    requires forall m :: m in replay ==> m.Event? && m in rx
    ensures Passed(c, rx + replay) == Passed(c, rx) && Highest(c, rx + replay) == Highest(c, rx)
    decreases |replay|
  {
    if replay == [] {
      assert rx + replay == rx;
    } else {
      var n := |replay| - 1;
      assert (rx + replay)[..|rx + replay| - 1] == rx + replay[..n];
      assert replay[n] in rx && (rx + replay)[|rx + replay| - 1] == replay[n];
      ReplayPassesNothing(c, rx, replay[..n]);
    }
  }

  /** A pump step of a run is one turn of this loop. */
  lemma {:induction false} PumpStepPasses(s: State, t: State)
    requires Pump(s, t)
    ensures t.cursor == Highest(s.cursor, s.channel[..1])
    ensures t.relayed == s.relayed + Sequences(Passed(s.cursor, s.channel[..1]))
  {
    assert s.channel[..1] == [] + [s.channel[0]] && ([] + [s.channel[0]])[..0] == [];
  }

  /** The shared cursor, what was handed to the publisher, and the cursor file. */
  class CursorPump {
    var lastSeq: int
    var published: seq<Message>
    var file: Option<int>

    constructor (found: Option<int>, flag: Option<int>)
      ensures lastSeq == Initial(found, flag) && published == [] && file == found
    {
      var initial := flag;
      if found.Some? { initial := found; }
      lastSeq := if initial.Some? then initial.value else -1;
      published := [];
      file := found;
    }

    method Pump(rx: seq<Message>)
      modifies this
      ensures lastSeq == Highest(old(lastSeq), rx) && file == old(file)
      ensures published == old(published) + Passed(old(lastSeq), rx)
    {
      var i := 0;
      while i < |rx|
        invariant i <= |rx|
        invariant lastSeq == Highest(old(lastSeq), rx[..i]) && file == old(file)
        invariant published == old(published) + Passed(old(lastSeq), rx[..i])
      {
        var frame := rx[i];
        assert rx[..i + 1][..i] == rx[..i];
        i := i + 1;
        if frame.ErrorFrame? { continue; }
        if frame.Event? {
          if frame.seqNo <= lastSeq { continue; }
          lastSeq := frame.seqNo;
        }
        published := published + [frame];
      }
      assert rx[..i] == rx;
    }

    /** The cursor file is replaced, atomically, only once an event has been seen. */
    method PersistCursor()
      modifies this`file
      ensures file == Persisted(old(file), lastSeq)
    {
      if lastSeq < 0 { return; }
      file := Some(lastSeq);
    }
  }
}
