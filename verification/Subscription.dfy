/** The Go client's subscription (client.go): the accept loop, the draining goroutine, failures and
    the reader interleave at every point where the code takes a lock, a channel or a select. */
module Subscription {
  import opened Bytes

  const FRAME_BUFFER := 1024

  /** Why a group stream stops yielding frames: its FIN, a read error, or a frame above the cap. */
  datatype Ending = Fin | ReadError | Oversize

  /** A group stream as the network will deliver it: its complete frames, then its ending. */
  datatype GroupStream = GroupStream(seqNo: nat, frames: seq<seq<byte>>, ending: Ending)

  datatype Item = Item(data: seq<byte>, group: nat)

  /** What `ReadFrame` returns. */
  datatype ReadOutcome = NextFrame(item: Item) | Over(why: Failure) | ContextDone

  datatype Failure = Cancelled | FrameTooLarge(group: nat) | Ended

  /** The accept loop inside `enqueue`: holding the queue's lock after seeing the subscription open,
      or past the lock with a wakeup still to send. */
  datatype Accepter = Idle | Holding(stream: GroupStream) | Kicking

  /** Where `run` stands. `Reading(g, sent)` has delivered `sent` frames of `g`. `Abandoned` is a
      subscription whose `Subscribe` failed: it was registered, but its `run` never starts. */
  datatype Runner =
    | Unstarted | Abandoned
    | Top | Parked | Reading(g: GroupStream, sent: nat) | Recheck | Draining | Exited

  /** `queue`, `kick`, `closed`, `err` and `frames` are the code's. The rest is history: streams
      offered, accepted into the queue, refused, drained; how many were taken, where the last was cut
      short; items ever buffered and items read. */
  datatype State = State(
    queue: seq<GroupStream>, kick: bool, closed: bool, err: Option<Failure>, frames: seq<Item>,
    accepter: Accepter, run: Runner,
    offered: seq<GroupStream>, accepted: seq<GroupStream>, refused: seq<GroupStream>, drained: seq<GroupStream>,
    taken: nat, cut: Option<nat>, output: seq<Item>, read: seq<Item>)

  datatype Event =
    | Offer(stream: GroupStream) | Append | Kick
    | Start | Abandon | Pop | Wake | WakeClosed | Deliver | AbortDeliver | GroupEnd | CheckClosed | Drain
    | Fail(why: Failure) | Read

  const INITIAL := State([], false, false, None, [], Idle, Unstarted, [], [], [], [], 0, None, [], [])

  function ItemAt(g: GroupStream, k: nat): Item
    requires k < |g.frames|
  {
    Item(g.frames[k], g.seqNo)
  }

  predicate Enabled(s: State, e: Event) {
    match e
    case Offer(_) => s.accepter.Idle?
    case Append => s.accepter.Holding?
    case Kick => s.accepter.Kicking?
    case Start => s.run.Unstarted?
    case Abandon => s.run.Unstarted?
    case Pop => s.run.Top? && !s.accepter.Holding?
    case Wake => s.run.Parked? && s.kick
    case WakeClosed => s.run.Parked? && s.closed
    case Deliver => s.run.Reading? && s.run.sent < |s.run.g.frames| && |s.frames| < FRAME_BUFFER
    case AbortDeliver => s.run.Reading? && s.run.sent < |s.run.g.frames| && s.closed
    case GroupEnd => s.run.Reading? && s.run.sent >= |s.run.g.frames|
    case CheckClosed => s.run.Recheck?
    case Drain => s.run.Draining? && !s.accepter.Holding?
    case Fail(_) => true
    case Read => s.frames != []
  }

  /** `fail`: only the first failure is recorded. */
  function Failed(s: State, why: Failure): State {
    if s.closed then s else s.(closed := true, err := Some(why))
  }

  function Apply(s: State, e: Event): State
    requires Enabled(s, e)
  {
    match e
    case Offer(g) =>
      if s.closed then s.(offered := s.offered + [g], refused := s.refused + [g])
      else s.(offered := s.offered + [g], accepter := Holding(g))
    case Append =>
      var g := s.accepter.stream;
      s.(queue := s.queue + [g], accepted := s.accepted + [g], accepter := Kicking)
    case Kick => s.(kick := true, accepter := Idle)
    case Start => s.(run := Top)
    case Abandon => s.(run := Abandoned)
    case Pop =>
      if s.queue == [] then s.(run := Parked)
      else s.(queue := s.queue[1..], run := Reading(s.queue[0], 0), taken := s.taken + 1)
    case Wake => s.(kick := false, run := Top)
    case WakeClosed => s.(run := Draining)
    case Deliver =>
      var item := ItemAt(s.run.g, s.run.sent);
      s.(frames := s.frames + [item], output := s.output + [item], run := Reading(s.run.g, s.run.sent + 1))
    case AbortDeliver => s.(run := Recheck, cut := Some(s.run.sent))
    case GroupEnd =>
      (if s.run.g.ending.Oversize? then Failed(s, FrameTooLarge(s.run.g.seqNo)) else s).(run := Recheck)
    case CheckClosed => s.(run := if s.closed then Draining else Top)
    case Drain => s.(queue := [], drained := s.queue, run := Exited)
    case Fail(why) => Failed(s, why)
    case Read => s.(frames := s.frames[1..], read := s.read + [s.frames[0]])
  }

  ghost predicate Legal(s: State, run: seq<Event>)
    decreases run
  {
    run == [] || (Enabled(s, run[0]) && Legal(Apply(s, run[0]), run[1..]))
  }

  ghost function Final(s: State, run: seq<Event>): State
    requires Legal(s, run)
    decreases run
  {
    if run == [] then s else Final(Apply(s, run[0]), run[1..])
  }

  // ---- what the reader should see ----

  function Items(g: GroupStream, n: nat): (items: seq<Item>)
    requires n <= |g.frames|
    ensures |items| == n
  {
    if n == 0 then [] else Items(g, n - 1) + [ItemAt(g, n - 1)]
  }

  /** Every frame of the groups, in their order. */
  function Flat(gs: seq<GroupStream>): seq<Item> {
    if gs == [] then [] else Flat(gs[..|gs| - 1]) + Items(gs[|gs| - 1], |gs[|gs| - 1].frames|)
  }

  /** How far into the last group taken `run` is or was stopped, when it has not finished it. */
  function Partial(s: State): Option<nat> {
    if s.run.Reading? then Some(s.run.sent) else s.cut
  }

  ghost predicate Positioned(s: State) {
    && s.taken <= |s.accepted|
    && (s.run.Reading? ==> s.taken > 0 && s.accepted[s.taken - 1] == s.run.g)
    && (s.cut.Some? ==> s.closed && (s.run.Recheck? || s.run.Draining? || s.run.Exited?))
    && (Partial(s).Some? ==> s.taken > 0 && Partial(s).value <= |s.accepted[s.taken - 1].frames|)
  }

  /** The groups taken before the last in full, then the last one up to where it stands. */
  function Due(s: State): seq<Item>
    requires Positioned(s)
  {
    if Partial(s).Some? then Flat(s.accepted[..s.taken - 1]) + Items(s.accepted[s.taken - 1], Partial(s).value)
    else Flat(s.accepted[..s.taken])
  }

  ghost predicate Wakeful(s: State) {
    s.run.Parked? && s.queue != [] ==> s.kick || s.accepter.Kicking?
  }

  /** Where every offered stream is: taken, still queued, drained, refused, or in the accepter's hands. */
  ghost predicate Accounted(s: State) {
    && s.taken <= |s.accepted|
    && s.accepted[s.taken..] == s.queue + s.drained
    && (s.queue == [] || s.drained == []) && (s.drained != [] ==> s.run.Exited?)
    && s.offered == s.accepted + (if s.accepter.Holding? then [s.accepter.stream] else s.refused)
    && (s.refused != [] ==> s.closed && !s.accepter.Holding?)
    && (s.run.Draining? || s.run.Exited? ==> s.closed)
    && (s.run.Exited? ==> s.queue == [] && !s.accepter.Holding?)
    && (s.run.Unstarted? || s.run.Abandoned? ==> s.taken == 0)
  }

  /** Everything buffered is what is due, and the reader has taken it from the front. */
  ghost predicate Delivered(s: State) {
    && Positioned(s) && s.output == Due(s)
    && s.output == s.read + s.frames && |s.frames| <= FRAME_BUFFER
  }

  ghost predicate Inv(s: State) {
    Wakeful(s) && Accounted(s) && Delivered(s) && s.closed == s.err.Some?
  }

  lemma {:induction false} FlatTake(gs: seq<GroupStream>, n: nat)
    requires 0 < n <= |gs|
    ensures Flat(gs[..n]) == Flat(gs[..n - 1]) + Items(gs[n - 1], |gs[n - 1].frames|)
  {
    assert gs[..n][..n - 1] == gs[..n - 1];
  }

  lemma {:induction false} WakefulKeeps(s: State, e: Event)
    requires Inv(s) && Enabled(s, e)
    ensures Wakeful(Apply(s, e))
  {
    hide Delivered, Accounted;
  }

  /** The queue's head is the next group accepted. */
  lemma {:induction false} HeadNext(s: State)
    requires Accounted(s) && s.queue != []
    ensures s.taken < |s.accepted| && s.accepted[s.taken] == s.queue[0]
    ensures s.accepted[s.taken + 1..] == s.queue[1..] + s.drained
  {
    assert s.accepted[s.taken..][0] == s.queue[0] && s.accepted[s.taken..][1..] == s.queue[1..] + s.drained;
  }

  lemma {:induction false} QueueKeeps(s: State, e: Event)
    requires Inv(s) && Enabled(s, e) && (e.Pop? || e.Append? || e.Drain? || e.Offer?)
    ensures Accounted(Apply(s, e))
  {
    hide Delivered, Wakeful;
    if e.Pop? && s.queue != [] {
      HeadNext(s);
    } else if e.Append? {
      assert (s.accepted + [s.accepter.stream])[s.taken..] == s.accepted[s.taken..] + [s.accepter.stream];
    }
  }

  lemma {:induction false} SameAccounts(s: State, t: State)
    requires Accounted(s) && t.queue == s.queue && t.drained == s.drained && t.accepted == s.accepted
    requires t.offered == s.offered && t.refused == s.refused && t.taken == s.taken && (s.closed ==> t.closed)
    requires t.accepter == s.accepter || (s.accepter.Kicking? && t.accepter.Idle?)
    requires t.run.Draining? ==> t.closed
    requires t.run.Exited? <==> s.run.Exited?
    requires t.run.Unstarted? || t.run.Abandoned? ==> s.run.Unstarted? || s.run.Abandoned?
    ensures Accounted(t)
  {
  }

  lemma {:induction false} AccountedKeeps(s: State, e: Event)
    requires Inv(s) && Enabled(s, e)
    ensures Accounted(Apply(s, e))
  {
    hide Delivered, Wakeful, Accounted, ItemAt, Apply;
    if e.Pop? || e.Append? || e.Drain? || e.Offer? {
      QueueKeeps(s, e);
    } else {
      RestAccounts(s, e);
      SameAccounts(s, Apply(s, e));
    }
  }

  lemma {:induction false} RestAccounts(s: State, e: Event)
    requires Accounted(s) && Enabled(s, e) && !e.Pop? && !e.Append? && !e.Drain? && !e.Offer?
    ensures var t := Apply(s, e);
            && t.queue == s.queue && t.drained == s.drained && t.accepted == s.accepted
            && t.offered == s.offered && t.refused == s.refused && t.taken == s.taken && (s.closed ==> t.closed)
            && (t.accepter == s.accepter || (s.accepter.Kicking? && t.accepter.Idle?))
            && (t.run.Draining? ==> t.closed) && (t.run.Exited? <==> s.run.Exited?)
            && (t.run.Unstarted? || t.run.Abandoned? ==> s.run.Unstarted? || s.run.Abandoned?)
  {
    hide ItemAt;
  }

  lemma {:induction false} PopPositioned(s: State)
    requires Inv(s) && Enabled(s, Pop)
    ensures Positioned(Apply(s, Pop))
  {
    if s.queue != [] { HeadNext(s); }
    hide Accounted, Wakeful, Due, Flat, Items;
  }

  lemma {:induction false} ReadingPositioned(s: State, e: Event)
    requires Inv(s) && Enabled(s, e) && (e.Deliver? || e.AbortDeliver? || e.GroupEnd?)
    ensures Positioned(Apply(s, e))
  {
    hide Accounted, Wakeful, Due, Flat, Items, ItemAt;
  }

  lemma {:induction false} RestPositioned(s: State, e: Event)
    requires Inv(s) && Enabled(s, e) && !e.Pop? && !e.Deliver? && !e.AbortDeliver? && !e.GroupEnd?
    ensures Positioned(Apply(s, e))
  {
    hide Accounted, Wakeful, Due, Flat, Items, ItemAt;
    var t := Apply(s, e);
    assert s.accepted <= t.accepted && t.taken == s.taken;
    assert s.taken > 0 ==> t.accepted[s.taken - 1] == s.accepted[s.taken - 1];
  }

  lemma {:induction false} PositionedKeeps(s: State, e: Event)
    requires Inv(s) && Enabled(s, e)
    ensures Positioned(Apply(s, e))
  {
    hide Inv, Apply;
    if e.Pop? {
      PopPositioned(s);
    } else if e.Deliver? || e.AbortDeliver? || e.GroupEnd? {
      ReadingPositioned(s, e);
    } else {
      RestPositioned(s, e);
    }
  }

  lemma {:induction false} PopKeeps(s: State)
    requires Inv(s) && Enabled(s, Pop) && Positioned(Apply(s, Pop))
    ensures Due(Apply(s, Pop)) == s.output
  {
    hide Accounted, Wakeful, Flat;
    assert Partial(s).None?;
  }

  lemma {:induction false} GroupEndKeeps(s: State)
    requires Inv(s) && Enabled(s, GroupEnd) && Positioned(Apply(s, GroupEnd))
    ensures Due(Apply(s, GroupEnd)) == s.output
  {
    hide Accounted, Wakeful, Flat, Items;
    FlatTake(s.accepted, s.taken);
  }

  /** What is due depends only on the accepted groups taken and where the last one stands. */
  lemma {:induction false} DueSame(s: State, t: State)
    requires Positioned(s) && Positioned(t)
    requires t.taken == s.taken && Partial(t) == Partial(s) && t.accepted[..s.taken] == s.accepted[..s.taken]
    ensures Due(t) == Due(s)
  {
    if s.taken > 0 {
      assert t.accepted[s.taken - 1] == t.accepted[..s.taken][s.taken - 1];
      assert t.accepted[..s.taken - 1] == t.accepted[..s.taken][..s.taken - 1];
      assert s.accepted[..s.taken - 1] == s.accepted[..s.taken][..s.taken - 1];
    }
  }

  lemma {:induction false} DeliverKeeps(s: State)
    requires Inv(s) && Enabled(s, Deliver) && Positioned(Apply(s, Deliver))
    ensures Due(Apply(s, Deliver)) == s.output + [ItemAt(s.run.g, s.run.sent)]
  {
    hide Accounted, Wakeful, Flat, Items, ItemAt;
    var k, g := s.run.sent, s.run.g;
    ItemsNext(g, k);
    var before := Flat(s.accepted[..s.taken - 1]);
    assert before + (Items(g, k) + [ItemAt(g, k)]) == before + Items(g, k) + [ItemAt(g, k)];
  }

  lemma {:induction false} ItemsNext(g: GroupStream, k: nat)
    requires k < |g.frames|
    ensures Items(g, k + 1) == Items(g, k) + [ItemAt(g, k)]
  {
  }

  lemma {:induction false} DeliveredKeeps(s: State, e: Event)
    requires Inv(s) && Enabled(s, e)
    ensures Delivered(Apply(s, e))
  {
    hide Accounted, Wakeful, Due, Flat, Items;
    PositionedKeeps(s, e);
    var t := Apply(s, e);
    match e
    case Pop => PopKeeps(s);
    case GroupEnd => GroupEndKeeps(s);
    case Deliver => DeliverKeeps(s);
    case _ =>
      assert s.taken <= |s.accepted| && t.accepted[..s.taken] == s.accepted[..s.taken];
      DueSame(s, t);
  }

  lemma {:induction false} ClosedKeeps(s: State, e: Event)
    requires s.closed == s.err.Some? && Enabled(s, e)
    ensures Apply(s, e).closed == Apply(s, e).err.Some?
  {
  }

  lemma {:induction false} StepKeeps(s: State, e: Event)
    requires Inv(s) && Enabled(s, e)
    ensures Inv(Apply(s, e))
  {
    hide Wakeful, Accounted, Delivered, Apply, Enabled;
    WakefulKeeps(s, e);
    AccountedKeeps(s, e);
    DeliveredKeeps(s, e);
    ClosedKeeps(s, e);
  }

  lemma {:induction false} RunKeeps(s: State, run: seq<Event>)
    requires Inv(s) && Legal(s, run)
    ensures Inv(Final(s, run))
    decreases run
  {
    if run != [] {
      StepKeeps(s, run[0]);
      RunKeeps(Apply(s, run[0]), run[1..]);
    }
  }

  /** A state some interleaving reaches. */
  ghost predicate Reachable(s: State) {
    exists run :: Legal(INITIAL, run) && Final(INITIAL, run) == s
  }

  lemma {:induction false} ReachableInv(s: State)
    requires Reachable(s)
    ensures Inv(s)
  {
    var run :| Legal(INITIAL, run) && Final(INITIAL, run) == s;
    InitialInv();
    RunKeeps(INITIAL, run);
  }

  lemma {:induction false} InitialInv()
    ensures Inv(INITIAL)
  {
    assert INITIAL.accepted[..0] == [];
  }

  // ---- the guarantees ----

  /** A goroutine parked beside a non-empty queue has a token waiting, or an enqueuer about to send one. */
  lemma {:induction false} NoLostWakeup(s: State)
    requires Reachable(s) && s.run.Parked? && s.queue != []
    ensures Enabled(s, Wake) || (Enabled(s, Kick) && Enabled(Apply(s, Kick), Wake))
  {
    ReachableInv(s);
  }

  lemma {:induction false} ItemsPrefix(g: GroupStream, n: nat, m: nat)
    requires n <= m <= |g.frames|
    ensures Items(g, n) <= Items(g, m)
  {
    if n < m { ItemsPrefix(g, n, m - 1); }
  }

  lemma {:induction false} FlatPrefix(gs: seq<GroupStream>, n: nat)
    requires n <= |gs|
    ensures Flat(gs[..n]) <= Flat(gs)
  {
    if n < |gs| {
      FlatPrefix(gs[..|gs| - 1], n);
      assert gs[..|gs| - 1][..n] == gs[..n];
    } else {
      assert gs[..n] == gs;
    }
  }

  /** The reader sees the accepted groups' frames in accept order, with nothing skipped or repeated:
      what has been read is a prefix of them all. */
  lemma {:induction false} ReadsInOrder(s: State)
    requires Reachable(s)
    ensures s.read <= s.read + s.frames <= Flat(s.accepted)
  {
    ReachableInv(s);
    FlatPrefix(s.accepted, s.taken);
    if Partial(s).Some? {
      var g := s.accepted[s.taken - 1];
      FlatTake(s.accepted, s.taken);
      ItemsPrefix(g, Partial(s).value, |g.frames|);
    }
  }

  /** Nothing is lost while the subscription is open: once it is quiet, every frame of every accepted
      group has been read or is buffered. */
  lemma {:induction false} QuietMeansComplete(s: State)
    requires Reachable(s) && !s.closed && s.run.Parked? && !s.kick && s.accepter.Idle?
    ensures s.queue == [] && s.read + s.frames == Flat(s.accepted)
  {
    ReachableInv(s);
    assert s.accepted[..s.taken] == s.accepted;
  }

  /** After the goroutine exits no stream is queued: each offered one was taken, drained or refused,
      in offer order, and at most the last one taken was cut short. */
  lemma {:induction false} ExitLeavesNothing(s: State)
    requires Reachable(s) && s.run.Exited?
    ensures s.queue == [] && s.closed && s.taken <= |s.accepted|
    ensures s.offered == s.accepted[..s.taken] + s.drained + s.refused
    ensures s.cut.None? ==> s.read + s.frames == Flat(s.accepted[..s.taken])
    ensures s.cut.Some? ==>
      && 0 < s.taken && s.cut.value <= |s.accepted[s.taken - 1].frames|
      && s.read + s.frames == Flat(s.accepted[..s.taken - 1]) + Items(s.accepted[s.taken - 1], s.cut.value)
  {
    ReachableInv(s);
    assert s.accepted == s.accepted[..s.taken] + s.accepted[s.taken..];
  }

  /** Exit, closure and the first recorded failure are for good, and a closed queue takes no offer
      made from then on. */
  lemma {:induction false} ClosedForGood(s: State, e: Event)
    requires Reachable(s) && Enabled(s, e) && s.closed
    ensures var t := Apply(s, e);
      t.closed && t.err == s.err && s.err.Some? && (s.run.Exited? ==> t.run.Exited? && t.queue == []) &&
      (e.Offer? ==> t.queue == s.queue && t.refused == s.refused + [e.stream])
  {
    ReachableInv(s);
    StepKeeps(s, e);
  }

  /** The goroutine is stuck only on a full buffer with the subscription open, on the queue's lock
      while the accept loop holds it, or on an empty queue; it never deadlocks. */
  lemma {:induction false} RunnerNeverStuck(s: State)
    requires Reachable(s) && !s.run.Unstarted? && !s.run.Abandoned? && !s.run.Exited?
    ensures (exists e :: RunnerEvent(e) && Enabled(s, e))
      || (s.run.Reading? && |s.frames| == FRAME_BUFFER && !s.closed && Enabled(s, Read))
      || (s.accepter.Holding? && Enabled(s, Append))
      || (s.run.Parked? && s.accepter.Kicking? && Enabled(Apply(s, Kick), Wake))
      || (s.run.Parked? && s.queue == [])
  {
    ReachableInv(s);
    hide Apply, Inv, Reachable;
    var e := match s.run
      case Top => Pop
      case Parked => if s.closed then WakeClosed else Wake
      case Reading(g, sent) => if sent >= |g.frames| then GroupEnd else if s.closed then AbortDeliver else Deliver
      case Recheck => CheckClosed
      case _ => Drain;
    assert RunnerEvent(e);
    if s.run.Parked? && s.accepter.Kicking? { WakeAfterKick(s); }
  }

  lemma {:induction false} WakeAfterKick(s: State)
    requires s.run.Parked? && s.accepter.Kicking?
    ensures Enabled(Apply(s, Kick), Wake)
  {
  }

  predicate RunnerEvent(e: Event) {
    e.Pop? || e.Wake? || e.WakeClosed? || e.Deliver? || e.AbortDeliver? || e.GroupEnd? || e.CheckClosed? || e.Drain?
  }

  /** Steps the goroutine still needs before it takes the head of an open, non-empty queue. */
  function Distance(run: Runner): nat {
    match run
    case Top => 0
    case Parked => 1
    case Recheck => 1
    case Reading(g, sent) => if sent < |g.frames| then 2 + |g.frames| - sent else 2
    case _ => 0
  }

  /** Bounded progress: while the subscription stays open every step of the goroutine takes the head
      of a non-empty queue or gets strictly closer to it, and no other step moves it away. */
  lemma {:induction false} HeadIsTaken(s: State, e: Event)
    requires Reachable(s) && Enabled(s, e) && s.queue != [] && !Apply(s, e).closed
    ensures var t := Apply(s, e);
      if e.Pop? then t.run == Reading(s.queue[0], 0) && t.queue == s.queue[1..]
      else s.queue <= t.queue && (if RunnerEvent(e) then Distance(t.run) < Distance(s.run)
                                  else e.Start? || e.Abandon? || t.run == s.run)
  {
    ReachableInv(s);
  }

  // ---- oversized frames ----

  /** The goroutine took group `i` and left it by itself, at its end and not because of closure. */
  predicate Finished(s: State, i: nat) {
    i < s.taken && (i == s.taken - 1 ==> !s.run.Reading? && s.cut.None?)
  }

  /** Only the last group taken can have ended in an oversized frame; the subscription is closed then, and
      no other group is taken. */
  ghost predicate LoudEnds(s: State) {
    && s.taken <= |s.accepted|
    && (forall i :: 0 <= i < s.taken && Finished(s, i) && s.accepted[i].ending.Oversize? ==>
          i == s.taken - 1 && s.closed && Leaving(s.run))
  }

  predicate Leaving(run: Runner) { run.Recheck? || run.Draining? || run.Exited? }

  /** How a step moves what these invariants speak of. */
  ghost predicate Moved(s: State, e: Event, t: State) {
    && s.accepted <= t.accepted && t.taken <= |t.accepted| && (s.closed ==> t.closed && t.err == s.err)
    && (s.closed && Leaving(s.run) ==> Leaving(t.run))
    && (if e.Pop? && s.queue != []
        then t.taken == s.taken + 1 && t.run.Reading? && s.run.Top? && s.cut.None?
        else t.taken == s.taken)
    && (t.taken == s.taken && !e.GroupEnd? && s.taken > 0 ==> (Finished(t, s.taken - 1) ==> Finished(s, s.taken - 1)))
    && (!e.GroupEnd? && !e.Fail? ==> t.err == s.err && t.closed == s.closed)
  }

  lemma {:induction false} PopMoves(s: State)
    requires Inv(s) && Enabled(s, Pop)
    ensures Moved(s, Pop, Apply(s, Pop))
  {
    if s.queue != [] { HeadNext(s); }
    hide Accounted, Wakeful, Due, Flat, Items, ItemAt;
  }

  lemma {:induction false} RestMoves(s: State, e: Event)
    requires Positioned(s) && s.closed == s.err.Some? && Enabled(s, e) && !e.Pop?
    ensures Moved(s, e, Apply(s, e))
  {
    hide ItemAt;
  }

  lemma {:induction false} Moves(s: State, e: Event)
    requires Inv(s) && Enabled(s, e)
    ensures Moved(s, e, Apply(s, e))
  {
    hide Wakeful, Accounted, Due, Enabled, Apply, Moved, Positioned;
    if e.Pop? { PopMoves(s); } else { RestMoves(s, e); }
  }

  lemma {:induction false} GroupEndMoves(s: State)
    requires Inv(s) && Enabled(s, GroupEnd)
    ensures var t, g := Apply(s, GroupEnd), s.run.g;
            && s.taken > 0 && s.taken <= |s.accepted| && s.accepted[s.taken - 1] == g && t.accepted == s.accepted
            && t.taken == s.taken && t.run.Recheck? && !Finished(s, s.taken - 1)
            && (g.ending.Oversize? ==> t.closed)
            && (g.ending.Oversize? && !s.closed ==> t.err == Some(FrameTooLarge(g.seqNo)))
            && (!g.ending.Oversize? ==> t.closed == s.closed && t.err == s.err)
  {
    hide Wakeful, Accounted, Due, Flat, Items, ItemAt;
  }

  lemma {:induction false} LoudKeeps(s: State, e: Event)
    requires Inv(s) && Enabled(s, e) && LoudEnds(s)
    ensures LoudEnds(Apply(s, e))
  {
    hide Inv, Apply, Enabled;
    Moves(s, e);
    if e.GroupEnd? { GroupEndMoves(s); }
    var t := Apply(s, e);
    forall i | 0 <= i < t.taken && Finished(t, i) && t.accepted[i].ending.Oversize?
      ensures i == t.taken - 1 && t.closed && Leaving(t.run) {
      LoudOne(s, e, t, i);
    }
  }

  lemma {:induction false} LoudOne(s: State, e: Event, t: State, i: nat)
    requires LoudEnds(s) && s.accepted <= t.accepted && i < t.taken <= |t.accepted|
    requires Finished(t, i) && t.accepted[i].ending.Oversize?
    requires s.closed ==> t.closed
    requires s.closed && Leaving(s.run) ==> Leaving(t.run)
    requires t.taken == s.taken || (t.taken == s.taken + 1 && t.run.Reading? && s.run.Top? && s.cut.None?)
    requires t.taken == s.taken ==>
               (Finished(t, s.taken - 1) ==> Finished(s, s.taken - 1)) ||
               (t.run.Recheck? && (t.accepted[s.taken - 1].ending.Oversize? ==> t.closed))
    ensures i == t.taken - 1 && t.closed && Leaving(t.run)
  {
    if i < s.taken {
      assert t.accepted[i] == s.accepted[i];
      assert i < s.taken - 1 ==> Finished(s, i);
    }
  }

  lemma {:induction false} LoudRun(s: State, run: seq<Event>)
    requires Inv(s) && LoudEnds(s) && Legal(s, run)
    ensures LoudEnds(Final(s, run))
    decreases run
  {
    hide Inv, LoudEnds, Apply;
    if run != [] {
      StepKeeps(s, run[0]);
      LoudKeeps(s, run[0]);
      LoudRun(Apply(s, run[0]), run[1..]);
    }
  }

  /** An oversized frame is never passed over: a subscription that has finished with the group it was in is
      closed, and takes no group after it. */
  lemma {:induction false} OversizeNeverSkipped(s: State, i: nat)
    requires Reachable(s) && i < |s.accepted| && Finished(s, i) && s.accepted[i].ending.Oversize?
    ensures s.closed && i == s.taken - 1 && !s.run.Top? && !s.run.Parked? && !s.run.Reading?
  {
    var run :| Legal(INITIAL, run) && Final(INITIAL, run) == s;
    InitialInv();
    LoudRun(INITIAL, run);
  }

  /** The first failure stays, whatever happens next. */
  lemma {:induction false} ErrStays(s: State, run: seq<Event>)
    requires s.closed && Legal(s, run)
    ensures Final(s, run).closed && Final(s, run).err == s.err
    decreases run
  {
    if run != [] { ErrStays(Apply(s, run[0]), run[1..]); }
  }

  /** The end of a group: one that ends in an oversized frame fails an open subscription with that group's
      number, for good; a clean end or a read error fails nothing. */
  lemma {:induction false} GroupEndExact(s: State, more: seq<Event>)
    requires Reachable(s) && Enabled(s, GroupEnd) && Legal(Apply(s, GroupEnd), more)
    ensures var g, t, u := s.run.g, Apply(s, GroupEnd), Final(Apply(s, GroupEnd), more);
            && (!s.closed && g.ending == Oversize ==> t.closed && u.closed && u.err == Some(FrameTooLarge(g.seqNo)))
            && (g.ending != Oversize ==> t.closed == s.closed && t.err == s.err)
            && 0 < t.taken == s.taken <= |t.accepted| && Finished(t, t.taken - 1) && t.accepted[t.taken - 1] == g
  {
    ReachableInv(s);
    GroupEndMoves(s);
    GroupEndFinishes(s);
    hide Reachable, Inv, Apply, Enabled;
    if Apply(s, GroupEnd).closed { ErrStays(Apply(s, GroupEnd), more); }
  }

  lemma {:induction false} GroupEndFinishes(s: State)
    requires Inv(s) && Enabled(s, GroupEnd)
    ensures s.taken > 0 && Finished(Apply(s, GroupEnd), s.taken - 1)
  {
    hide Wakeful, Accounted, Due;
  }

  predicate NoFail(run: seq<Event>) { forall i :: 0 <= i < |run| ==> !run[i].Fail? }

  /** Closed exactly when the last group taken is finished and was oversized, and then with its number. */
  ghost predicate OnlyOversize(s: State) {
    s.taken <= |s.accepted| &&
    if s.taken > 0 && Finished(s, s.taken - 1) && s.accepted[s.taken - 1].ending.Oversize?
    then s.err == Some(FrameTooLarge(s.accepted[s.taken - 1].seqNo))
    else s.err == None
  }

  lemma {:induction false} OnlyOversizeKeeps(s: State, e: Event)
    requires Inv(s) && LoudEnds(s) && OnlyOversize(s) && Enabled(s, e) && !e.Fail?
    ensures OnlyOversize(Apply(s, e))
  {
    Moves(s, e);
    if s.taken > 0 { StaysFinished(s, e); }
    if e.GroupEnd? { GroupEndMoves(s); }
    hide Apply, Enabled, Wakeful, Accounted, Delivered;
    if s.taken > 0 { assert Apply(s, e).accepted[s.taken - 1] == s.accepted[s.taken - 1]; }
  }

  lemma {:induction false} StaysFinished(s: State, e: Event)
    requires Inv(s) && Enabled(s, e) && s.taken > 0
    ensures Finished(s, s.taken - 1) && s.err.Some? ==> Finished(Apply(s, e), s.taken - 1) || e.Pop?
    ensures Finished(s, s.taken - 1) && !e.Pop? && !e.AbortDeliver? ==> Finished(Apply(s, e), s.taken - 1)
  {
    hide Wakeful, Accounted, Due, Flat, Items, ItemAt;
  }

  lemma {:induction false} OnlyOversizeRun(s: State, run: seq<Event>)
    requires Inv(s) && LoudEnds(s) && OnlyOversize(s) && Legal(s, run) && NoFail(run)
    ensures OnlyOversize(Final(s, run))
    decreases run
  {
    hide Inv, LoudEnds, Apply, OnlyOversize;
    if run != [] {
      StepKeeps(s, run[0]);
      LoudKeeps(s, run[0]);
      OnlyOversizeKeeps(s, run[0]);
      forall i | 0 <= i < |run[1..]| ensures !run[1..][i].Fail? { assert run[1..][i] == run[i + 1]; }
      OnlyOversizeRun(Apply(s, run[0]), run[1..]);
    }
  }

  /** When nobody closes it and its control stream does not end, a subscription fails exactly by a group
      that ended in an oversized frame, and the reader is told which. */
  lemma {:induction false} OversizeFailsExact(run: seq<Event>)
    requires Legal(INITIAL, run) && NoFail(run)
    ensures var s := Final(INITIAL, run);
            && s.taken <= |s.accepted|
            && (s.closed <==> exists i :: 0 <= i < s.taken && Finished(s, i) && s.accepted[i].ending.Oversize?)
            && (s.closed ==> s.err == Some(FrameTooLarge(s.accepted[s.taken - 1].seqNo)))
  {
    InitialInv();
    RunKeeps(INITIAL, run);
    LoudRun(INITIAL, run);
    OnlyOversizeRun(INITIAL, run);
    hide Wakeful, Accounted, Delivered, Legal, Final;
  }

  /** Nothing queued and no token left: the goroutine parks and stays parked, until something is enqueued
      or the subscription closes. */
  lemma {:induction false} NoSpinning(s: State, e: Event)
    requires Reachable(s) && Enabled(s, Wake) && !s.closed && s.queue == [] && s.accepter.Idle?
    ensures Enabled(Apply(s, Wake), Pop)
    ensures var t := Apply(Apply(s, Wake), Pop); t.run.Parked? && (RunnerEvent(e) ==> !Enabled(t, e))
  {
  }

  // ---- a subscribe that fails ----

  /** Once a subscription is over, with the accept loop out of `enqueue`, no stream is left queued
      exactly when its goroutine ran, or nothing was ever accepted for it. */
  lemma {:induction false} OverLeavesNothing(s: State)
    requires Reachable(s) && s.accepter.Idle? && (s.run.Exited? || s.run.Abandoned?)
    ensures s.queue == [] <==> s.run.Exited? || s.accepted == []
  {
    ReachableInv(s);
    assert s.accepted[0..] == s.accepted;
  }

  /** An abandoned subscription never gives up a stream it queued. */
  lemma {:induction false} AbandonedKeeps(s: State, run: seq<Event>)
    requires s.run.Abandoned? && Legal(s, run)
    ensures Final(s, run).run.Abandoned? && s.queue <= Final(s, run).queue
    decreases run
  {
    if run != [] { AbandonedKeeps(Apply(s, run[0]), run[1..]); }
  }

  /** A group accepted before a subscribe that then fails stays at the head of the queue whatever
      happens next: nobody is left to take it, drain it or cancel it. */
  lemma {:induction false} FailedSubscribeStrands(g: GroupStream, more: seq<Event>)
    requires Legal(INITIAL, [Offer(g), Append, Kick, Abandon] + more)
    ensures var t := Final(INITIAL, [Offer(g), Append, Kick, Abandon] + more);
            t.run.Abandoned? && t.queue != [] && t.queue[0] == g
  {
    var run := [Offer(g), Append, Kick, Abandon] + more;
    var s1 := Apply(INITIAL, Offer(g));
    var s2 := Apply(s1, Append);
    var s3 := Apply(s2, Kick);
    var s4 := Apply(s3, Abandon);
    assert run[1..] == [Append, Kick, Abandon] + more && run[1..][1..] == [Kick, Abandon] + more;
    assert run[1..][1..][1..] == [Abandon] + more && run[1..][1..][1..][1..] == more;
    FinalNext(INITIAL, run);
    FinalNext(s1, run[1..]);
    FinalNext(s2, run[1..][1..]);
    FinalNext(s3, run[1..][1..][1..]);
    AbandonedKeeps(s4, more);
  }

  lemma {:induction false} FinalNext(s: State, run: seq<Event>)
    requires run != [] && Legal(s, run)
    ensures Legal(Apply(s, run[0]), run[1..]) && Final(s, run) == Final(Apply(s, run[0]), run[1..])
  {
  }

  /** And such a run exists. */
  lemma {:induction false} SubscribeCanFail(g: GroupStream)
    ensures Legal(INITIAL, [Offer(g), Append, Kick, Abandon])
  {
    var run := [Offer(g), Append, Kick, Abandon];
    var s3 := Apply(Apply(Apply(INITIAL, Offer(g)), Append), Kick);
    assert run[1..] == [Append, Kick, Abandon] && run[1..][1..] == [Kick, Abandon] && run[1..][1..][1..] == [Abandon];
    assert Legal(Apply(s3, Abandon), []) && Legal(s3, [Abandon]);
    assert Legal(Apply(Apply(INITIAL, Offer(g)), Append), [Kick, Abandon]);
  }

  // ---- the critical sections ----

  /** Each method runs one stretch of the code from lock or select to the next, and is that step. */
  class ClientSubscription {
    var queue: seq<GroupStream>
    var kick: bool
    var closed: bool
    var err: Option<Failure>
    var frames: seq<Item>
    /** Positions of the two goroutines and the history; its other fields are not used. */
    ghost var rest: State

    ghost function Now(): State
      reads this
    {
      rest.(queue := queue, kick := kick, closed := closed, err := err, frames := frames)
    }

    constructor ()
      ensures Now() == INITIAL
    {
      queue, kick, closed, err, frames := [], false, false, None, [];
      rest := INITIAL;
    }

    /** The accept loop's `enqueue`, when nothing interleaves with it. */
    method Enqueue(gs: GroupStream)
      requires Now().accepter.Idle?
      modifies this
      ensures old(closed) ==> Now() == Apply(old(Now()), Offer(gs))
      ensures !old(closed) ==> Now() == Apply(Apply(Apply(old(Now()), Offer(gs)), Append), Kick)
    {
      rest := rest.(offered := rest.offered + [gs]);
      if closed {
        rest := rest.(refused := rest.refused + [gs]);
        return;
      }
      queue := queue + [gs];
      rest := rest.(accepted := rest.accepted + [gs]);
      if !kick { kick := true; }
    }

    /** The locked section at the top of `run`. */
    method TakeGroup() returns (gs: Option<GroupStream>)
      requires Enabled(Now(), Pop)
      modifies this
      ensures Now() == Apply(old(Now()), Pop)
      ensures gs == if old(queue) == [] then None else Some(old(queue)[0])
    {
      if |queue| == 0 {
        rest := rest.(run := Parked);
        return None;
      }
      gs := Some(queue[0]);
      queue := queue[1..];
      rest := rest.(run := Reading(gs.value, 0), taken := rest.taken + 1);
    }

    /** The select of an empty-handed `run`, once a token or closure is there; with both either may win. */
    method Wait(preferClosed: bool) returns (woken: bool)
      requires Enabled(Now(), Wake) || Enabled(Now(), WakeClosed)
      modifies this
      ensures woken ==> Enabled(old(Now()), Wake) && Now() == Apply(old(Now()), Wake)
      ensures !woken ==> Enabled(old(Now()), WakeClosed) && Now() == Apply(old(Now()), WakeClosed)
    {
      woken := kick && !(closed && preferClosed);
      if woken { kick := false; }
      rest := rest.(run := if woken then Top else Draining);
    }

    /** How `readGroup` returns when it was not cut short: a frame above the cap fails the subscription. */
    method EndGroup(gs: GroupStream)
      requires Enabled(Now(), GroupEnd) && gs == Now().run.g
      modifies this
      ensures Now() == Apply(old(Now()), GroupEnd)
      ensures gs.ending.Oversize? && !old(closed) ==> closed && err == Some(FrameTooLarge(gs.seqNo))
      ensures !gs.ending.Oversize? ==> closed == old(closed) && err == old(err)
    {
      if gs.ending.Oversize? { Fail(FrameTooLarge(gs.seqNo)); }
      rest := rest.(run := Recheck);
    }

    /** The check after each group: closed, the goroutine goes on to drain; open, to the next group. */
    method CheckEnded() returns (ended: bool)
      requires Enabled(Now(), CheckClosed)
      modifies this
      ensures Now() == Apply(old(Now()), CheckClosed) && ended == closed
    {
      ended := closed;
      rest := rest.(run := if ended then Draining else Top);
    }

    /** `deliver`: with the buffer full it waits for closure, with both ready either may win. */
    method Deliver(item: Item, preferClosed: bool) returns (sent: bool)
      requires Enabled(Now(), Event.Deliver) || Enabled(Now(), AbortDeliver)
      requires Now().run.Reading? && Now().run.sent < |Now().run.g.frames|
      requires item == ItemAt(Now().run.g, Now().run.sent)
      modifies this
      ensures sent ==> Enabled(old(Now()), Event.Deliver) && Now() == Apply(old(Now()), Event.Deliver)
      ensures !sent ==> Enabled(old(Now()), AbortDeliver) && Now() == Apply(old(Now()), AbortDeliver)
    {
      sent := |frames| < FRAME_BUFFER && !(closed && preferClosed);
      ghost var g, k := rest.run.g, rest.run.sent;
      if sent {
        frames := frames + [item];
        rest := rest.(output := rest.output + [item], run := Reading(g, k + 1));
      } else {
        rest := rest.(run := Recheck, cut := Some(k));
      }
    }

    /** `ReadFrame`, from the moment one of its arms is ready: a buffered frame, closure, or the caller's
        context ending. With several ready any may win, except that closure yields to a buffered frame
        and the failure comes only once none is left. */
    method ReadFrame(cancelled: bool, preferCancelled: bool) returns (r: ReadOutcome)
      requires frames != [] || closed || cancelled
      requires closed == err.Some?
      modifies this
      ensures r.NextFrame? ==> old(frames) != [] && r.item == old(frames)[0] && Now() == Apply(old(Now()), Read)
      ensures !r.NextFrame? ==> Now() == old(Now())
      ensures r.Over? ==> frames == [] && closed && err == Some(r.why)
      ensures r.ContextDone? ==> cancelled
      ensures old(frames) != [] && !cancelled ==> r.NextFrame?
    {
      if cancelled && (preferCancelled || (|frames| == 0 && !closed)) { return ContextDone; }
      if |frames| == 0 { return Over(err.value); }
      r := NextFrame(frames[0]);
      rest := rest.(read := rest.read + [frames[0]]);
      frames := frames[1..];
    }

    method DrainQueue() returns (cancelled: seq<GroupStream>)
      requires Enabled(Now(), Drain)
      modifies this
      ensures Now() == Apply(old(Now()), Drain) && cancelled == old(queue)
    {
      cancelled := queue;
      queue := [];
      rest := rest.(drained := cancelled, run := Exited);
    }

    method Fail(why: Failure)
      modifies this
      ensures Now() == Apply(old(Now()), Event.Fail(why))
    {
      if !closed {
        err := Some(why);
        closed := true;
      }
    }
  }
}
