/** One upstream connection (ingest.rs `relay_frames`): the biased select over messages, the idle
    timer and the ping ticker. Re-arming the timer only when it fires is the same, seen from outside,
    as resetting it on every message. */
module IdleTimer {
  import opened Bytes
  import F = Frame

  /** Milliseconds. */
  const IDLE_TIMEOUT: nat := 45_000
  const PING_INTERVAL: nat := 15_000

  datatype Message = Binary(raw: seq<byte>) | PingPong | Other | Close | Failure | EndOfStream

  datatype Ending = Silent | PingTimedOut | PingFailed | Closed | ReadFailed | ReceiverGone

  /** `lastRx` and `armed`, the timer's deadline, are the loop's; the timer was created at `created`. */
  datatype State = State(
    now: nat, lastRx: nat, created: nat, armed: nat, forwarded: seq<F.Frame>, rejected: nat, ended: Option<Ending>)

  /** Time passing outside the loop's own waits, or one turn of the select: what is readable, whether
      the ping ticker is due and its write succeeds, how long the chosen branch takes, and whether the
      receiver still lives. */
  datatype Event =
    | Elapse(ms: nat)
    | Turn(input: Option<Message>, pingDue: bool, pingOk: bool, took: nat, receiver: bool)

  /** The loop starts: `last_rx` is read first, the timer is created `gap` later. */
  function Started(t: nat, gap: nat): State {
    State(t + gap, t, t + gap, t + gap + IDLE_TIMEOUT, [], 0, None)
  }

  /** A readable message, and the stamp after handling it. */
  function Handled(s: State, m: Message, took: nat, receiver: bool): State {
    var stamped := s.(now := s.now + took, lastRx := s.now + took);
    match m
    case Binary(raw) =>
      (match F.Parse(raw)
       case Accepted(frame) =>
         if receiver then stamped.(forwarded := s.forwarded + [frame])
         else s.(now := s.now + took, ended := Some(ReceiverGone))
       case Refused(_) => stamped.(rejected := s.rejected + 1))
    case PingPong => stamped
    case Other => stamped
    case Close => s.(ended := Some(Closed))
    case EndOfStream => s.(ended := Some(Closed))
    case Failure => s.(ended := Some(ReadFailed))
  }

  function Pinged(s: State, took: nat, ok: bool): State {
    if took > PING_INTERVAL then s.(now := s.now + PING_INTERVAL, ended := Some(PingTimedOut))
    else if !ok then s.(now := s.now + took, ended := Some(PingFailed))
    else s.(now := s.now + took)
  }

  /** The code's turn. */
  function Lazy(s: State, e: Event): State {
    if s.ended.Some? then s else
      match e
      case Elapse(ms) => s.(now := s.now + ms)
      case Turn(input, pingDue, pingOk, took, receiver) =>
        if input.Some? then Handled(s, input.value, took, receiver)
        else if s.armed <= s.now then
          if s.now < s.lastRx + IDLE_TIMEOUT then s.(armed := s.lastRx + IDLE_TIMEOUT)
          else s.(ended := Some(Silent))
        else if pingDue then Pinged(s, took, pingOk)
        else s
  }

  /** The turn of a loop that resets its timer after every message and bails when it fires. */
  function Eager(s: State, e: Event): State {
    if s.ended.Some? then s else
      match e
      case Elapse(ms) => s.(now := s.now + ms)
      case Turn(input, pingDue, pingOk, took, receiver) =>
        if input.Some? then
          var t := Handled(s, input.value, took, receiver);
          if t.ended.None? then t.(armed := t.lastRx + IDLE_TIMEOUT) else t
        else if s.armed <= s.now then s.(ended := Some(Silent))
        else if pingDue then Pinged(s, took, pingOk)
        else s
  }

  /** The instant the connection counts as dead: 45 s after the last message handled, or after the
      timer was created while there is none. */
  function Deadline(s: State): nat {
    Max(s.lastRx, s.created) + IDLE_TIMEOUT
  }

  /** The eager loop's state: the same with the timer at the deadline. */
  function Seen(s: State): State {
    s.(armed := Deadline(s))
  }

  ghost predicate Inv(s: State) {
    && s.created <= s.now && s.lastRx <= s.now && s.armed <= Deadline(s)
    && (s.lastRx < s.created ==> s.armed == Deadline(s))
  }

  /** The turn on which the code re-arms its timer. */
  predicate Rearms(s: State, e: Event) {
    && s.ended.None? && e.Turn? && e.input.None?
    && s.armed <= s.now < s.lastRx + IDLE_TIMEOUT
  }

  lemma {:induction false} LazyKeeps(s: State, e: Event)
    requires Inv(s)
    ensures Inv(Lazy(s, e))
  {
    hide F.Parse;
  }

  /** The loop bails exactly on the turns where nothing is readable and the deadline has passed. */
  lemma {:induction false} BailsExactly(s: State, e: Event)
    requires Inv(s) && s.ended.None?
    ensures Lazy(s, e).ended == Some(Silent) <==> e.Turn? && e.input.None? && s.now >= Deadline(s)
  {
    hide F.Parse;
  }

  /** Each turn is the eager loop's, or a re-arm that nothing outside can see and that cannot repeat
      before another message. */
  lemma {:induction false} StepRefines(s: State, e: Event)
    requires Inv(s)
    ensures if Rearms(s, e) then Seen(Lazy(s, e)) == Seen(s) && Lazy(s, e).armed == Deadline(s) > s.now
            else Seen(Lazy(s, e)) == Eager(Seen(s), e)
  {
    hide F.Parse;
  }

  function LazyRun(s: State, run: seq<Event>): State {
    if run == [] then s else Lazy(LazyRun(s, run[..|run| - 1]), run[|run| - 1])
  }

  function EagerRun(s: State, run: seq<Event>): State {
    if run == [] then s else Eager(EagerRun(s, run[..|run| - 1]), run[|run| - 1])
  }

  /** The run without its re-arming turns. */
  function Visible(s: State, run: seq<Event>): seq<Event> {
    if run == [] then []
    else
      var before := run[..|run| - 1];
      Visible(s, before) + (if Rearms(LazyRun(s, before), run[|run| - 1]) then [] else [run[|run| - 1]])
  }

  function Rearmings(s: State, run: seq<Event>): nat {
    if run == [] then 0
    else
      var before := run[..|run| - 1];
      Rearmings(s, before) + (if Rearms(LazyRun(s, before), run[|run| - 1]) then 1 else 0)
  }

  function Messages(run: seq<Event>): nat {
    if run == [] then 0
    else Messages(run[..|run| - 1]) + (if run[|run| - 1].Turn? && run[|run| - 1].input.Some? then 1 else 0)
  }

  lemma {:induction false} RunKeeps(t: nat, gap: nat, run: seq<Event>)
    ensures Inv(LazyRun(Started(t, gap), run))
  {
    if run != [] {
      RunKeeps(t, gap, run[..|run| - 1]);
      LazyKeeps(LazyRun(Started(t, gap), run[..|run| - 1]), run[|run| - 1]);
    }
  }

  /** The armed deadline stays within 45 s of the last receipt exactly from the first message handled
      after the timer was created; before it, it exceeds that by the time the timer was created late. */
  lemma {:induction false} ArmedWithinExact(t: nat, gap: nat, run: seq<Event>)
    ensures var u := LazyRun(Started(t, gap), run);
      && (u.armed <= u.lastRx + IDLE_TIMEOUT <==> u.created <= u.lastRx)
      && (u.lastRx < u.created ==> u.armed == u.created + IDLE_TIMEOUT)
  {
    RunKeeps(t, gap, run);
  }

  /** A timer created one millisecond late is armed that much too late. */
  lemma {:induction false} ArmedLateAtStart(t: nat)
    ensures var u := LazyRun(Started(t, 1), []); u.armed == u.lastRx + IDLE_TIMEOUT + 1
  {
  }

  /** Whole runs: with its re-arming turns left out, what the code did is what the loop that resets
      on every message would have done: same clock, same frames forwarded, same ending. */
  lemma {:induction false} LazyRefinesEager(t: nat, gap: nat, run: seq<Event>)
    ensures var s := Started(t, gap); Seen(LazyRun(s, run)) == EagerRun(s, Visible(s, run))
  {
    var s := Started(t, gap);
    if run != [] {
      var before, e := run[..|run| - 1], run[|run| - 1];
      LazyRefinesEager(t, gap, before);
      RunKeeps(t, gap, before);
      StepRefines(LazyRun(s, before), e);
      hide Lazy, Eager, Seen, Rearms, EagerRun;
      EagerNext(s, Visible(s, before), e);
      assert Visible(s, before) + [] == Visible(s, before);
    }
  }

  lemma {:induction false} EagerNext(s: State, run: seq<Event>, e: Event)
    ensures EagerRun(s, run + [e]) == Eager(EagerRun(s, run), e)
  {
    assert (run + [e])[..|run|] == run;
  }

  /** No more re-arms than messages: after one, the timer stands at the deadline until the next. */
  lemma {:induction false} RearmsAtMostMessages(t: nat, gap: nat, run: seq<Event>)
    ensures var s := Started(t, gap); var u := LazyRun(s, run);
      Rearmings(s, run) + (if u.ended.None? && u.armed < Deadline(u) then 1 else 0) <= Messages(run)
  {
    var s := Started(t, gap);
    if run != [] {
      var before, e := run[..|run| - 1], run[|run| - 1];
      RearmsAtMostMessages(t, gap, before);
      RunKeeps(t, gap, before);
      RearmCost(LazyRun(s, before), e);
      hide Lazy, Rearms, Deadline;
    }
  }

  /** A turn can use up or leave a credit for one re-arm; only a message gives one. */
  lemma {:induction false} RearmCost(s: State, e: Event)
    requires Inv(s)
    ensures (if Rearms(s, e) then 1 else 0)
            + (if Lazy(s, e).ended.None? && Lazy(s, e).armed < Deadline(Lazy(s, e)) then 1 else 0)
            <= (if s.ended.None? && s.armed < Deadline(s) then 1 else 0)
               + (if e.Turn? && e.input.Some? then 1 else 0)
  {
    hide F.Parse;
  }

  /** A silent upstream is dropped at the deadline itself, after at most one re-arm. */
  lemma {:induction false} SilenceEndsAtDeadline(s: State)
    requires Inv(s) && s.ended.None? && s.now <= Deadline(s)
    ensures var quiet := Turn(None, false, true, 0, true);
      var waited := if s.armed > s.now then Lazy(s, Elapse(s.armed - s.now)) else s;
      var fired := Lazy(waited, quiet);
      var due := if fired.now < Deadline(s) then Lazy(fired, Elapse(Deadline(s) - fired.now)) else fired;
      Lazy(due, quiet).ended == Some(Silent) && Lazy(due, quiet).now == Deadline(s)
  {
    hide F.Parse;
  }

  // ---- what a connection does with its messages ----

  /** Turns on which a running loop read something, up to and including one that ended it. */
  function Heard(s: State, run: seq<Event>): seq<Event> {
    if run == [] then []
    else
      var before, e := run[..|run| - 1], run[|run| - 1];
      Heard(s, before)
        + (if LazyRun(s, before).ended.None? && e.Turn? && e.input.Some? then [e] else [])
  }

  predicate HasFrame(e: Event) {
    e.Turn? && e.input.Some? && e.input.value.Binary? && F.Parse(e.input.value.raw).Accepted?
  }

  predicate Malformed(e: Event) {
    e.Turn? && e.input.Some? && e.input.value.Binary? && F.Parse(e.input.value.raw).Refused?
  }

  /** The frames in the messages read while the receiver lived. */
  function Frames(heard: seq<Event>): seq<F.Frame> {
    if heard == [] then []
    else
      var e := heard[|heard| - 1];
      Frames(heard[..|heard| - 1]) + (if HasFrame(e) && e.receiver then [F.Parse(e.input.value.raw).value] else [])
  }

  function CountMalformed(heard: seq<Event>): nat {
    if heard == [] then 0
    else CountMalformed(heard[..|heard| - 1]) + (if Malformed(heard[|heard| - 1]) then 1 else 0)
  }

  lemma {:induction false} HeardNext(heard: seq<Event>, e: Event)
    ensures Frames(heard + [e])
         == Frames(heard) + (if HasFrame(e) && e.receiver then [F.Parse(e.input.value.raw).value] else [])
    ensures CountMalformed(heard + [e]) == CountMalformed(heard) + (if Malformed(e) then 1 else 0)
  {
    assert (heard + [e])[..|heard|] == heard;
  }

  /** What one turn forwards and counts. */
  lemma {:induction false} TurnForwards(s: State, e: Event)
    ensures var t := Lazy(s, e);
      var read := s.ended.None? && e.Turn? && e.input.Some?;
      && t.forwarded == s.forwarded
           + (if read && HasFrame(e) && e.receiver then [F.Parse(e.input.value.raw).value] else [])
      && t.rejected == s.rejected + (if read && Malformed(e) then 1 else 0)
  {
    hide F.Parse;
  }

  /** Over any run: every well-formed frame read while the receiver lived is forwarded, as parsed and in the
      order read, nothing else is, and every malformed one is counted. */
  lemma {:induction false} ForwardsExactly(s: State, run: seq<Event>)
    ensures var t := LazyRun(s, run);
      && t.forwarded == s.forwarded + Frames(Heard(s, run))
      && t.rejected == s.rejected + CountMalformed(Heard(s, run))
  {
    hide Lazy, Frames, CountMalformed, HasFrame, Malformed, F.Parse;
    if run == [] {
      NothingHeard();
      assert s.forwarded + [] == s.forwarded;
    } else {
      var before, e := run[..|run| - 1], run[|run| - 1];
      ForwardsExactly(s, before);
      ForwardsNext(LazyRun(s, before), s, Heard(s, before), e);
    }
  }

  lemma {:induction false} NothingHeard()
    ensures Frames([]) == [] && CountMalformed([]) == 0
  {
  }

  lemma {:induction false} ForwardsNext(t: State, s: State, heard: seq<Event>, e: Event)
    requires t.forwarded == s.forwarded + Frames(heard) && t.rejected == s.rejected + CountMalformed(heard)
    ensures var more := heard + (if t.ended.None? && e.Turn? && e.input.Some? then [e] else []);
      && Lazy(t, e).forwarded == s.forwarded + Frames(more)
      && Lazy(t, e).rejected == s.rejected + CountMalformed(more)
  {
    hide Lazy, Frames, CountMalformed, HasFrame, Malformed, F.Parse;
    TurnForwards(t, e);
    HeardNext(heard, e);
    assert heard + [] == heard;
  }

  /** Which turns end a running loop, and with what: the upstream's close or end, a read error, a frame whose
      receiver is gone, silence, a ping that is not taken within 15 s, one that fails. Nothing else does. */
  lemma {:induction false} EndsExactly(s: State, e: Event, how: Ending)
    requires s.ended.None?
    ensures Lazy(s, e).ended == Some(how) <==>
      && e.Turn?
      && match how
         case Closed => e.input == Some(Message.Close) || e.input == Some(EndOfStream)
         case ReadFailed => e.input == Some(Failure)
         case ReceiverGone => HasFrame(e) && !e.receiver
         case Silent => e.input.None? && s.armed <= s.now && s.now >= s.lastRx + 45_000
         case PingTimedOut => e.input.None? && s.armed > s.now && e.pingDue && e.took > 15_000
         case PingFailed => e.input.None? && s.armed > s.now && e.pingDue && e.took <= 15_000 && !e.pingOk
  {
    hide F.Parse;
  }

  /** A loop that has ended stays so; one that handled a message stamps the time it was done with it, so
      time spent waiting for the receiver is not taken for silence; no other turn moves the stamp. */
  lemma {:induction false} StampedWhenHandled(s: State, e: Event)
    ensures var t := Lazy(s, e);
      && (s.ended.Some? ==> t == s)
      && (s.ended.None? && e.Turn? && e.input.Some? && t.ended.None? ==>
            t.lastRx == t.now == s.now + e.took && t.armed == s.armed)
      && (e.Elapse? || e.input.None? || t.ended.Some? ==> t.lastRx == s.lastRx)
  {
    hide F.Parse;
  }

  /** However long handling a message takes, the connection is not given up for silence within 45 s of
      being done with it. */
  lemma {:induction false} BackpressureIsNotSilence(s: State, e: Event, more: seq<Event>)
    requires Inv(s) && s.ended.None? && e.Turn? && e.input.Some?
    ensures var t := Lazy(s, e); var u := LazyRun(t, more);
      t.ended.None? && u.ended == Some(Silent) ==> u.now >= s.now + e.took + 45_000
  {
    var t := Lazy(s, e);
    LazyKeeps(s, e);
    StampedWhenHandled(s, e);
    if t.ended.None? { SilentLate(t, more); }
  }

  lemma {:induction false} SilentLate(t: State, more: seq<Event>)
    requires Inv(t) && t.ended.None?
    ensures var u := LazyRun(t, more);
      Inv(u) && u.lastRx >= t.lastRx && (u.ended == Some(Silent) ==> u.now >= u.lastRx + 45_000)
  {
    if more != [] {
      var before, e := more[..|more| - 1], more[|more| - 1];
      SilentLate(t, before);
      LazyKeeps(LazyRun(t, before), e);
      SilentStep(LazyRun(t, before), e);
      hide Lazy, Inv;
    }
  }

  lemma {:induction false} SilentStep(s: State, e: Event)
    requires Inv(s) && (s.ended == Some(Silent) ==> s.now >= s.lastRx + 45_000)
    ensures var t := Lazy(s, e);
      t.lastRx >= s.lastRx && (t.ended == Some(Silent) ==> t.now >= t.lastRx + 45_000)
  {
    hide F.Parse;
  }

  // ---- the loop ----

  class Connection {
    var state: State

    constructor (t: nat, gap: nat)
      ensures state == Started(t, gap)
    {
      state := Started(t, gap);
    }

    /** `relay_frames` fed the turns of `run` until it returns; the result is what it returned with. */
    method RelayFrames(run: seq<Event>) returns (ending: Option<Ending>)
      requires state.ended.None?
      modifies this
      ensures state == LazyRun(old(state), run) && ending == state.ended
    {
      hide F.Parse;
      var i := 0;
      while i < |run|
        invariant i <= |run| && state == LazyRun(old(state), run[..i])
      {
        var e := run[i];
        assert run[..i + 1][..i] == run[..i];
        i := i + 1;
        if state.ended.Some? { continue; }
        if e.Elapse? {
          state := state.(now := state.now + e.ms);
        } else if e.input.Some? {
          Receive(e.input.value, e.took, e.receiver);
        } else if state.armed <= state.now {
          var deadline := state.lastRx + IDLE_TIMEOUT;
          state := if state.now < deadline then state.(armed := deadline) else state.(ended := Some(Silent));
        } else if e.pingDue {
          if e.took > PING_INTERVAL {
            state := state.(now := state.now + PING_INTERVAL, ended := Some(PingTimedOut));
          } else {
            state := state.(now := state.now + e.took);
            if !e.pingOk { state := state.(ended := Some(PingFailed)); }
          }
        }
      }
      assert run[..i] == run;
      return state.ended;
    }

    method Receive(m: Message, took: nat, receiver: bool)
      modifies this
      ensures state == Handled(old(state), m, took, receiver)
    {
      match m {
        case EndOfStream => state := state.(ended := Some(Closed)); return;
        case Failure => state := state.(ended := Some(ReadFailed)); return;
        case Close => state := state.(ended := Some(Closed)); return;
        case Binary(raw) =>
          var parsed := F.Parse(raw);
          state := state.(now := state.now + took);
          if parsed.Accepted? {
            if !receiver {
              state := state.(ended := Some(ReceiverGone));
              return;
            }
            state := state.(forwarded := state.forwarded + [parsed.value]);
          } else {
            state := state.(rejected := state.rejected + 1);
          }
        case _ => state := state.(now := state.now + took);
      }
      state := state.(lastRx := state.now);
    }
  }
}
