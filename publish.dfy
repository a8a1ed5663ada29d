/**
 * The debounce loop `startPublishEvents`: a pending flag that an event
 * sets and a tick publishes (one notification) and clears; cancellation
 * makes the loop return.  The 500 ms ticker is an explicit `Tick` input
 * and the notification channel is the trace of flags the run produces,
 * one per consumed input, set where a notification is sent.
 */
module Publish {

  /** What the loop's select statement receives. */
  datatype Input = Event | Tick | Done

  /** The loop's state: the pending flag and whether the loop has returned. */
  datatype State = State(pending: bool, returned: bool)

  /** The state the loop starts in: nothing pending. */
  const Start := State(false, false)

  /** The state after one input of a running loop. */
  function Next(s: State, i: Input): State
  {
    if s.returned then s
    else match i
      case Event => s.(pending := true)
      case Tick => s.(pending := false)
      case Done => s.(returned := true)
  }

  /** Whether the input makes a running loop send a notification. */
  predicate Notifies(s: State, i: Input)
  {
    !s.returned && i == Tick && s.pending
  }

  /**
   * The notification trace of the loop run from `s` over `inputs`: one flag
   * per input it consumes, true where a notification is sent.  The loop
   * consumes nothing once it has returned.
   */
  function Run(s: State, inputs: seq<Input>): (out: seq<bool>)
    ensures |out| <= |inputs|
    ensures s.returned ==> out == []
    decreases |inputs|
  {
    if inputs == [] || s.returned then []
    else [Notifies(s, inputs[0])] + Run(Next(s, inputs[0]), inputs[1..])
  }

  /** Number of notifications in a trace. */
  function Count(bs: seq<bool>): nat
    decreases |bs|
  {
    if bs == [] then 0 else (if bs[0] then 1 else 0) + Count(bs[1..])
  }

  /** Number of occurrences of `x` in `inputs`. */
  function Occurrences(inputs: seq<Input>, x: Input): nat
    decreases |inputs|
  {
    if inputs == [] then 0 else (if inputs[0] == x then 1 else 0) + Occurrences(inputs[1..], x)
  }

  /** The loop's local state, updated in place one select case at a time. */
  class Publisher {
    var shouldPublish: bool
    var returned: bool
    /** Number of values sent on the notification channel so far. */
    var sent: nat

    constructor()
      ensures !shouldPublish && !returned && sent == 0
    {
      shouldPublish := false;
      returned := false;
      sent := 0;
    }

    function Current(): State
      reads this
    {
      State(shouldPublish, returned)
    }

    /** One pass of the select statement on input `i`. */
    method Step(i: Input) returns (notified: bool)
      requires !returned
      modifies this
      ensures i == Event ==> shouldPublish && !notified && sent == old(sent) && !returned
      ensures i == Tick ==> !shouldPublish && notified == old(shouldPublish) && !returned
      ensures i == Tick && !old(shouldPublish) ==> Current() == old(Current()) && sent == old(sent)
      ensures i == Done ==> returned && !notified && shouldPublish == old(shouldPublish) && sent == old(sent)
      ensures Current() == Next(old(Current()), i) && notified == Notifies(old(Current()), i)
      ensures sent == old(sent) + (if notified then 1 else 0)
    {
      match i {
        case Event =>
          shouldPublish := true;
          notified := false;
        case Tick =>
          notified := shouldPublish;
          if shouldPublish {
            sent := sent + 1;
            shouldPublish := false;
          }
        case Done =>
          returned := true;
          notified := false;
      }
    }
  }

  /**
   * The loop driven over `inputs` until they run out or it returns; the
   * result is its notification trace.
   */
  method StartPublishEvents(inputs: seq<Input>) returns (trace: seq<bool>, sent: nat)
    ensures trace == Run(Start, inputs)
    ensures sent == Count(trace)
  {
    var p := new Publisher();
    var k := 0;
    trace := [];
    while k < |inputs| && !p.returned
      invariant 0 <= k <= |inputs|
      invariant trace + Run(p.Current(), inputs[k..]) == Run(Start, inputs)
      invariant p.sent == Count(trace)
    {
      ghost var before := p.Current();
      var n := p.Step(inputs[k]);
      RunStep(trace, before, inputs, k, Run(Start, inputs));
      CountAppend(trace, n);
      trace := trace + [n];
      k := k + 1;
    }
    RunEnd(trace, p.Current(), inputs, k, Run(Start, inputs));
    sent := p.sent;
  }

  /** The loop invariant carried across one select pass on `inputs[k]`. */
  lemma RunStep(trace: seq<bool>, s: State, inputs: seq<Input>, k: nat, whole: seq<bool>)
    requires k < |inputs| && !s.returned
    requires trace + Run(s, inputs[k..]) == whole
    ensures trace + [Notifies(s, inputs[k])] + Run(Next(s, inputs[k]), inputs[k + 1..]) == whole
  {
    assert inputs[k..][0] == inputs[k] && inputs[k..][1..] == inputs[k + 1..];
  }

  /** When the loop exits, its trace is the whole run. */
  lemma RunEnd(trace: seq<bool>, s: State, inputs: seq<Input>, k: nat, whole: seq<bool>)
    requires k <= |inputs| && (k == |inputs| || s.returned)
    requires trace + Run(s, inputs[k..]) == whole
    ensures trace == whole
  {
    assert Run(s, inputs[k..]) == [];
    assert trace + [] == trace;
  }

  lemma {:induction false} CountAppend(bs: seq<bool>, b: bool)
    ensures Count(bs + [b]) == Count(bs) + (if b then 1 else 0)
  {
    if bs != [] {
      assert (bs + [b])[1..] == bs[1..] + [b];
      CountAppend(bs[1..], b);
    }
  }

  /** At most one notification per tick. */
  lemma {:induction false} AtMostOnePerTick(s: State, inputs: seq<Input>)
    ensures Count(Run(s, inputs)) <= Occurrences(inputs, Tick)
    decreases |inputs|
  {
    if inputs != [] && !s.returned {
      AtMostOnePerTick(Next(s, inputs[0]), inputs[1..]);
    }
  }

  /**
   * At most one notification per event, counting a flag already pending
   * at the start as one.
   */
  lemma {:induction false} AtMostOnePerEvent(s: State, inputs: seq<Input>)
    ensures Count(Run(s, inputs)) <= Occurrences(inputs, Event) + (if s.pending then 1 else 0)
    decreases |inputs|
  {
    if inputs != [] && !s.returned {
      AtMostOnePerEvent(Next(s, inputs[0]), inputs[1..]);
    }
  }

  /** From the start state: at most as many notifications as ticks and as events. */
  lemma NotificationBounds(inputs: seq<Input>)
    ensures Count(Run(Start, inputs)) <= Occurrences(inputs, Tick)
    ensures Count(Run(Start, inputs)) <= Occurrences(inputs, Event)
  {
    AtMostOnePerTick(Start, inputs);
    AtMostOnePerEvent(Start, inputs);
  }

  /** `n` copies of `x`. */
  function Repeat<T>(x: T, n: nat): (r: seq<T>)
    ensures |r| == n && forall i | 0 <= i < n :: r[i] == x
  {
    if n == 0 then [] else [x] + Repeat(x, n - 1)
  }

  /** A burst of events before a tick collapses into a single notification. */
  lemma {:induction false} BurstCollapses(s: State, n: nat)
    requires !s.returned && n >= 1
    ensures Run(s, Repeat(Event, n) + [Tick]) == Repeat(false, n) + [true]
    decreases n
  {
    var xs := Repeat(Event, n) + [Tick];
    assert xs[0] == Event && xs[1..] == Repeat(Event, n - 1) + [Tick];
    if n > 1 {
      BurstCollapses(Next(s, Event), n - 1);
    } else {
      assert xs[1..] == [Tick];
    }
  }

  /**
   * Nothing after `Done`: the loop consumes the inputs up to and including
   * the first `Done`, sends nothing for it, and nothing afterwards.
   */
  lemma {:induction false} NothingAfterDone(s: State, pre: seq<Input>, post: seq<Input>)
    requires !s.returned && Done !in pre
    ensures Run(s, pre + [Done] + post) == Run(s, pre) + [false]
    decreases |pre|
  {
    if pre == [] {
      assert ([Done] + post)[1..] == post;
    } else {
      assert (pre + [Done] + post)[1..] == pre[1..] + [Done] + post;
      NothingAfterDone(Next(s, pre[0]), pre[1..], post);
    }
  }

  /**
   * An event is pending before position `k`: some event comes before `k`
   * with no tick between it and `k`.
   */
  ghost predicate EventSinceTick(inputs: seq<Input>, k: int)
    requires 0 <= k <= |inputs|
  {
    exists j | 0 <= j < k :: inputs[j] == Event && NoTickBetween(inputs, j, k)
  }

  ghost predicate NoTickBetween(inputs: seq<Input>, j: int, k: int)
    requires 0 <= j < k <= |inputs|
  {
    forall m | j < m < k :: inputs[m] != Tick
  }

  /** The state after the first `k` inputs, for a loop that has not returned. */
  function After(s: State, inputs: seq<Input>, k: nat): State
    requires k <= |inputs|
  {
    if k == 0 then s else Next(After(s, inputs, k - 1), inputs[k - 1])
  }

  lemma {:induction false} AfterShift(s: State, inputs: seq<Input>, k: nat)
    requires 1 <= k <= |inputs|
    ensures After(s, inputs, k) == After(Next(s, inputs[0]), inputs[1..], k - 1)
  {
    if k > 1 {
      AfterShift(s, inputs, k - 1);
      assert inputs[1..][k - 2] == inputs[k - 1];
    }
  }

  lemma {:induction false} RunAt(s: State, inputs: seq<Input>, k: nat)
    requires k < |Run(s, inputs)|
    ensures Run(s, inputs)[k] == Notifies(After(s, inputs, k), inputs[k])
    decreases k
  {
    if k > 0 {
      RunAt(Next(s, inputs[0]), inputs[1..], k - 1);
      AfterShift(s, inputs, k);
    }
  }

  lemma {:induction false} RunAtReturned(s: State, inputs: seq<Input>, k: nat)
    requires k < |Run(s, inputs)|
    ensures !After(s, inputs, k).returned
    decreases k
  {
    if k > 0 {
      RunAtReturned(Next(s, inputs[0]), inputs[1..], k - 1);
      AfterShift(s, inputs, k);
    }
  }

  lemma {:induction false} PendingIsEventSinceTick(inputs: seq<Input>, k: nat)
    requires k <= |inputs|
    requires !After(Start, inputs, k).returned
    ensures After(Start, inputs, k).pending <==> EventSinceTick(inputs, k)
  {
    if k > 0 {
      var prev := After(Start, inputs, k - 1);
      assert !prev.returned;
      PendingIsEventSinceTick(inputs, k - 1);
      var x := inputs[k - 1];
      if x == Event {
        assert NoTickBetween(inputs, k - 1, k);
      } else if x == Tick {
        forall j | 0 <= j < k && inputs[j] == Event
          ensures !NoTickBetween(inputs, j, k)
        {
          assert j < k - 1 && inputs[k - 1] == Tick;
        }
      }
    }
  }

  /**
   * The trace from the start state, characterised without the flag: a
   * notification goes out exactly at a tick that has an event since the
   * previous tick.
   */
  lemma NotifiesExactly(inputs: seq<Input>, k: nat)
    requires k < |Run(Start, inputs)|
    ensures Run(Start, inputs)[k] <==> inputs[k] == Tick && EventSinceTick(inputs, k)
  {
    RunAt(Start, inputs, k);
    RunAtReturned(Start, inputs, k);
    PendingIsEventSinceTick(inputs, k);
  }

  /**
   * Every notification has an event of its own: one comes before it with
   * no notification in between, and events never notify by themselves.
   */
  lemma NotificationHasOwnEvent(inputs: seq<Input>, k: nat)
    requires k < |Run(Start, inputs)| && Run(Start, inputs)[k]
    ensures inputs[k] == Tick
    ensures exists j | 0 <= j < k :: inputs[j] == Event && forall m | j < m < k :: !Run(Start, inputs)[m]
  {
    var out := Run(Start, inputs);
    NotifiesExactly(inputs, k);
    var j :| 0 <= j < k && inputs[j] == Event && NoTickBetween(inputs, j, k);
    forall m | j < m < k
      ensures !out[m]
    {
      NotifiesExactly(inputs, m);
    }
  }

  /** An event never makes the loop notify. */
  lemma EventNeverNotifies(s: State, inputs: seq<Input>, k: nat)
    requires k < |Run(s, inputs)| && inputs[k] == Event
    ensures !Run(s, inputs)[k]
  {
    RunAt(s, inputs, k);
  }

  /** Two bursts separated by a tick, then a quiet tick: two notifications. */
  lemma TwoBursts(inputs: seq<Input>)
    requires inputs == [Event, Event, Tick, Tick, Event, Event, Event, Tick, Done, Event, Tick]
    ensures Run(Start, inputs) == [false, false, true, false, false, false, false, true, false]
    ensures Count(Run(Start, inputs)) == 2
  {
    SecondBurst(inputs[5..]);
    assert inputs[4..] == [Event, Event, Event, Tick, Done, Event, Tick];
    assert Run(State(false, false), inputs[4..]) == [false, false, false, true, false];
    assert inputs[3..] == [Tick, Event, Event, Event, Tick, Done, Event, Tick];
    assert Run(State(false, false), inputs[3..]) == [false, false, false, false, true, false];
    assert inputs[2..] == [Tick, Tick, Event, Event, Event, Tick, Done, Event, Tick];
    assert Run(State(true, false), inputs[2..]) == [true, false, false, false, false, true, false];
    assert inputs[1..] == [Event, Tick, Tick, Event, Event, Event, Tick, Done, Event, Tick];
    assert Run(State(true, false), inputs[1..]) == [false, true, false, false, false, false, true, false];
    assert inputs[0..] == [Event, Event, Tick, Tick, Event, Event, Event, Tick, Done, Event, Tick];
    assert Run(State(false, false), inputs[0..]) == [false, false, true, false, false, false, false, true, false];
    TwoNotifications(Run(Start, inputs));
  }

  /** The trace of two bursts holds two notifications. */
  lemma TwoNotifications(trace: seq<bool>)
    requires trace == [false, false, true, false, false, false, false, true, false]
    ensures Count(trace) == 2
  {
    assert Count(trace[7..]) == 1 by { assert trace[7..] == [true, false]; assert Count([false]) == 0; }
    assert trace[3..7] == [false, false, false, false];
    assert Count(trace[3..]) == 1 by {
      assert Count(trace[6..]) == Count(trace[7..]);
      assert Count(trace[5..]) == Count(trace[6..]);
      assert Count(trace[4..]) == Count(trace[5..]);
    }
    assert Count(trace[2..]) == 2;
    assert Count(trace[1..]) == 2;
  }

  /** The tail of `TwoBursts`: the end of the second burst, its tick, and inputs after `Done`. */
  lemma SecondBurst(inputs: seq<Input>)
    requires inputs == [Event, Event, Tick, Done, Event, Tick]
    ensures Run(State(true, false), inputs) == [false, false, true, false]
  {
    assert inputs[4..] == [Event, Tick];
    assert Run(State(false, true), inputs[4..]) == [];
    assert inputs[3..] == [Done, Event, Tick];
    assert Run(State(false, false), inputs[3..]) == [false];
    assert inputs[2..] == [Tick, Done, Event, Tick];
    assert Run(State(true, false), inputs[2..]) == [true, false];
    assert inputs[1..] == [Event, Tick, Done, Event, Tick];
    assert Run(State(true, false), inputs[1..]) == [false, true, false];
  }
}
