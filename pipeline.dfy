/**
 * `Watch` and `startPublishEvents` run together over one timeline of
 * signals: watcher events and errors, ticks, and the shared context's end.
 * When `Watch` returns it closes the event channel (the deferred close),
 * and a receive on a closed channel is always ready.  As written, the
 * publisher keeps selecting that receive, so after a watcher error every
 * tick finds the flag set and sends a notification although no file
 * changed.  `Corrected` models the publisher that stops selecting the
 * channel once it is closed.
 */
module Pipeline {
  import Publish
  import Watch

  /** One thing that happens on the shared timeline. */
  datatype Signal = File(op: bv32, name: string) | Fault(cause: string) | Tick | Cancel

  /**
   * The two loops' state: whether `Watch` still runs its loop, whether the
   * event channel has been closed, and the publisher's state.
   */
  datatype Stage = Stage(watching: bool, closed: bool, pub: Publish.State)

  /** Both loops running, nothing pending. */
  const Begin := Stage(true, false, Publish.Start)

  /** Whether `Watch` sends on the event channel for this signal. */
  predicate Sends(dir: string, st: Stage, x: Signal)
  {
    st.watching && x.File? && Watch.Forwards(x.op, x.name, dir)
  }

  /**
   * The publisher's state just before it handles a tick.  With `floods`
   * (the code as written) a closed event channel is received from before
   * every tick; without it (the correction) it is no longer selected.
   */
  function BeforeTick(floods: bool, st: Stage): Publish.State
  {
    if floods && st.closed then Publish.Next(st.pub, Publish.Event) else st.pub
  }

  /** The stage after one signal. */
  function Next(dir: string, floods: bool, st: Stage, x: Signal): Stage
  {
    match x
    case File(_, _) =>
      if Sends(dir, st, x) then st.(pub := Publish.Next(st.pub, Publish.Event)) else st
    case Fault(_) =>
      if st.watching then st.(watching := false, closed := true) else st
    case Tick =>
      st.(pub := Publish.Next(BeforeTick(floods, st), Publish.Tick))
    case Cancel =>
      Stage(false, true, Publish.Next(st.pub, Publish.Done))
  }

  /** Whether the signal makes the publisher send a notification. */
  predicate Notifies(floods: bool, st: Stage, x: Signal)
  {
    x.Tick? && Publish.Notifies(BeforeTick(floods, st), Publish.Tick)
  }

  /** The notification trace over `signals`, one flag per signal, until the publisher returns. */
  function Run(dir: string, floods: bool, st: Stage, signals: seq<Signal>): (out: seq<bool>)
    ensures |out| <= |signals|
    decreases |signals|
  {
    if signals == [] || st.pub.returned then []
    else [Notifies(floods, st, signals[0])] + Run(dir, floods, Next(dir, floods, st, signals[0]), signals[1..])
  }

  /** The two loops as written. */
  function AsWritten(dir: string, signals: seq<Signal>): seq<bool>
  {
    Run(dir, true, Begin, signals)
  }

  /** The two loops with the publisher ignoring a closed event channel. */
  function Corrected(dir: string, signals: seq<Signal>): seq<bool>
  {
    Run(dir, false, Begin, signals)
  }

  /** Number of values `Watch` sends on the event channel over `signals`. */
  function Forwarded(dir: string, st: Stage, signals: seq<Signal>): nat
    decreases |signals|
  {
    if signals == [] then 0
    else (if Sends(dir, st, signals[0]) then 1 else 0) + Forwarded(dir, Next(dir, false, st, signals[0]), signals[1..])
  }

  /**
   * As written: after a watcher error, a tick sends a notification though
   * no event was ever forwarded.
   */
  lemma SpuriousNotification(dir: string, signals: seq<Signal>)
    requires signals == [Fault("watch queue overflow"), Tick]
    ensures AsWritten(dir, signals) == [false, true]
    ensures Forwarded(dir, Begin, signals) == 0
  {
    var st := Next(dir, true, Begin, signals[0]);
    assert st == Stage(false, true, Publish.Start);
    assert signals[1..] == [Tick];
    assert Run(dir, true, st, [Tick]) == [true];
    assert Forwarded(dir, Stage(false, true, Publish.Start), [Tick]) == 0;
  }

  /** As written: after a watcher error every tick notifies, until cancellation. */
  lemma {:induction false} FloodAfterFault(dir: string, st: Stage, n: nat)
    requires st.closed && !st.pub.returned
    ensures Run(dir, true, st, Publish.Repeat(Tick, n)) == Publish.Repeat(true, n)
    decreases n
  {
    if n > 0 {
      var ticks := Publish.Repeat(Tick, n);
      assert ticks[0] == Tick && ticks[1..] == Publish.Repeat(Tick, n - 1);
      FloodAfterFault(dir, Next(dir, true, st, Tick), n - 1);
    }
  }

  /**
   * Corrected: notifications never outnumber the events `Watch` forwards
   * (counting a flag already pending at the start as one).
   */
  lemma {:induction false} CorrectedBounded(dir: string, st: Stage, signals: seq<Signal>)
    ensures Publish.Count(Run(dir, false, st, signals)) <= Forwarded(dir, st, signals) + (if st.pub.pending then 1 else 0)
    decreases |signals|
  {
    if signals != [] && !st.pub.returned {
      CorrectedBounded(dir, Next(dir, false, st, signals[0]), signals[1..]);
    }
  }

  /** Corrected, from the start: at most one notification per forwarded event. */
  lemma NoSpuriousNotification(dir: string, signals: seq<Signal>)
    ensures Publish.Count(Corrected(dir, signals)) <= Forwarded(dir, Begin, signals)
  {
    CorrectedBounded(dir, Begin, signals);
  }

  /** The correction changes nothing while the event channel is open. */
  lemma {:induction false} AgreeWhileOpen(dir: string, st: Stage, signals: seq<Signal>)
    requires !st.closed
    requires forall i | 0 <= i < |signals| :: !signals[i].Fault?
    ensures Run(dir, true, st, signals) == Run(dir, false, st, signals)
    decreases |signals|
  {
    if signals != [] && !st.pub.returned && !signals[0].Cancel? {
      AgreeWhileOpen(dir, Next(dir, false, st, signals[0]), signals[1..]);
    }
  }

  /** Without a watcher error the code as written and the correction agree. */
  lemma AgreeWithoutFault(dir: string, signals: seq<Signal>)
    requires forall i | 0 <= i < |signals| :: !signals[i].Fault?
    ensures AsWritten(dir, signals) == Corrected(dir, signals)
  {
    AgreeWhileOpen(dir, Begin, signals);
  }
}
