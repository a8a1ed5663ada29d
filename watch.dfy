/**
 * The `Watch` loop: after the watcher is set up it forwards every
 * create or write event whose name contains the watched directory to the
 * event channel, and it returns on the first watcher error (wrapped) or on
 * cancellation (the context's own error).  The watcher's set-up results
 * and what it delivers are inputs; the event channel is the trace of
 * flags, one per consumed input, set where a value is sent.
 */
module Watch {
  import opened Wrappers

  /** The watcher's operation bits, `1 << iota` in declaration order. */
  const Create: bv32 := 1
  const Write: bv32 := 2
  const Remove: bv32 := 4
  const Rename: bv32 := 8
  const Chmod: bv32 := 16

  /** `sub` occurs in `s` starting at index `i`. */
  ghost predicate OccursAt(s: string, sub: string, i: int)
  {
    0 <= i && i + |sub| <= |s| && s[i..i + |sub|] == sub
  }

  /** Substring test, scanning the start positions of `s` left to right. */
  function Contains(s: string, sub: string): bool
    decreases |s|
  {
    if |sub| > |s| then false
    else s[..|sub|] == sub || (s != [] && Contains(s[1..], sub))
  }

  lemma {:induction false} ContainsIff(s: string, sub: string)
    ensures Contains(s, sub) <==> exists i :: OccursAt(s, sub, i)
    decreases |s|
  {
    if |sub| > |s| {
    } else if s[..|sub|] == sub {
      assert OccursAt(s, sub, 0);
    } else {
      ContainsIff(s[1..], sub);
      if exists i :: OccursAt(s, sub, i) {
        var i :| OccursAt(s, sub, i);
        assert i != 0;
        assert s[1..][i - 1..i - 1 + |sub|] == s[i..i + |sub|];
        assert OccursAt(s[1..], sub, i - 1);
      }
      if exists i :: OccursAt(s[1..], sub, i) {
        var i :| OccursAt(s[1..], sub, i);
        assert s[1..][i..i + |sub|] == s[i + 1..i + 1 + |sub|];
        assert OccursAt(s, sub, i + 1);
      }
    }
  }

  /** The filter: a create or write event on a name containing `dir`. */
  predicate Forwards(op: bv32, name: string, dir: string)
  {
    (op & Create == Create || op & Write == Write) && Contains(name, dir)
  }

  /**
   * The filter read as bits and positions: one of the two low bits is set
   * and `dir` occurs somewhere in the name.
   */
  lemma ForwardsIff(op: bv32, name: string, dir: string)
    ensures Forwards(op, name, dir) <==> op & 3 != 0 && exists i :: OccursAt(name, dir, i)
  {
    ContainsIff(name, dir);
    assert (op & Create == Create || op & Write == Write) <==> op & 3 != 0;
  }

  /** Removal, renaming and mode changes alone are never forwarded. */
  lemma OtherOpsDropped(op: bv32, name: string, dir: string)
    requires op & (Remove | Rename | Chmod) == op
    ensures !Forwards(op, name, dir)
  {
    assert op & 3 == 0;
    ForwardsIff(op, name, dir);
  }

  /** The error a done context reports. */
  datatype CtxError = Canceled | DeadlineExceeded

  function CtxMessage(c: CtxError): string
  {
    match c
    case Canceled => "context canceled"
    case DeadlineExceeded => "context deadline exceeded"
  }

  /** What the select statement receives: an event, a watcher error, or the context's end. */
  datatype Input = FsEvent(op: bv32, name: string) | FsError(cause: string) | CtxDone(reason: CtxError)

  /** The outcome of creating the watcher and adding the directory to it. */
  datatype Setup = Ready | CreateFails(cause: string) | AddFails(cause: string)

  /** Why `Watch` returned. */
  datatype WatchError =
    | CreateFailed(cause: string)
    | AddFailed(cause: string)
    | ListenFailed(cause: string)
    | ContextDone(reason: CtxError)

  const CreatePrefix := "failed to create watcher: "
  const AddPrefix := "watcher error: "
  const ListenPrefix := "watcher listen error: "

  /** The returned error's text: the wrapping prefix followed by the cause's text. */
  function Message(e: WatchError): string
  {
    match e
    case CreateFailed(c) => CreatePrefix + c
    case AddFailed(c) => AddPrefix + c
    case ListenFailed(c) => ListenPrefix + c
    case ContextDone(r) => CtxMessage(r)
  }

  /** Reads a returned error's text back into why `Watch` returned. */
  function ParseMessage(m: string): Option<WatchError>
  {
    if |CreatePrefix| <= |m| && m[..|CreatePrefix|] == CreatePrefix then Some(CreateFailed(m[|CreatePrefix|..]))
    else if |AddPrefix| <= |m| && m[..|AddPrefix|] == AddPrefix then Some(AddFailed(m[|AddPrefix|..]))
    else if |ListenPrefix| <= |m| && m[..|ListenPrefix|] == ListenPrefix then Some(ListenFailed(m[|ListenPrefix|..]))
    else if m == CtxMessage(Canceled) then Some(ContextDone(Canceled))
    else if m == CtxMessage(DeadlineExceeded) then Some(ContextDone(DeadlineExceeded))
    else None
  }

  /** The four exits give texts that tell them apart and keep the wrapped cause. */
  lemma MessageRoundTrip(e: WatchError)
    ensures ParseMessage(Message(e)) == Some(e)
  {
    match e
    case CreateFailed(c) => CreateRoundTrip(c);
    case AddFailed(c) => AddRoundTrip(c);
    case ListenFailed(c) => ListenRoundTrip(c);
    case ContextDone(r) =>
      assert Message(e)[0] == 'c';
  }

  lemma Wrapped(p: string, c: string)
    ensures var m := p + c; |p| <= |m| && m[..|p|] == p && m[|p|..] == c
  {
  }

  lemma CreateRoundTrip(c: string)
    ensures ParseMessage(CreatePrefix + c) == Some(CreateFailed(c))
  {
    Wrapped(CreatePrefix, c);
  }

  lemma AddRoundTrip(c: string)
    ensures ParseMessage(AddPrefix + c) == Some(AddFailed(c))
  {
    var m := AddPrefix + c;
    Wrapped(AddPrefix, c);
    assert m[0] == 'w';
  }

  lemma ListenRoundTrip(c: string)
    ensures ParseMessage(ListenPrefix + c) == Some(ListenFailed(c))
  {
    var m := ListenPrefix + c;
    Wrapped(ListenPrefix, c);
    assert m[0] == 'w' && m[8] == 'l';
  }

  /** The loop's trace and exit; `exit` is `None` while the loop still runs. */
  datatype Outcome = Outcome(sent: seq<bool>, exit: Option<WatchError>)

  /** The select loop over `inputs`, once the watcher is ready. */
  function Loop(dir: string, inputs: seq<Input>): (r: Outcome)
    ensures |r.sent| <= |inputs|
    decreases |inputs|
  {
    if inputs == [] then Outcome([], None)
    else match inputs[0]
      case FsEvent(op, name) =>
        var rest := Loop(dir, inputs[1..]);
        Outcome([Forwards(op, name, dir)] + rest.sent, rest.exit)
      case FsError(c) => Outcome([false], Some(ListenFailed(c)))
      case CtxDone(r) => Outcome([false], Some(ContextDone(r)))
  }

  /** `Watch` as a whole: the set-up exits, then the loop. */
  function WatchRun(setup: Setup, dir: string, inputs: seq<Input>): Outcome
  {
    match setup
    case CreateFails(c) => Outcome([], Some(CreateFailed(c)))
    case AddFails(c) => Outcome([], Some(AddFailed(c)))
    case Ready => Loop(dir, inputs)
  }

  /** The loop driven over `inputs` until one of them makes it return. */
  method Watch(setup: Setup, dir: string, inputs: seq<Input>) returns (sent: seq<bool>, exit: Option<WatchError>)
    ensures Outcome(sent, exit) == WatchRun(setup, dir, inputs)
  {
    match setup {
      case CreateFails(c) => return [], Some(CreateFailed(c));
      case AddFails(c) => return [], Some(AddFailed(c));
      case Ready =>
    }
    sent := [];
    var k := 0;
    while k < |inputs|
      invariant 0 <= k <= |inputs|
      invariant Loop(dir, inputs) == Outcome(sent + Loop(dir, inputs[k..]).sent, Loop(dir, inputs[k..]).exit)
    {
      match inputs[k] {
        case FsEvent(op, name) =>
          var forward := (op & Create == Create || op & Write == Write) && Contains(name, dir);
          LoopEvent(dir, inputs, k, sent);
          sent := sent + [forward];
        case FsError(c) =>
          LoopStop(dir, inputs, k, sent);
          return sent + [false], Some(ListenFailed(c));
        case CtxDone(r) =>
          LoopStop(dir, inputs, k, sent);
          return sent + [false], Some(ContextDone(r));
      }
      k := k + 1;
    }
    exit := None;
  }

  /** The loop invariant of `Watch` carried past an event. */
  lemma LoopEvent(dir: string, inputs: seq<Input>, k: nat, sent: seq<bool>)
    requires k < |inputs| && inputs[k].FsEvent?
    requires Loop(dir, inputs) == Outcome(sent + Loop(dir, inputs[k..]).sent, Loop(dir, inputs[k..]).exit)
    ensures var rest := Loop(dir, inputs[k + 1..]);
      Loop(dir, inputs) == Outcome((sent + [Forwards(inputs[k].op, inputs[k].name, dir)]) + rest.sent, rest.exit)
  {
    assert inputs[k..][1..] == inputs[k + 1..];
    var f := Forwards(inputs[k].op, inputs[k].name, dir);
    var rest := Loop(dir, inputs[k + 1..]);
    assert Loop(dir, inputs[k..]) == Outcome([f] + rest.sent, rest.exit);
    assert sent + ([f] + rest.sent) == (sent + [f]) + rest.sent;
  }

  /** The loop invariant of `Watch` at a stopping input: the whole run's outcome. */
  lemma LoopStop(dir: string, inputs: seq<Input>, k: nat, sent: seq<bool>)
    requires k < |inputs| && !inputs[k].FsEvent?
    requires Loop(dir, inputs) == Outcome(sent + Loop(dir, inputs[k..]).sent, Loop(dir, inputs[k..]).exit)
    ensures Loop(dir, inputs) == Outcome(sent + [false], Some(StopError(inputs[k])))
  {
    assert inputs[k..][0] == inputs[k];
  }

  /** The error a stopping input makes the loop return. */
  function StopError(x: Input): WatchError
    requires !x.FsEvent?
  {
    if x.FsError? then ListenFailed(x.cause) else ContextDone(x.reason)
  }

  /**
   * The loop returns exactly at the first input that is not an event, with
   * that input's error, having consumed nothing after it.
   */
  lemma {:induction false} StopsAtFirst(dir: string, inputs: seq<Input>, k: nat)
    requires k < |inputs| && !inputs[k].FsEvent?
    requires forall i | 0 <= i < k :: inputs[i].FsEvent?
    ensures |Loop(dir, inputs).sent| == k + 1
    ensures Loop(dir, inputs).exit == Some(StopError(inputs[k]))
    decreases k
  {
    if k > 0 {
      StopsAtFirst(dir, inputs[1..], k - 1);
    }
  }

  /** Without a watcher error or cancellation the loop never returns. */
  lemma {:induction false} RunsOnWithoutStop(dir: string, inputs: seq<Input>)
    requires forall i | 0 <= i < |inputs| :: inputs[i].FsEvent?
    ensures Loop(dir, inputs).exit == None && |Loop(dir, inputs).sent| == |inputs|
    decreases |inputs|
  {
    if inputs != [] {
      RunsOnWithoutStop(dir, inputs[1..]);
    }
  }

  /** A value is sent for an input exactly when it is an event the filter passes. */
  lemma {:induction false} SentIffForwarded(dir: string, inputs: seq<Input>, k: nat)
    requires k < |Loop(dir, inputs).sent|
    ensures Loop(dir, inputs).sent[k] <==> inputs[k].FsEvent? && Forwards(inputs[k].op, inputs[k].name, dir)
    decreases k
  {
    if k > 0 {
      SentIffForwarded(dir, inputs[1..], k - 1);
    }
  }

  /** Set-up failures return before any input is read, wrapped with their own prefix. */
  lemma SetupFailures(setup: Setup, dir: string, inputs: seq<Input>)
    requires !setup.Ready?
    ensures WatchRun(setup, dir, inputs).sent == []
    ensures setup.CreateFails? ==> Message(WatchRun(setup, dir, inputs).exit.value) == CreatePrefix + setup.cause
    ensures setup.AddFails? ==> Message(WatchRun(setup, dir, inputs).exit.value) == AddPrefix + setup.cause
  {
  }
}
