/**
 The bridge state loop: connection statuses are handled in order, except that a disconnect is only reported
 if nothing else arrives before its debounce timer runs out.
 */
module BridgeState {
  import opened Options

  datatype ConnectionEvent = NoEvent | Connected | Disconnected | LoggedOut | Error | FatalError | CleanShutdown

  datatype Status = Status(event: ConnectionEvent, err: Option<nat>)

  const NOTHING := Status(NoEvent, None)

  /** What the loop can wake up to: a status, with whether the timer has run out by the time it is stopped, or
      the timer. A trace ends when the channel is closed. */
  datatype Input = Received(status: Status, expired: bool) | TimeUp

  datatype Output = Handled(status: Status) | TransientDisconnect(err: Option<nat>)

  /******* What the loop should do *******/

  /** Either nothing is going on, or a disconnect with this error is waiting for its timer. */
  datatype Mode = Idle | Window(err: Option<nat>)

  function Step(mode: Mode, input: Input): (Mode, seq<Output>) {
    match input
    case TimeUp => (Idle, if mode.Window? then [TransientDisconnect(mode.err)] else [])
    case Received(status, expired) =>
      match status.event
      case Disconnected => (if mode.Window? then mode else Window(status.err), [])
      case NoEvent => (Idle, if mode.Window? && expired then [TransientDisconnect(mode.err)] else [])
      case _ => (Idle, [Handled(status)])
  }

  function Exec(inputs: seq<Input>): (Mode, seq<Output>) {
    if inputs == [] then (Idle, [])
    else
      var (mode, out) := Exec(inputs[..|inputs| - 1]);
      var (mode', more) := Step(mode, inputs[|inputs| - 1]);
      (mode', if more == [] then out else out + more)
  }

  /******* What it does *******/

  /** The statuses that are still to come, and the one peeked at, decide whether the loop goes on. */
  method BridgeStateLoop(inputs: seq<Input>) returns (out: seq<Output>)
    ensures out == Exec(inputs).1
  {
    out := [];
    var n := 0;
    var peeked := NOTHING;
    while n < |inputs| || peeked.event != NoEvent
      invariant n <= |inputs| && peeked.event != Disconnected
      invariant Exec(inputs[..n]) == (Idle, if peeked.event == NoEvent then out else out + [Handled(peeked)])
      decreases |inputs| - n, if peeked.event != NoEvent then 1 else 0
    {
      var status := peeked;
      if peeked.event != NoEvent {
        peeked := NOTHING;
      } else {
        assert inputs[..n + 1][..n] == inputs[..n];
        n := n + 1;
        if inputs[n - 1].TimeUp? {
          continue;
        }
        status := inputs[n - 1].status;
      }
      if status.event == Disconnected {
        var expired, closed;
        expired, closed, peeked, n := PeekLoop(inputs, n, status.err, out);
        if closed {
          return;
        }
        if expired && (peeked.event == Disconnected || peeked.event == NoEvent) {
          out := out + [TransientDisconnect(status.err)];
        }
      } else if status.event != NoEvent {
        out := out + [Handled(status)];
      }
    }
    assert inputs[..n] == inputs;
  }

  /** Waits in the window of a disconnect for another kind of status or for the timer. */
  method PeekLoop(inputs: seq<Input>, start: nat, err: Option<nat>, ghost out: seq<Output>)
      returns (expired: bool, closed: bool, peeked: Status, n: nat)
    requires start <= |inputs| && Exec(inputs[..start]) == (Window(err), out)
    ensures start <= n <= |inputs| && peeked.event != Disconnected
    ensures closed ==> n == |inputs| && Exec(inputs) == (Window(err), out)
    ensures !closed ==> start < n
    ensures !closed && peeked.event == NoEvent ==>
            Exec(inputs[..n]) == (Idle, if expired then out + [TransientDisconnect(err)] else out)
    ensures !closed && peeked.event != NoEvent ==> Exec(inputs[..n]) == (Idle, out + [Handled(peeked)])
  {
    n := start;
    peeked := NOTHING;
    expired, closed := false, true;
    while n < |inputs|
      invariant start <= n <= |inputs| && peeked.event == NoEvent && closed
      invariant Exec(inputs[..n]) == (Window(err), out)
    {
      assert inputs[..n + 1][..n] == inputs[..n];
      var input := inputs[n];
      n := n + 1;
      if input.TimeUp? {
        expired, closed := true, false;
        return;
      }
      peeked := input.status;
      if peeked.event == Disconnected {
        peeked := NOTHING;
        continue;
      }
      expired, closed := input.expired, false;
      return;
    }
    assert inputs[..n] == inputs;
  }

  /******* Nothing is lost *******/

  function Substantial(inputs: seq<Input>): seq<Status> {
    if inputs == [] then []
    else
      var last := inputs[|inputs| - 1];
      Substantial(inputs[..|inputs| - 1])
        + if last.Received? && last.status.event !in {NoEvent, Disconnected} then [last.status] else []
  }

  function HandledIn(out: seq<Output>): seq<Status> {
    if out == [] then []
    else HandledIn(out[..|out| - 1]) + if out[|out| - 1].Handled? then [out[|out| - 1].status] else []
  }

  lemma HandledSnoc(out: seq<Output>, more: seq<Output>)
    requires |more| <= 1
    ensures HandledIn(out + more) == HandledIn(out) + HandledIn(more)
  {
    if more == [] {
      assert out + more == out;
    } else {
      assert (out + more)[..|out|] == out && more[..0] == [];
    }
  }

  /** Every status other than a disconnect is handled exactly once, in the order of arrival. */
  lemma {:induction false} AllHandledInOrder(inputs: seq<Input>)
    ensures HandledIn(Exec(inputs).1) == Substantial(inputs)
  {
    if inputs != [] {
      var init, last := inputs[..|inputs| - 1], inputs[|inputs| - 1];
      AllHandledInOrder(init);
      var more := Step(Exec(init).0, last).1;
      HandledSnoc(Exec(init).1, more);
      assert |more| == 1 ==> more[..0] == [];
    }
  }

  /******* What is reported *******/

  predicate IsDisconnect(input: Input) { input.Received? && input.status.event == Disconnected }

  /** The disconnect at j opened a window that nothing has ended before k. */
  predicate OpenSince(inputs: seq<Input>, j: nat, k: nat)
    requires k <= |inputs|
  {
    j < k && (forall i :: j <= i < k ==> IsDisconnect(inputs[i])) && (j > 0 ==> !IsDisconnect(inputs[j - 1]))
  }

  lemma OneWindow(inputs: seq<Input>, j: nat, k: nat)
    requires k <= |inputs| && OpenSince(inputs, j, k)
    ensures forall i: nat :: OpenSince(inputs, i, k) ==> i == j
  {
  }

  lemma NoWindow(inputs: seq<Input>, k: nat)
    requires k <= |inputs| && Exec(inputs[..k]).0.Idle?
    ensures k > 0 ==> !IsDisconnect(inputs[k - 1])
  {
    if k > 0 {
      assert inputs[..k][..k - 1] == inputs[..k - 1];
    }
  }

  /** The window was opened by the first of the disconnects just received. */
  lemma {:induction false} Opener(inputs: seq<Input>, k: nat) returns (j: nat)
    requires k <= |inputs| && Exec(inputs[..k]).0.Window?
    ensures OpenSince(inputs, j, k) && inputs[j].status.err == Exec(inputs[..k]).0.err
  {
    assert inputs[..k][..k - 1] == inputs[..k - 1];
    if Exec(inputs[..k - 1]).0.Window? {
      j := Opener(inputs, k - 1);
    } else {
      NoWindow(inputs, k - 1);
      j := k - 1;
    }
  }

  lemma WindowExactly(inputs: seq<Input>, k: nat, err: Option<nat>)
    requires k <= |inputs|
    ensures Exec(inputs[..k]).0 == Window(err)
            <==> exists j: nat :: OpenSince(inputs, j, k) && inputs[j].status.err == err
  {
    if Exec(inputs[..k]).0.Window? {
      var j := Opener(inputs, k);
      OneWindow(inputs, j, k);
    } else {
      NoWindow(inputs, k);
    }
  }

  /** A disconnect is reported exactly when its window is ended by the timer (or by an empty status that the
      timer has overtaken), once, and with the error of the status that opened it. */
  lemma ReportedExactly(inputs: seq<Input>, k: nat, err: Option<nat>)
    requires k < |inputs|
    ensures Exec(inputs[..k + 1]).1 == Exec(inputs[..k]).1 + [TransientDisconnect(err)]
            <==> (exists j: nat :: OpenSince(inputs, j, k) && inputs[j].status.err == err)
                 && (inputs[k].TimeUp? || (inputs[k].status.event == NoEvent && inputs[k].expired))
  {
    assert inputs[..k + 1][..k] == inputs[..k];
    WindowExactly(inputs, k, err);
    var (mode, out) := Exec(inputs[..k]);
    var more := Step(mode, inputs[k]).1;
    assert Exec(inputs[..k + 1]).1 == out + more;
    assert out + more == out + [TransientDisconnect(err)] <==> more == [TransientDisconnect(err)] by {
      assert (out + more)[|out|..] == more && (out + [TransientDisconnect(err)])[|out|..] == [TransientDisconnect(err)];
    }
  }
}
