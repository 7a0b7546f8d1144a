/**
 Busy replies to callers. The slot is looked at twice before a session is put into it, and only the first look
 compares the call with the one in the slot.
 */
module CallBusy {
  import opened Options
  import opened CallMachine
  import opened CallLife
  import opened CallSlot

  /** A Busy reply names the caller and the call. */
  datatype Busy = Busy(peer: nat, callId: nat)

  /** The slot holds this very call. */
  predicate InSlot(st: State, call: Busy) {
    && st.active.Some? && st.active.value in st.sessions
    && st.sessions[st.active.value].call.peer == call.peer && st.sessions[st.active.value].call.callId == call.callId
  }

  /** The reply an action sends, if any. */
  function BusyReply(st: State, act: Action): Option<Busy> {
    if !act.Step? || act.t !in st.threads || !st.threads[act.t].Free? || st.active.None? then None
    else
      match st.threads[act.t].entry
      case InCheck(peer, callId, _) => if InSlot(st, Busy(peer, callId)) then None else Some(Busy(peer, callId))
      case InInstall(peer, callId, _) => Some(Busy(peer, callId))
      case _ => None
  }

  /** All replies of a run, in order. */
  function Replies(run: seq<Action>): seq<Busy> {
    if run == [] then []
    else
      var init := run[..|run| - 1];
      var reply := BusyReply(Exec(INITIAL, init), run[|run| - 1]);
      if reply.Some? then Replies(init) + [reply.value] else Replies(init)
  }

  /** The thread has passed the first look for a call. */
  predicate PastCheck(pc: Pc, peer: nat, callId: nat, device: nat) {
    pc == Free(InPrepare(peer, callId, device)) || pc == Free(InInstall(peer, callId, device))
  }

  /** Whoever is past the first look took it at some time while the slot was empty. */
  lemma {:induction false} LookedWhenEmpty(run: seq<Action>, t: nat, peer: nat, callId: nat, device: nat)
      returns (i: nat)
    requires t in Exec(INITIAL, run).threads && PastCheck(Exec(INITIAL, run).threads[t], peer, callId, device)
    ensures i < |run| && run[i].Step? && run[i].t == t && Exec(INITIAL, run[..i]).active.None?
    ensures var st := Exec(INITIAL, run[..i]); t in st.threads && st.threads[t] == Free(InCheck(peer, callId, device))
    decreases |run|
  {
    var n := |run| - 1;
    var init := run[..n];
    var st := Exec(INITIAL, init);
    if t in st.threads && PastCheck(st.threads[t], peer, callId, device) {
      i := LookedWhenEmpty(init, t, peer, callId, device);
      assert init[..i] == run[..i];
    } else {
      i := n;
      FirstLook(st, run[n], t, peer, callId, device);
    }
  }

  lemma FirstLook(st: State, act: Action, t: nat, peer: nat, callId: nat, device: nat)
    requires var st' := Apply(st, act); t in st'.threads && PastCheck(st'.threads[t], peer, callId, device)
    requires !(t in st.threads && PastCheck(st.threads[t], peer, callId, device))
    ensures act.Step? && act.t == t && t in st.threads && st.threads[t] == Free(InCheck(peer, callId, device))
            && st.active.None?
  {
  }

  /** In every run, a Busy reply goes to the call in the slot itself exactly if it is sent by the second look and
      the call looked for is the one in the slot. */
  lemma OwnBusyExactly(run: seq<Action>, act: Action)
    ensures var st := Exec(INITIAL, run);
            var reply := BusyReply(st, act);
            reply.Some? && InSlot(st, reply.value)
            <==> act.Step? && act.t in st.threads && st.threads[act.t].Free? && st.threads[act.t].entry.InInstall?
                 && InSlot(st, Busy(st.threads[act.t].entry.peer, st.threads[act.t].entry.callId))
  {
  }

  /** Any reply goes to the call that is looked for, while the slot is taken. The first look sends one exactly if
      the slot is taken by another call, and the second one exactly if it is taken at all. */
  lemma BusyExactly(st: State, act: Action, call: Busy)
    ensures BusyReply(st, act) == Some(call)
            <==> && st.active.Some? && act.Step? && act.t in st.threads
                 && (Looks(st.threads[act.t], call, false) ==> !InSlot(st, call))
                 && (Looks(st.threads[act.t], call, false) || Looks(st.threads[act.t], call, true))
  {
  }

  /** The thread is about to look at the slot for this call, for the first or the second time. */
  predicate Looks(pc: Pc, call: Busy, again: bool) {
    && pc.Free? && (if again then pc.entry.InInstall? else pc.entry.InCheck?)
    && pc.entry.peer == call.peer && pc.entry.callId == call.callId
  }

  /** And then two offers of that call have raced: the thread that sends it had found the slot empty before the
      session that is in it now was installed, by another thread. */
  lemma OwnBusyRaced(run: seq<Action>, act: Action) returns (i: nat)
    requires var st := Exec(INITIAL, run); BusyReply(st, act).Some? && InSlot(st, BusyReply(st, act).value)
    ensures i < |run|
    ensures var st, before := Exec(INITIAL, run), Exec(INITIAL, run[..i]);
            && run[i].Step? && run[i].t == act.t && before.active.None? && st.active.Some?
            && act.t in before.threads && before.threads[act.t].Free? && before.threads[act.t].entry.InCheck?
            && before.threads[act.t].entry.peer == BusyReply(st, act).value.peer
            && before.threads[act.t].entry.callId == BusyReply(st, act).value.callId
            && st.active.value !in before.sessions
  {
    var st := Exec(INITIAL, run);
    var entry := st.threads[act.t].entry;
    OwnBusyExactly(run, act);
    i := LookedWhenEmpty(run, act.t, entry.peer, entry.callId, entry.device);
    SlotWasEmpty(run, i, st.active.value);
  }

  /** A session in the slot now wasn't there at all when the slot was empty. */
  lemma SlotWasEmpty(run: seq<Action>, i: nat, s: nat)
    requires i <= |run| && Exec(INITIAL, run[..i]).active.None? && Exec(INITIAL, run).active == Some(s)
    ensures s !in Exec(INITIAL, run[..i]).sessions
  {
    hide Exec;
    var before := Exec(INITIAL, run[..i]);
    CallLife.Reachable(run[..i]);
    CallLife.Reachable(run);
    assert SessionOk(Exec(INITIAL, run), s);
    if s in before.sessions {
      assert SessionOk(before, s);
      assert run[..i] + run[i..] == run;
      ExecConcat(INITIAL, run[..i], run[i..]);
      LastingRun(before, run[i..], s);
    }
  }

  /** The same offer arrives twice, and both threads take their first look before either installs a session. */
  const LOOKED_TWICE := [
    Start(0, Free(InCheck(1, 1, 1))), Start(1, Free(InCheck(1, 1, 1))), Step(0, true, 0), Step(1, true, 0)]
  const OFFERED_TWICE := LOOKED_TWICE + [Step(0, true, 0), Step(1, true, 0), Step(0, true, 0)]

  function Both(a: Entry, b: Entry): State { State(None, map[], map[0 := Free(a), 1 := Free(b)]) }

  lemma OneMore(run: seq<Action>, act: Action)
    ensures Exec(INITIAL, run + [act]) == Apply(Exec(INITIAL, run), act)
    ensures var reply := BusyReply(Exec(INITIAL, run), act);
            Replies(run + [act]) == if reply.Some? then Replies(run) + [reply.value] else Replies(run)
  {
    assert (run + [act])[..|run|] == run;
  }

  lemma LookedTwice()
    ensures Exec(INITIAL, LOOKED_TWICE) == Both(InPrepare(1, 1, 1), InPrepare(1, 1, 1)) && Replies(LOOKED_TWICE) == []
  {
    assert Exec(INITIAL, []) == INITIAL && Replies([]) == [];
    hide Exec;
    hide Replies;
    var run := LOOKED_TWICE;
    OneMore([], run[0]);
    assert [] + [run[0]] == run[..1] && run[..1] + [run[1]] == run[..2] && run[..2] + [run[2]] == run[..3]
        && run[..3] + [run[3]] == run;
    OneMore(run[..1], run[1]);
    assert Exec(INITIAL, run[..2]) == Both(InCheck(1, 1, 1), InCheck(1, 1, 1));
    OneMore(run[..2], run[2]);
    assert Exec(INITIAL, run[..3]) == Both(InPrepare(1, 1, 1), InCheck(1, 1, 1));
    OneMore(run[..3], run[3]);
  }

  /** Then the second thread answers Busy to the call that the first one has just put into the slot. */
  lemma BusyWithItself()
    ensures InSlot(Exec(INITIAL, OFFERED_TWICE), Busy(1, 1))
            && Replies(OFFERED_TWICE + [Step(1, true, 0)]) == [Busy(1, 1)]
  {
    hide Exec;
    hide Replies;
    LookedTwice();
    var run := OFFERED_TWICE;
    assert LOOKED_TWICE + [run[4]] == run[..5] && run[..5] + [run[5]] == run[..6] && run[..6] + [run[6]] == run;
    OneMore(LOOKED_TWICE, run[4]);
    assert Exec(INITIAL, run[..5]) == Both(InInstall(1, 1, 1), InPrepare(1, 1, 1));
    OneMore(run[..5], run[5]);
    assert Exec(INITIAL, run[..6]) == Both(InInstall(1, 1, 1), InInstall(1, 1, 1));
    OneMore(run[..6], run[6]);
    OneMore(run, Step(1, true, 0));
  }
}
