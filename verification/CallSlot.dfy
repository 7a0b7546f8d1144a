/**
 The single call slot, over whole runs.
 */
module CallSlot {
  import opened Options
  import opened CallMachine
  import opened CallLife

  /** How one action can change the slot: a new session takes it when it is empty, or the thread that
      finishes a session's end empties it. */
  lemma SlotChanges(st: State, act: Action)
    requires Inv(st) && Apply(st, act).active != st.active
    ensures act.Step? && act.t in st.threads
    ensures st.active.None? ==>
              && st.threads[act.t].Free?
              && Apply(st, act).active.value !in st.sessions && Apply(st, act).active.value in Apply(st, act).sessions
    ensures st.active.Some? ==>
              && st.threads[act.t] == At(st.active.value, End(Clear))
              && Apply(st, act).active.None? && Apply(st, act).sessions[st.active.value].life.ended
  {
    if st.active.Some? && st.threads[act.t].At? {
      var s := st.threads[act.t].s;
      assert SessionOk(st, s) && ThreadOk(st, act.t);
    }
  }

  predicate Concerns(entry: Entry, sess: Session)
    requires entry.IceLookup? || entry.AnswerLookup?
  {
    && !sess.life.ended && sess.call.peer == entry.peer && sess.call.callId == entry.callId
    && (entry.AnswerLookup? ==> !sess.call.incoming && entry.device != 0)
  }

  /** A candidate or an answer reaches a session exactly if the slot holds its own call, and an answer also
      only if it is an outgoing call answered by a known device. */
  lemma ReachesItsCallExactly(st: State, t: nat, ok: bool, newId: nat)
    requires Inv(st) && t in st.threads && st.threads[t].Free?
    requires st.threads[t].entry.IceLookup? || st.threads[t].entry.AnswerLookup?
    ensures var entry, next := st.threads[t].entry, Apply(st, Step(t, ok, newId)).threads[t];
            && (next.At? <==> exists s :: s in st.sessions && Concerns(entry, st.sessions[s]))
            && (next.At? ==> next.s in st.sessions && !st.sessions[next.s].life.ended)
  {
    hide SessionLife;
    forall s | s in st.sessions
      ensures !st.sessions[s].life.ended <==> st.active == Some(s)
    {
      assert SessionOk(st, s);
    }
  }

  /** Sessions stay, and what ended stays ended. */
  lemma Lasting(st: State, act: Action, s: nat)
    requires Inv(st) && s in st.sessions
    ensures s in Apply(st, act).sessions
    ensures Apply(st, act).sessions[s].call == st.sessions[s].call
    ensures st.sessions[s].life.ended ==> Apply(st, act).sessions[s].life.ended
  {
    if act.Step? && act.t in st.threads && st.threads[act.t].At? && st.threads[act.t].s == s {
      var sess, t := st.sessions[s], act.t;
      assert SessionOk(st, s) && ThreadOk(st, t);
      OwnSession(sess, s, t, st.threads[t].p, act.ok, act.newId, PcOf(st, sess.call.starter),
        if sess.life.ender.Some? then PcOf(st, sess.life.ender.value) else Done);
    }
  }

  lemma {:induction false} LastingRun(st: State, run: seq<Action>, s: nat)
    requires Inv(st) && s in st.sessions
    ensures Inv(Exec(st, run)) && s in Exec(st, run).sessions
    ensures st.sessions[s].life.ended ==> Exec(st, run).sessions[s].life.ended
  {
    hide Inv;
    hide Apply;
    if run != [] {
      var init := run[..|run| - 1];
      LastingRun(st, init, s);
      Lasting(Exec(st, init), run[|run| - 1], s);
      ActionKeepsInv(Exec(st, init), run[|run| - 1]);
    }
  }

  lemma {:induction false} ExecConcat(st: State, a: seq<Action>, b: seq<Action>)
    ensures Exec(st, a + b) == Exec(Exec(st, a), b)
  {
    hide Apply;
    if b == [] {
      assert a + b == a;
    } else {
      assert (a + b)[..|a + b| - 1] == a + b[..|b| - 1];
      ExecConcat(st, a, b[..|b| - 1]);
    }
  }

  /** A session holds the slot for one interval of the run: once it has lost the slot it never gets it back. */
  lemma OneInterval(run: seq<Action>, s: nat, i: nat, j: nat, k: nat)
    requires i <= j <= k <= |run|
    requires Exec(INITIAL, run[..i]).active == Some(s) && Exec(INITIAL, run[..k]).active == Some(s)
    ensures Exec(INITIAL, run[..j]).active == Some(s)
  {
    hide Apply;
    var at_i, at_j := Exec(INITIAL, run[..i]), Exec(INITIAL, run[..j]);
    Reachable(run[..i]);
    Reachable(run[..j]);
    Reachable(run[..k]);
    assert run[..i] + run[i..j] == run[..j] && run[..j] + run[j..k] == run[..k];
    ExecConcat(INITIAL, run[..i], run[i..j]);
    ExecConcat(INITIAL, run[..j], run[j..k]);
    LastingRun(at_i, run[i..j], s);
    LastingRun(at_j, run[j..k], s);
    assert SessionOk(at_j, s);
    assert SessionOk(Exec(INITIAL, run[..k]), s);
  }

  /** In every run at most one session hasn't ended, it is the one in the slot, and neither side of any
      session is hung up on before somebody has entered end. From then on each side is hung up on at most
      once, and by the time the session has ended exactly if the first to enter end wanted it. */
  lemma SingleSlot(run: seq<Action>, s: nat)
    requires s in Exec(INITIAL, run).sessions
    ensures var st := Exec(INITIAL, run);
            var life := st.sessions[s].life;
            && (!life.ended <==> st.active == Some(s))
            && (forall r :: r in st.sessions && r != s ==> life.ended || st.sessions[r].life.ended)
            && life.signalHangups in {0, SignalHangups(life)} && life.matrixHangups in {0, MatrixHangups(life)}
            && (life.ender.None? ==> life.signalHangups == 0 && life.matrixHangups == 0)
            && (life.ended ==> life.signalHangups == SignalHangups(life) && life.matrixHangups == MatrixHangups(life))
  {
    hide Exec;
    var st := Exec(INITIAL, run);
    Reachable(run);
    assert SessionOk(st, s);
    if st.sessions[s].life.ender.Some? && !st.sessions[s].life.ended {
      assert ThreadOk(st, st.sessions[s].life.ender.value);
    }
    forall r | r in st.sessions && r != s
      ensures st.sessions[s].life.ended || st.sessions[r].life.ended
    {
      assert SessionOk(st, r);
    }
  }

  /******* The slot is never stranded *******/

  /** The thread whose steps end the session. */
  function Driver(sess: Session): nat {
    if sess.life.ender.Some? then sess.life.ender.value else sess.call.starter
  }

  /** The most steps a driver can still take until its session is over, whichever calls fail. */
  function Rank(p: Place): nat {
    match p
    case End(e) =>
      (match e
       case Clear => 1
       case CloseSignal(_) => 2
       case CloseMatrix(_, _) => 3
       case Sweep => 4
       case Cancel => 5
       case HangUpMatrix(_) => 6
       case HangUpSignal(_, _) => 7
       case Enter(_, _) => 8)
    case Timer => 9
    case Ring(r) =>
      (match r
       case Discard(_) | Abort(_) => 9
       case Send => 10
       case Offer(_) => 11
       case Store(_) => 12
       case NewLeg => 13)
    case Out(o) =>
      (match o
       case Gather => 10
       case SendOffer => 11
       case StoreSignalLeg(_) => 12
       case CreateSignalLeg => 13
       case Gathered => 14
       case AnswerOffer => 15
       case StoreMatrixLeg(_) => 16
       case CreateMatrixLeg => 17)
    case _ => 0
  }

  function SessionRank(sess: Session, driver: Pc): nat {
    if sess.life.ended || !driver.At? then 0 else Rank(driver.p)
  }

  /** A driver's step brings its session closer to its end, whether what it tries succeeds or fails. */
  lemma DriverStep(sess: Session, s: nat, t: nat, p: Place, ok: bool, newId: nat, starter: Pc, ender: Pc)
    requires ThreadLife(sess, t, p) && SessionLife(sess, s, starter, ender) && !sess.life.ended
    requires t == Driver(sess) && (if sess.life.ender.Some? then Ends(At(s, p), s) else Drives(At(s, p), s))
    ensures var local := LocalStep(sess, t, p, ok, newId);
            && Driver(local.sess) == t
            && (local.sess.life.ended || (local.next.Some? && Rank(local.next.value) <= Rank(p)))
            && (newId !in sess.legs ==> local.sess.life.ended || Rank(local.next.value) < Rank(p))
  {
  }

  /** Other threads can only become the driver themselves, which leaves fewer steps. */
  lemma OtherStep(sess: Session, s: nat, t: nat, p: Place, ok: bool, newId: nat, starter: Pc, ender: Pc)
    requires ThreadLife(sess, t, p) && SessionLife(sess, s, starter, ender) && !sess.life.ended && t != Driver(sess)
    ensures var local := LocalStep(sess, t, p, ok, newId);
            && !local.sess.life.ended
            && (local.sess.life.ender == sess.life.ender
                || (sess.life.ender.None? && local.sess.life.ender == Some(t) && local.next.Some?
                      && Rank(local.next.value) == 7))
  {
  }

  /** The action is a step of the session's driver. If it creates a leg, it finds an unused id for it. */
  predicate Driving(st: State, act: Action, s: nat) {
    s in st.sessions && act.Step? && act.t == Driver(st.sessions[s]) && act.newId !in st.sessions[s].legs
  }

  /** How many steps of its driver a session takes at most to end. */
  function Left(st: State, s: nat): nat
    requires s in st.sessions
  {
    SessionRank(st.sessions[s], PcOf(st, Driver(st.sessions[s])))
  }

  /** A session that hasn't ended has a thread that is ending it, is about to, is still setting it up, or is
      its timer. */
  lemma HasDriver(st: State, s: nat)
    requires Inv(st) && s in st.sessions && !st.sessions[s].life.ended
    ensures var sess := st.sessions[s];
            var t := Driver(sess);
            && t in st.threads && ThreadLife(sess, t, st.threads[t].p)
            && (if sess.life.ender.Some? then Ends(st.threads[t], s) else Drives(st.threads[t], s))
            && 1 <= Left(st, s) <= 17
  {
    hide ThreadLife;
    assert SessionOk(st, s);
    assert ThreadOk(st, Driver(st.sessions[s]));
  }

  /** No action moves a session away from its end, and its driver's steps move it closer. */
  lemma ActionRank(st: State, act: Action, s: nat)
    requires Inv(st) && s in st.sessions && !st.sessions[s].life.ended
    ensures s in Apply(st, act).sessions && Left(Apply(st, act), s) <= Left(st, s)
    ensures Driving(st, act, s) ==> Left(Apply(st, act), s) < Left(st, s)
  {
    HasDriver(st, s);
    if act.Step? && act.t in st.threads && st.threads[act.t].At? && st.threads[act.t].s == s {
      var t, p, sess := act.t, st.threads[act.t].p, st.sessions[s];
      assert SessionOk(st, s) && ThreadOk(st, t);
      hide Inv;
      hide SessionOk;
      hide ThreadLife;
      hide SessionLife;
      hide LocalStep;
      var starter := PcOf(st, sess.call.starter);
      var ender := if sess.life.ender.Some? then PcOf(st, sess.life.ender.value) else Done;
      OwnSession(sess, s, t, p, act.ok, act.newId, starter, ender);
      if t == Driver(sess) {
        DriverStep(sess, s, t, p, act.ok, act.newId, starter, ender);
      } else {
        OtherStep(sess, s, t, p, act.ok, act.newId, starter, ender);
      }
    } else {
      hide Inv;
      OutsideAction(st, act, s);
    }
  }

  /** Threads that aren't in a session leave it and its driver alone. */
  lemma OutsideAction(st: State, act: Action, s: nat)
    requires s in st.sessions && Driver(st.sessions[s]) in st.threads
    requires st.threads[Driver(st.sessions[s])].At? && st.threads[Driver(st.sessions[s])].s == s
    requires !(act.Step? && act.t in st.threads && st.threads[act.t].At? && st.threads[act.t].s == s)
    ensures var st', t := Apply(st, act), Driver(st.sessions[s]);
            && s in st'.sessions && st'.sessions[s] == st.sessions[s]
            && t in st'.threads && st'.threads[t] == st.threads[t]
    ensures !Driving(st, act, s)
  {
  }

  /** How often a run steps the session's driver, whoever that is at the time. */
  function DriverSteps(st: State, run: seq<Action>, s: nat): nat {
    if run == [] then 0
    else
      var init := run[..|run| - 1];
      DriverSteps(st, init, s) + if Driving(Exec(st, init), run[|run| - 1], s) then 1 else 0
  }

  lemma {:induction false} RunRank(st: State, run: seq<Action>, s: nat)
    requires Inv(st) && s in st.sessions
    ensures var st' := Exec(st, run);
            && Inv(st') && s in st'.sessions
            && (st'.sessions[s].life.ended || Left(st', s) + DriverSteps(st, run, s) <= Left(st, s))
  {
    hide Inv;
    hide Apply;
    hide Left;
    hide Driving;
    if run != [] {
      var init, last := run[..|run| - 1], run[|run| - 1];
      RunRank(st, init, s);
      var mid := Exec(st, init);
      ActionKeepsInv(mid, last);
      Lasting(mid, last, s);
      if !mid.sessions[s].life.ended {
        ActionRank(mid, last, s);
      }
    }
  }

  /** Whatever calls fail and whatever other threads do in between, every run in which the driver of a session
      gets to take 17 steps ends the session and takes it out of the slot. Fewer do if it is further on. */
  lemma NeverStranded(st: State, s: nat, run: seq<Action>)
    requires Inv(st) && s in st.sessions && !st.sessions[s].life.ended
    ensures Driver(st.sessions[s]) in st.threads && 1 <= Left(st, s) <= 17
    ensures DriverSteps(st, run, s) >= Left(st, s) ==>
              s in Exec(st, run).sessions && Exec(st, run).sessions[s].life.ended && Exec(st, run).active != Some(s)
  {
    HasDriver(st, s);
    RunRank(st, run, s);
    var st' := Exec(st, run);
    assert SessionOk(st', s);
    if DriverSteps(st, run, s) >= Left(st, s) && !st'.sessions[s].life.ended {
      HasDriver(st', s);
    }
  }
}
