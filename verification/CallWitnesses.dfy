/**
 Runs that show what the call bridge does not promise: legs that stay open, and an answered call that times out.
 */
module CallWitnesses {
  import opened Options
  import opened CallMachine
  import opened CallLife
  import opened CallSlot
  import opened CallLegs
  import opened CallSolo

  /** A session that has been ended: its stored legs are closed. */
  function EndedBy(sess: Session, t: nat, reason: Reason, notify: bool): Session {
    var life := Life(Some(t), reason, notify, true, true, false,
      if notify then 1 else 0, if reason != LocalDecline then 1 else 0);
    var swept := sess.(life := life);
    var mx := if sess.mx.leg.Some? then Closed(swept, sess.mx.leg.value) else swept;
    var sig := if sess.sig.leg.Some? then Closed(mx, sess.sig.leg.value) else mx;
    sig.(life := life.(ended := true))
  }

  lemma SoloFirst(t: nat, at: Local, c: Choice, rest: seq<Choice>)
    requires at.next.Some?
    ensures Solo(t, at, [c] + rest) == Solo(t, LocalStep(at.sess, t, at.next.value, c.ok, c.newId), rest)
  {
    assert ([c] + rest)[1..] == rest;
  }

  /** A few more steps that all succeed. */
  function Fine(n: nat): seq<Choice> { if n == 0 then [] else [FINE] + Fine(n - 1) }

  lemma EndAlone(sess: Session, t: nat, reason: Reason, notify: bool)
    requires sess.life == NEW_LIFE
    ensures Solo(t, Local(sess, Some(End(Enter(reason, notify)))), Fine(8))
            == Local(EndedBy(sess, t, reason, notify), None)
  {
    hide Solo;
    var life := NEW_LIFE.(ender := Some(t), reason := reason, notify := notify);
    var at1 := Local(sess.(life := life), Some(End(HangUpSignal(reason, notify))));
    SoloFirst(t, Local(sess, Some(End(Enter(reason, notify)))), FINE, Fine(7));
    var at2 := LocalStep(at1.sess, t, at1.next.value, true, 0);
    SoloFirst(t, at1, FINE, Fine(6));
    var at3 := LocalStep(at2.sess, t, at2.next.value, true, 0);
    SoloFirst(t, at2, FINE, Fine(5));
    SoloFirst(t, at3, FINE, Fine(4));
    EndAlone2(at3.sess.(life := at3.sess.life.(cancelled := true)), t);
  }

  lemma EndAlone2(sess: Session, t: nat)
    ensures var swept := sess.(life := sess.life.(swept := true));
            var mx := if sess.mx.leg.Some? then Closed(swept, sess.mx.leg.value) else swept;
            var sig := if sess.sig.leg.Some? then Closed(mx, sess.sig.leg.value) else mx;
            Solo(t, Local(sess, Some(End(Sweep))), Fine(4)) == Local(sig.(life := sig.life.(ended := true)), None)
  {
    var at0 := Local(sess, Some(End(Sweep)));
    SoloFirst(t, at0, FINE, Fine(3));
    var at1 := EndStep(sess, t, Sweep);
    SoloFirst(t, at1, FINE, Fine(2));
    var at2 := EndStep(at1.sess, t, at1.next.value.e);
    SoloFirst(t, at2, FINE, Fine(1));
    var at3 := EndStep(at2.sess, t, at2.next.value.e);
    SoloFirst(t, at3, FINE, Fine(0));
  }

  /******* Legs that stay open *******/

  /** An outgoing call in the slot, set up by thread 0, and an incoming one. */
  const OUTGOING := [Start(0, Free(OutInstall(1, 1))), Step(0, true, 0)]
  const INCOMING := [Start(0, Free(InCheck(1, 1, 1))), Step(0, true, 0), Step(0, true, 0), Step(0, true, 0)]

  lemma OutgoingRuns()
    ensures Exec(INITIAL, OUTGOING)
            == State(Some(0), map[0 := NewSession(false, 1, 1, 0, 0)], map[0 := At(0, Out(CreateMatrixLeg))])
  {
    assert OUTGOING[..1][..0] == [];
    assert Exec(INITIAL, OUTGOING[..1]) == State(None, map[], map[0 := Free(OutInstall(1, 1))]);
  }

  lemma IncomingRuns()
    ensures Exec(INITIAL, INCOMING)
            == State(Some(0), map[0 := NewSession(true, 1, 1, 1, 0)], map[0 := At(0, Ring(NewLeg))])
  {
    assert INCOMING[..3][..2] == INCOMING[..2] && INCOMING[..2][..1] == INCOMING[..1] && INCOMING[..1][..0] == [];
    assert Exec(INITIAL, INCOMING[..1]) == State(None, map[], map[0 := Free(InCheck(1, 1, 1))]);
    assert Exec(INITIAL, INCOMING[..2]) == State(None, map[], map[0 := Free(InPrepare(1, 1, 1))]);
    assert Exec(INITIAL, INCOMING[..3]) == State(None, map[], map[0 := Free(InInstall(1, 1, 1))]);
  }

  /** Another thread ends session 0, on its own. */
  function Shutdown(t: nat): seq<Action> { [Start(t, At(0, End(Enter(BridgeShutdown, false))))] + StepsOf(t, Fine(8)) }

  /** Continues a run with steps of one thread. */
  lemma SoloAfter(run: seq<Action>, s: nat, t: nat, choices: seq<Choice>, end: Local)
    requires var st := Exec(INITIAL, run);
             && s in st.sessions && t in st.threads && st.threads[t].At? && st.threads[t].s == s
             && Solo(t, Origin(st, s, t), choices) == end
    ensures Reached(Exec(INITIAL, run), Exec(INITIAL, run + StepsOf(t, choices)), s, t, end)
  {
    hide Exec;
    hide Solo;
    CallLife.Reachable(run);
    ExecConcat(INITIAL, run, StepsOf(t, choices));
    SoloRun(Exec(INITIAL, run), s, t, choices);
  }

  lemma StartAfter(run: seq<Action>, t: nat, pc: Pc)
    requires t !in Exec(INITIAL, run).threads && CanStart(Exec(INITIAL, run), pc)
    ensures Exec(INITIAL, run + [Start(t, pc)]) == Go(Exec(INITIAL, run), t, pc)
  {
    hide CanStart;
    assert (run + [Start(t, pc)])[..|run|] == run;
  }

  lemma ShutdownAfter(run: seq<Action>, t: nat)
    requires var st := Exec(INITIAL, run); 0 in st.sessions && st.sessions[0].life == NEW_LIFE && t !in st.threads
    ensures var st, st' := Exec(INITIAL, run), Exec(INITIAL, run + Shutdown(t));
            && st'.sessions == st.sessions[0 := EndedBy(st.sessions[0], t, BridgeShutdown, false)]
            && st'.threads == st.threads[t := Done] && st'.active == if st.active == Some(0) then None else st.active
  {
    hide Exec;
    hide Solo;
    var st, pc := Exec(INITIAL, run), At(0, End(Enter(BridgeShutdown, false)));
    StartAfter(run, t, pc);
    EndAlone(st.sessions[0], t, BridgeShutdown, false);
    var begun := run + [Start(t, pc)];
    SoloAfter(begun, 0, t, Fine(8), Local(EndedBy(st.sessions[0], t, BridgeShutdown, false), None));
    assert begun + StepsOf(t, Fine(8)) == run + Shutdown(t);
    assert st.threads[t := pc][t := Done] == st.threads[t := Done];
  }

  /** The bridge is stopped after the Matrix leg of an outgoing call has been created, but before it is stored. */
  const OUTGOING_LEG := OUTGOING + StepsOf(0, [Choice(true, 7)])
  const OUTGOING_LEAK := OUTGOING_LEG + Shutdown(1) + StepsOf(0, Fine(3))

  lemma OutgoingLegLeaks()
    ensures var st := Exec(INITIAL, OUTGOING_LEAK);
            && 0 in st.sessions && st.active.None? && st.sessions[0].life.ended
            && st.threads == map[0 := Done, 1 := Done] && Settled(st, 0)
            && st.sessions[0].legs == map[7 := Leg(true, true)]
  {
    hide Exec;
    hide Solo;
    var sess := NewSession(false, 1, 1, 0, 0);
    OutgoingRuns();
    var created := Local(sess.(legs := map[7 := Leg(true, true)]), Some(Out(StoreMatrixLeg(7))));
    OneStep(0, Local(sess, Some(Out(CreateMatrixLeg))), Choice(true, 7));
    SoloAfter(OUTGOING, 0, 0, [Choice(true, 7)], created);
    ShutdownAfter(OUTGOING_LEG, 1);
    var ended := EndedBy(created.sess, 1, BridgeShutdown, false);
    StoredLate(ended);
    SoloAfter(OUTGOING_LEG + Shutdown(1), 0, 0, Fine(3), Local(ended.(mx := Stored(ended, 7)), None));
  }

  lemma OneStep(t: nat, at: Local, c: Choice)
    requires at.next.Some?
    ensures Solo(t, at, [c]) == LocalStep(at.sess, t, at.next.value, c.ok, c.newId)
  {
    assert [c] + [] == [c];
    SoloFirst(t, at, c, []);
  }

  lemma StoredLate(sess: Session)
    requires sess.life.cancelled
    ensures Solo(0, Local(sess, Some(Out(StoreMatrixLeg(7)))), Fine(3)) == Local(sess.(mx := Stored(sess, 7)), None)
  {
    var at1 := Local(sess.(mx := Stored(sess, 7)), Some(Out(AnswerOffer)));
    SoloFirst(0, Local(sess, Some(Out(StoreMatrixLeg(7)))), FINE, Fine(2));
    SoloFirst(0, at1, FINE, Fine(1));
    SoloFirst(0, Local(at1.sess, Some(Out(Gathered))), FINE, Fine(0));
  }

  /******* Answering *******/

  /** An incoming call that rings in Matrix, and the thread that answers it there, up to its new Signal leg. */
  const RINGING := INCOMING + StepsOf(0, [Choice(true, 7)] + Fine(3))
  const ANSWERED := RINGING + [Start(1, At(0, Answer(MatrixAnswer)))] + StepsOf(1, [FINE, Choice(true, 8)])

  /** The session at that point. */
  function AnsweredSession(): Session {
    NewSession(true, 1, 1, 1, 0).(mx := Side(Some(7), false), legs := map[7 := Leg(true, true), 8 := Leg(false, true)],
      ice := IceState(1, Some(1), [], {}, []))
  }

  lemma RingingAlone()
    ensures var sess := NewSession(true, 1, 1, 1, 0);
            Solo(0, Local(sess, Some(Ring(NewLeg))), [Choice(true, 7)] + Fine(3))
            == Local(sess.(mx := Side(Some(7), false), legs := map[7 := Leg(true, true)]), Some(Timer))
  {
    var sess := NewSession(true, 1, 1, 1, 0);
    var legs := map[7 := Leg(true, true)];
    SoloFirst(0, Local(sess, Some(Ring(NewLeg))), Choice(true, 7), Fine(3));
    SoloFirst(0, Local(sess.(legs := legs), Some(Ring(Store(7)))), FINE, Fine(2));
    var stored := sess.(mx := Side(Some(7), false), legs := legs);
    SoloFirst(0, Local(stored, Some(Ring(Offer(7)))), FINE, Fine(1));
    SoloFirst(0, Local(stored, Some(Ring(Send))), FINE, Fine(0));
  }

  lemma AnsweredRuns()
    ensures var st := Exec(INITIAL, ANSWERED);
            && st.active == Some(0) && st.sessions == map[0 := AnsweredSession()]
            && st.threads == map[0 := At(0, Timer), 1 := At(0, Answer(StoreLeg(8)))]
  {
    hide Exec;
    hide Solo;
    IncomingRuns();
    RingingAlone();
    var rings := NewSession(true, 1, 1, 1, 0).(mx := Side(Some(7), false), legs := map[7 := Leg(true, true)]);
    SoloAfter(INCOMING, 0, 0, [Choice(true, 7)] + Fine(3), Local(rings, Some(Timer)));
    StartAfter(RINGING, 1, At(0, Answer(MatrixAnswer)));
    AnsweringAlone(rings);
    SoloAfter(RINGING + [Start(1, At(0, Answer(MatrixAnswer)))], 0, 1, [FINE, Choice(true, 8)],
      Local(AnsweredSession(), Some(Answer(StoreLeg(8)))));
  }

  lemma AnsweringAlone(rings: Session)
    requires rings == NewSession(true, 1, 1, 1, 0).(mx := Side(Some(7), false), legs := map[7 := Leg(true, true)])
    ensures Solo(1, Local(rings, Some(Answer(MatrixAnswer))), [FINE, Choice(true, 8)])
            == Local(AnsweredSession(), Some(Answer(StoreLeg(8))))
  {
    assert [FINE] + [Choice(true, 8)] == [FINE, Choice(true, 8)];
    SoloFirst(1, Local(rings, Some(Answer(MatrixAnswer))), FINE, [Choice(true, 8)]);
    OneStep(1, Local(rings.(ice := IceState(1, Some(1), [], {}, [])), Some(Answer(PrepareLeg))), Choice(true, 8));
  }

  /** The bridge is stopped after the answering thread has created the Signal leg, but before it is stored. */
  const ANSWERING_LEAK := ANSWERED + Shutdown(2) + StepsOf(1, Fine(3)) + StepsOf(0, Fine(1))

  lemma AnsweringLegLeaks()
    ensures var st := Exec(INITIAL, ANSWERING_LEAK);
            && 0 in st.sessions && st.active.None? && st.sessions[0].life.ended
            && st.threads == map[0 := Done, 1 := Done, 2 := Done] && Settled(st, 0)
            && st.sessions[0].legs == map[7 := Leg(true, false), 8 := Leg(false, true)]
  {
    hide Exec;
    hide Solo;
    AnsweredRuns();
    ShutdownAfter(ANSWERED, 2);
    var ended := EndedBy(AnsweredSession(), 2, BridgeShutdown, false);
    var late := ended.(sig := Stored(ended, 8));
    AnswerStored(ended);
    SoloAfter(ANSWERED + Shutdown(2), 0, 1, Fine(3), Local(late, None));
    TimerGone(late);
    SoloAfter(ANSWERED + Shutdown(2) + StepsOf(1, Fine(3)), 0, 0, Fine(1), Local(late, None));
  }

  lemma TimerGone(sess: Session)
    requires sess.life.cancelled
    ensures Solo(0, Local(sess, Some(Timer)), Fine(1)) == Local(sess, None)
  {
    SoloFirst(0, Local(sess, Some(Timer)), FINE, Fine(0));
  }

  /** The answering thread stores its leg, has no candidates to add, and connects. */
  lemma AnswerStored(sess: Session)
    requires sess.ice.pending == []
    ensures Solo(1, Local(sess, Some(Answer(StoreLeg(8)))), Fine(3)) == Local(sess.(sig := Stored(sess, 8)), None)
  {
    var stored := sess.(sig := Stored(sess, 8));
    SoloFirst(1, Local(sess, Some(Answer(StoreLeg(8)))), FINE, Fine(2));
    assert stored.(ice := stored.ice.(pending := [])) == stored;
    SoloFirst(1, Local(stored, Some(Answer(Drain([])))), FINE, Fine(1));
    SoloFirst(1, Local(stored, Some(Answer(Connect))), FINE, Fine(0));
  }

  /******* The ring timer *******/

  /** The call is answered and connected, and then its ring timer runs out. */
  const TIMED_OUT := ANSWERED + StepsOf(1, Fine(3)) + StepsOf(0, Fine(9))

  lemma AnsweredCallTimesOut()
    ensures var connected := Exec(INITIAL, ANSWERED + StepsOf(1, Fine(3)));
            && connected.active == Some(0) && 0 in connected.sessions && 1 in connected.threads
            && connected.sessions[0].ice.answerer == Some(1) && connected.threads[1] == Done
            && connected.sessions[0].sig == Side(Some(8), false) && connected.sessions[0].life == NEW_LIFE
    ensures var st := Exec(INITIAL, TIMED_OUT);
            && st.active.None? && 0 in st.sessions && st.sessions[0].life.ended
            && st.sessions[0].life.reason == Timeout && st.sessions[0].life.signalHangups == 1
  {
    hide Exec;
    hide Solo;
    AnsweredRuns();
    var sess := AnsweredSession();
    var connected := sess.(sig := Side(Some(8), false));
    AnswerStored(sess);
    SoloAfter(ANSWERED, 0, 1, Fine(3), Local(connected, None));
    SoloFirst(0, Local(connected, Some(Timer)), FINE, Fine(8));
    EndAlone(connected, 0, Timeout, true);
    assert Fine(9) == [FINE] + Fine(8);
    SoloAfter(ANSWERED + StepsOf(1, Fine(3)), 0, 0, Fine(9), Local(EndedBy(connected, 0, Timeout, true), None));
  }

  /** Who ends a session, and why, is settled once somebody has entered end. */
  lemma {:induction false} EnderStays(st: State, run: seq<Action>, s: nat)
    requires CallLife.Inv(st) && s in st.sessions && st.sessions[s].life.ender.Some?
    ensures var st' := Exec(st, run);
            && CallLife.Inv(st') && s in st'.sessions
            && st'.sessions[s].life.ender == st.sessions[s].life.ender
            && st'.sessions[s].life.reason == st.sessions[s].life.reason
  {
    hide CallLife.Inv;
    hide Apply;
    if run != [] {
      var init, last := run[..|run| - 1], run[|run| - 1];
      EnderStays(st, init, s);
      ActionKeepsInv(Exec(st, init), last);
      EnderKept(Exec(st, init), last, s);
    }
  }

  lemma EnderKept(st: State, act: Action, s: nat)
    requires CallLife.Inv(st) && s in st.sessions && st.sessions[s].life.ender.Some?
    ensures s in Apply(st, act).sessions
    ensures var life, life' := st.sessions[s].life, Apply(st, act).sessions[s].life;
            life'.ender == life.ender && life'.reason == life.reason
  {
    if act.Step? && act.t in st.threads && st.threads[act.t].At? && st.threads[act.t].s == s {
      LifeKept(st.sessions[s], act.t, st.threads[act.t].p, act.ok, act.newId);
    }
  }

  lemma LifeKept(sess: Session, t: nat, p: Place, ok: bool, newId: nat)
    requires sess.life.ender.Some?
    ensures var life := LocalStep(sess, t, p, ok, newId).sess.life;
            life.ender == sess.life.ender && life.reason == sess.life.reason
  {
  }

  /** A ring timer that fires, and whose thread goes on at once, ends its call exactly if nobody has entered end
      before. Whether the call has been answered makes no difference. From then on the call is one that timed out,
      and every run that steps its timer's thread seven times more ends it. */
  lemma TimerEndsExactly(run: seq<Action>, s: nat, t: nat, fire: Action, enter: Action, rest: seq<Action>)
    requires var st := Exec(INITIAL, run);
             t in st.threads && st.threads[t] == At(s, Timer) && s in st.sessions && !st.sessions[s].life.ended
    requires fire.Step? && enter.Step? && fire.t == t && enter.t == t
    ensures var st, mid := Exec(INITIAL, run), Exec(INITIAL, run + [fire, enter]);
            var st' := Exec(mid, rest);
            && s in mid.sessions && s in st'.sessions
            && (st'.sessions[s].life.ender == Some(t) <==> st.sessions[s].life.ender.None?)
            && (st.sessions[s].life.ender.None? ==>
                  st'.sessions[s].life.reason == Timeout
                      && (DriverSteps(mid, rest, s) >= 7 ==> st'.sessions[s].life.ended))
            && (st.sessions[s].life.ender.Some? ==> st'.sessions[s].life.ender == st.sessions[s].life.ender)
  {
    hide Exec;
    var st, mid := Exec(INITIAL, run), Exec(INITIAL, run + [fire, enter]);
    CallLife.Reachable(run);
    CallLife.Reachable(run + [fire, enter]);
    TimerFires(run, s, t, fire, enter);
    EnderStays(mid, rest, s);
    if st.sessions[s].life.ender.None? {
      NeverStranded(mid, s, rest);
    }
  }

  lemma TimerFires(run: seq<Action>, s: nat, t: nat, fire: Action, enter: Action)
    requires var st := Exec(INITIAL, run);
             t in st.threads && st.threads[t] == At(s, Timer) && s in st.sessions && !st.sessions[s].life.ended
    requires fire.Step? && enter.Step? && fire.t == t && enter.t == t
    ensures var st, mid := Exec(INITIAL, run), Exec(INITIAL, run + [fire, enter]);
            && s in mid.sessions && !mid.sessions[s].life.ended && mid.sessions[s].life.ender.Some?
            && (st.sessions[s].life.ender.None? ==>
                  mid.sessions[s].life.ender == Some(t) && mid.sessions[s].life.reason == Timeout && Left(mid, s) == 7)
            && (st.sessions[s].life.ender.Some? ==>
                  mid.sessions[s] == st.sessions[s] && st.sessions[s].life.ender != Some(t))
  {
    var st := Exec(INITIAL, run);
    CallLife.Reachable(run);
    assert CallLife.SessionOk(st, s) && CallLife.ThreadOk(st, t);
    assert run + [fire, enter] == (run + [fire]) + [enter];
    OneMore(run, fire);
    OneMore(run + [fire], enter);
  }

  lemma OneMore(run: seq<Action>, act: Action)
    ensures Exec(INITIAL, run + [act]) == Apply(Exec(INITIAL, run), act)
  {
    assert (run + [act])[..|run|] == run;
  }
}
