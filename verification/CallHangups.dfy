/**
 Why a call is ended by the thread that set it up or answered it, and whether Signal is told.
 */
module CallHangups {
  import opened Options
  import opened CallMachine
  import opened CallLife
  import opened CallSlot
  import CallLegs
  import opened CallIce

  /** The step fails, or finds that it can't go on. */
  predicate Fails(sess: Session, p: Place, ok: bool) {
    match p
    case Timer => !sess.life.cancelled
    case Ring(r) => (r.NewLeg? && !ok) || r.Discard? || r.Abort? || (r.Send? && (!ok || sess.life.cancelled))
    case Out(o) => !ok && (o.CreateMatrixLeg? || o.AnswerOffer? || o.CreateSignalLeg? || o.SendOffer? || o.Gather?)
    case Answer(a) =>
      || (!ok && (a.ApplyAnswer? || a.PrepareLeg? || a.Connect?))
      || (sess.ice.answerer.None? && !sess.life.cancelled
          && ((a.RemoteAnswer? && sess.sig.leg.None?) || (a.MatrixAnswer? && sess.mx.leg.None?)))
    case End(_) => false
    case Ice(_) => false
  }

  /** A thread goes on to end its call exactly if it fails. An offer that fails has its leg closed first. */
  lemma FailsExactly(sess: Session, t: nat, p: Place, ok: bool, newId: nat)
    requires !p.End?
    ensures var next := LocalStep(sess, t, p, ok, newId).next;
            && (Fails(sess, p, ok) <==> next.Some? && next.value.End?)
            && (next.Some? && next.value.End? ==> next.value.e.Enter?)
            && (p.Ring? && p.r.Offer? ==> next == Some(Ring(if ok then Send else Abort(p.r.leg))))
  {
  }

  /** Setting up an outgoing call, the offer has been sent. */
  ghost predicate Offered(run: seq<Action>, s: nat) {
    exists i :: 0 <= i < |run| && SendsOffer(Exec(INITIAL, run[..i]), run[i], s)
  }

  predicate SendsOffer(st: State, act: Action, s: nat) {
    act.Step? && act.ok && act.t in st.threads && st.threads[act.t] == At(s, Out(SendOffer))
  }

  lemma OfferedNow(run: seq<Action>, act: Action, s: nat)
    ensures Offered(run + [act], s) <==> Offered(run, s) || SendsOffer(Exec(INITIAL, run), act, s)
  {
    hide Exec;
    hide SendsOffer;
    var more := run + [act];
    assert forall i :: 0 <= i < |run| ==> more[i] == run[i] && more[..i] == run[..i];
    assert more[|run|] == act && more[..|run|] == run;
    if Offered(run, s) {
      var i :| 0 <= i < |run| && SendsOffer(Exec(INITIAL, run[..i]), run[i], s);
      assert SendsOffer(Exec(INITIAL, more[..i]), more[i], s);
    }
    if Offered(more, s) {
      var i :| 0 <= i < |more| && SendsOffer(Exec(INITIAL, more[..i]), more[i], s);
      if i < |run| {
        assert SendsOffer(Exec(INITIAL, run[..i]), run[i], s);
      }
    }
  }

  /** The reasons a starter has: its timer, or a failure, of which Signal is told if it has heard of the call. */
  predicate Cause(incoming: bool, offered: bool, reason: Reason, notify: bool) {
    if reason == Timeout then notify && (incoming || offered) else reason == Failed && notify == (incoming || offered)
  }

  /** Where a session's starter is, and with which reason it is ending the session. */
  predicate StarterCause(sess: Session, p: Place, offered: bool) {
    match p
    case Out(o) => offered == o.Gather?
    case Ring(_) => true
    case Timer => sess.call.incoming || offered
    case End(e) => e.Enter? ==> Cause(sess.call.incoming, offered, e.reason, e.notify)
    case _ => false
  }

  predicate EnderCause(sess: Session, offered: bool) {
    && (sess.life.ender == Some(sess.call.starter) ==>
          Cause(sess.call.incoming, offered, sess.life.reason, sess.life.notify))
    && (sess.life.ender.Some? && sess.life.ender == sess.ice.answerer ==>
          sess.life.reason == Failed && sess.life.notify)
  }

  lemma StarterStep(sess: Session, t: nat, p: Place, ok: bool, newId: nat, offered: bool)
    requires t == sess.call.starter && ThreadLife(sess, t, p) && StarterCause(sess, p, offered)
    requires EnderCause(sess, offered)
    requires sess.ice.answerer != Some(t) && (sess.life.ender == Some(t) ==> p.End?)
    ensures var local, sent := LocalStep(sess, t, p, ok, newId), offered || (p == Out(SendOffer) && ok);
            && EnderCause(local.sess, sent)
            && (local.next.Some? ==> StarterCause(local.sess, local.next.value, sent))
  {
  }

  /** The thread that has answered only goes on to end the call if it fails. */
  predicate AnswererCause(p: Place) {
    (p.End? && p.e.Enter? ==> p.e == Enter(Failed, true)) && !p.Ring? && !p.Out? && !p.Timer?
  }

  lemma OthersCause(sess: Session, t: nat, p: Place, ok: bool, newId: nat, offered: bool)
    requires t != sess.call.starter && EnderCause(sess, offered) && ThreadLife(sess, t, p)
    requires sess.ice.answerer == Some(t) ==> AnswererCause(p)
    requires p.Answer? ==> CallLegs.AnswerLegs(sess, t, p.a)
    requires sess.life.ender == Some(t) ==> p.End?
    ensures var local := LocalStep(sess, t, p, ok, newId);
            && EnderCause(local.sess, offered)
            && (local.next.Some? && local.sess.ice.answerer == Some(t) ==> AnswererCause(local.next.value))
  {
  }

  predicate ThreadCause(sess: Session, t: nat, p: Place, offered: bool) {
    && (t == sess.call.starter ==> StarterCause(sess, p, offered))
    && (sess.ice.answerer == Some(t) ==> AnswererCause(p))
    && (sess.life.ender == Some(t) ==> p.End? && !p.e.Enter?)
  }

  lemma StepCause(sess: Session, t: nat, p: Place, ok: bool, newId: nat, offered: bool)
    requires ThreadLife(sess, t, p) && ThreadCause(sess, t, p, offered) && EnderCause(sess, offered)
    requires p.Answer? ==> CallLegs.AnswerLegs(sess, t, p.a)
    requires sess.ice.answerer != Some(sess.call.starter)
    ensures var local, sent := LocalStep(sess, t, p, ok, newId), offered || (p == Out(SendOffer) && ok);
            && EnderCause(local.sess, sent) && local.sess.ice.answerer != Some(sess.call.starter)
            && (local.next.Some? ==> ThreadCause(local.sess, t, local.next.value, sent))
  {
    EnderPlace(sess, t, p, ok, newId);
    AnswererNext(sess, t, p, ok, newId);
    if t == sess.call.starter {
      StarterStep(sess, t, p, ok, newId, offered);
    } else {
      OthersCause(sess, t, p, ok, newId, offered);
    }
  }

  lemma EnderPlace(sess: Session, t: nat, p: Place, ok: bool, newId: nat)
    requires sess.life.ender == Some(t) ==> p.End? && !p.e.Enter?
    ensures var local := LocalStep(sess, t, p, ok, newId);
            local.next.Some? && local.sess.life.ender == Some(t) ==> local.next.value.End? && !local.next.value.e.Enter?
  {
  }

  lemma AnswererNext(sess: Session, t: nat, p: Place, ok: bool, newId: nat)
    ensures var after := LocalStep(sess, t, p, ok, newId).sess.ice.answerer;
            after == sess.ice.answerer || (p.Answer? && after == Some(t))
  {
  }

  lemma OtherCause(sess: Session, t: nat, p: Place, ok: bool, newId: nat, offered: bool, u: nat, q: Place)
    requires ThreadLife(sess, t, p) && u != t && ThreadCause(sess, u, q, offered)
    ensures var local, sent := LocalStep(sess, t, p, ok, newId), offered || (p == Out(SendOffer) && ok);
            ThreadCause(local.sess, u, q, sent)
  {
    CallLegs.Decided(sess, t, p, ok, newId);
  }

  /******* All sessions *******/

  ghost predicate SessionOk(run: seq<Action>, st: State, s: nat)
    requires s in st.sessions
  {
    var sess := st.sessions[s];
    && EnderCause(sess, Offered(run, s)) && sess.ice.answerer != Some(sess.call.starter)
    && Begun(st, sess.call.starter) && (sess.life.ender.Some? ==> Begun(st, sess.life.ender.value))
  }

  ghost predicate ThreadOk(run: seq<Action>, st: State, t: nat)
    requires t in st.threads
  {
    st.threads[t].At? && st.threads[t].s in st.sessions ==>
      ThreadCause(st.sessions[st.threads[t].s], t, st.threads[t].p, Offered(run, st.threads[t].s))
  }

  ghost predicate Causes(run: seq<Action>, st: State) {
    && (forall s :: Offered(run, s) ==> s in st.sessions)
    && (forall s :: s in st.sessions ==> SessionOk(run, st, s))
    && (forall t :: t in st.threads ==> ThreadOk(run, st, t))
  }

  lemma InsideCauses(run: seq<Action>, st: State, t: nat, s: nat, p: Place, ok: bool, newId: nat)
    requires st == Exec(INITIAL, run) && CallLegs.LegInv(st) && Causes(run, st) && t in st.threads
    requires st.threads[t] == At(s, p)
    ensures s in st.sessions && Causes(run + [Step(t, ok, newId)], SessionStep(st, t, s, p, ok, newId))
  {
    hide Exec;
    hide LocalStep;
    hide ThreadCause;
    hide EnderCause;
    hide ThreadLife;
    hide Offered;
    var more := run + [Step(t, ok, newId)];
    assert CallLife.ThreadOk(st, t) && CallLegs.ThreadOk(st, t) && SessionOk(run, st, s) && ThreadOk(run, st, t);
    var sess, st' := st.sessions[s], SessionStep(st, t, s, p, ok, newId);
    forall r
      ensures Offered(more, r) <==> Offered(run, r) || (r == s && p == Out(SendOffer) && ok)
    {
      OfferedNow(run, Step(t, ok, newId), r);
    }
    StepCause(sess, t, p, ok, newId, Offered(run, s));
    CallLegs.Decided(sess, t, p, ok, newId);
    forall r | r in st'.sessions
      ensures SessionOk(more, st', r)
    {
      assert SessionOk(run, st, r);
    }
    forall u | u in st'.threads
      ensures ThreadOk(more, st', u)
    {
      if u != t {
        assert ThreadOk(run, st, u);
        if st.threads[u].At? && st.threads[u].s == s {
          OtherCause(sess, t, p, ok, newId, Offered(run, s), u, st.threads[u].p);
        }
      }
    }
  }

  /** Threads that come from outside haven't started, answered or ended anything yet. */
  lemma NewcomerCause(sess: Session, t: nat, p: Place, offered: bool)
    requires t != sess.call.starter && sess.ice.answerer != Some(t) && sess.life.ender != Some(t)
    ensures ThreadCause(sess, t, p, offered)
  {
  }

  lemma OutsideCauses(run: seq<Action>, st: State, act: Action)
    requires st == Exec(INITIAL, run) && CallLife.Inv(st) && IceInv(st) && Causes(run, st)
    requires !(act.Step? && act.t in st.threads && st.threads[act.t].At?)
    ensures Causes(run + [act], Apply(st, act))
  {
    hide Exec;
    hide Offered;
    hide EnderCause;
    hide ThreadCause;
    hide IceInv;
    hide CallLife.Inv;
    var more, st' := run + [act], Apply(st, act);
    forall r
      ensures Offered(more, r) <==> Offered(run, r)
    {
      OfferedNow(run, act, r);
    }
    OutsideFrame(st, act);
    forall r | r in st'.sessions
      ensures SessionOk(more, st', r)
    {
      if r in st.sessions {
        assert SessionOk(run, st, r);
      } else {
        NewSessionCause(st'.sessions[r], Offered(run, r));
      }
    }
    forall u | u in st'.threads
      ensures ThreadOk(more, st', u)
    {
      if u != act.t {
        assert u in st.threads && ThreadOk(run, st, u);
        if st'.threads[u].At? && st'.threads[u].s !in st.sessions {
          NobodyThere(st, st'.threads[u].s, u);
        }
      } else if st'.threads[u].At? && st'.threads[u].s in st.sessions && st' != st {
        var r := st'.threads[u].s;
        assert SessionOk(run, st, r);
        AnswererBegun(st, r);
        NewcomerCause(st.sessions[r], u, st'.threads[u].p, Offered(run, r));
      } else if st'.threads[u].At? && st'.threads[u].s in st'.sessions && st' != st {
        StarterAtStart(st'.sessions[st'.threads[u].s], u, st'.threads[u].p, Offered(run, st'.threads[u].s));
      }
    }
  }

  lemma AnswererBegun(st: State, s: nat)
    requires IceInv(st) && s in st.sessions
    ensures st.sessions[s].ice.answerer.Some? ==> Begun(st, st.sessions[s].ice.answerer.value)
  {
    assert CallIce.SessionOk(st, s);
  }

  lemma NewSessionCause(sess: Session, offered: bool)
    requires sess.life == NEW_LIFE && sess.ice.answerer.None?
    ensures EnderCause(sess, offered)
  {
  }

  lemma StarterAtStart(sess: Session, t: nat, p: Place, offered: bool)
    requires sess.life == NEW_LIFE && sess.ice.answerer.None? && sess.call.starter == t && !offered
    requires p == Ring(NewLeg) || p == Out(CreateMatrixLeg)
    ensures ThreadCause(sess, t, p, offered)
  {
  }

  /** What an action from outside can change. */
  lemma OutsideFrame(st: State, act: Action)
    requires !(act.Step? && act.t in st.threads && st.threads[act.t].At?)
    ensures var st', t := Apply(st, act), act.t;
            && (forall s :: s in st.sessions ==> s in st'.sessions && st'.sessions[s] == st.sessions[s])
            && (forall u :: u in st'.threads && u != t ==> u in st.threads && st'.threads[u] == st.threads[u])
            && (forall u :: u in st.threads ==>
                  u in st'.threads && (!st.threads[u].Free? ==> st'.threads[u] == st.threads[u]))
            && (t in st.threads && !st.threads[t].Free? ==> st' == st)
            && (forall s :: s in st'.sessions && s !in st.sessions ==>
                  && st'.sessions[s].life == NEW_LIFE && st'.sessions[s].ice.answerer.None?
                     && st'.sessions[s].call.starter == t
                  && t in st'.threads && st'.threads[t].At? && st'.threads[t].s == s
                  && (st'.threads[t].p == Ring(NewLeg) || st'.threads[t].p == Out(CreateMatrixLeg)))
  {
  }

  lemma {:induction false} Reachable(run: seq<Action>)
    ensures Causes(run, Exec(INITIAL, run))
  {
    if run == [] {
    } else {
      hide Causes;
      var init, act := run[..|run| - 1], run[|run| - 1];
      assert run == init + [act];
      Reachable(init);
      CallLife.Reachable(init);
      CallLegs.Reachable(init);
      CallIce.Reachable(init);
      var st := Exec(INITIAL, init);
      if act.Step? && act.t in st.threads && st.threads[act.t].At? {
        InsideCauses(init, st, act.t, st.threads[act.t].s, st.threads[act.t].p, act.ok, act.newId);
        InsideStep(st, act);
      } else {
        OutsideCauses(init, st, act);
      }
    }
  }

  lemma InsideStep(st: State, act: Action)
    requires act.Step? && act.t in st.threads && st.threads[act.t].At? && st.threads[act.t].s in st.sessions
    ensures Apply(st, act) == SessionStep(st, act.t, st.threads[act.t].s, st.threads[act.t].p, act.ok, act.newId)
  {
  }

  /** In every run, a call that is ended by the thread that set it up timed out or failed. Then Matrix is hung up on,
      and Signal exactly if it has heard of the call: always for an incoming one, and for an outgoing one exactly if
      the offer was sent. One that is ended by the thread that answered it has failed, and both sides are hung up on. */
  lemma HangupsExactly(run: seq<Action>, s: nat)
    requires var st := Exec(INITIAL, run); s in st.sessions && st.sessions[s].life.ended
    ensures var sess := Exec(INITIAL, run).sessions[s];
            && (sess.life.ender == Some(sess.call.starter) ==>
                  && sess.life.reason in {Timeout, Failed} && sess.life.matrixHangups == 1
                  && sess.life.signalHangups == if sess.call.incoming || Offered(run, s) then 1 else 0)
            && (sess.life.ender == sess.ice.answerer ==>
                  sess.life.reason == Failed && sess.life.matrixHangups == 1 && sess.life.signalHangups == 1)
  {
    hide Exec;
    hide Offered;
    Reachable(run);
    CallLife.Reachable(run);
    var st := Exec(INITIAL, run);
    assert SessionOk(run, st, s) && CallLife.SessionOk(st, s);
  }
}
