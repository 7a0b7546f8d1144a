/**
 The order in which candidates wait, and are handed over when a call is answered.
 */
module CallQueue {
  import opened Options
  import opened CallMachine
  import opened CallLife
  import opened CallSlot
  import opened CallSolo
  import CallLegs
  import CallIce
  import CallOrigins

  /** The candidate that an action has the session look at, if any. */
  function LookedAt(st: State, act: Action, s: nat): seq<Candidate> {
    if act.Step? && act.t in st.threads && st.threads[act.t].At? && st.threads[act.t].s == s
       && st.threads[act.t].p.Ice? && st.threads[act.t].p.i.LookAt?
    then [Candidate(act.t, st.threads[act.t].p.i.device)] else []
  }

  /** All candidates that have been looked at, in that order. */
  function ArrivalOrder(run: seq<Action>, s: nat): seq<Candidate> {
    if run == [] then []
    else ArrivalOrder(run[..|run| - 1], s) + LookedAt(Exec(INITIAL, run[..|run| - 1]), run[|run| - 1], s)
  }

  /** Those from one device, in the same order. */
  function FromDevice(cands: seq<Candidate>, device: nat): seq<Candidate> {
    if cands == [] then []
    else if cands[0].device == device then [cands[0]] + FromDevice(cands[1..], device)
    else FromDevice(cands[1..], device)
  }

  lemma {:induction false} FromDeviceConcat(a: seq<Candidate>, b: seq<Candidate>, device: nat)
    ensures FromDevice(a + b, device) == FromDevice(a, device) + FromDevice(b, device)
  {
    if a == [] {
      assert a + b == b;
    } else {
      assert (a + b)[1..] == a[1..] + b;
      FromDeviceConcat(a[1..], b, device);
    }
  }

  lemma {:induction false} NobodyLooked(run: seq<Action>, s: nat)
    requires s !in Exec(INITIAL, run).sessions
    ensures ArrivalOrder(run, s) == []
  {
    if run != [] {
      var init := run[..|run| - 1];
      hide Apply;
      CallLife.Reachable(init);
      var st := Exec(INITIAL, init);
      if s in st.sessions {
        Lasting(st, run[|run| - 1], s);
      } else {
        NobodyLooked(init, s);
        if run[|run| - 1].t in st.threads {
          assert CallLife.ThreadOk(st, run[|run| - 1].t);
        }
      }
    }
  }

  /** Candidates are waiting: an outgoing call hasn't been answered, or an incoming one has no Signal leg. */
  predicate Waiting(sess: Session) {
    if sess.call.incoming then sess.sig.leg.None? else sess.ice.answerer.None?
  }

  function Queue(sess: Session, arrived: seq<Candidate>): seq<Candidate> {
    if sess.call.incoming then FromDevice(arrived, sess.ice.sourceDevice) else arrived
  }

  lemma StepQueues(sess: Session, t: nat, p: Place, ok: bool, newId: nat, arrived: seq<Candidate>, more: seq<Candidate>)
    requires var after := LocalStep(sess, t, p, ok, newId).sess; Waiting(after) && CallIce.KnownCaller(sess)
    requires p.Answer? ==> CallLegs.AnswerLegs(sess, t, p.a)
    requires p.Ring? ==> sess.call.incoming
    requires p.Out? ==> !sess.call.incoming
    requires !sess.call.incoming ==> (sess.ice.sourceDevice == 0 <==> sess.ice.answerer.None?)
    requires Waiting(sess) ==> sess.ice.pending == Queue(sess, arrived)
    requires more == if p.Ice? && p.i.LookAt? then [Candidate(t, p.i.device)] else []
    ensures LocalStep(sess, t, p, ok, newId).sess.ice.pending
            == Queue(LocalStep(sess, t, p, ok, newId).sess, arrived + more)
  {
    if p.Ice? && p.i.LookAt? {
      LookQueues(sess, t, p.i.device, arrived);
    } else {
      hide FromDevice;
      assert arrived + more == arrived;
      if p.Answer? {
        AnswerQueues(sess, t, p.a, ok, newId, arrived);
      } else {
        Untouched(sess, t, p, ok, newId);
      }
    }
  }

  lemma LookQueues(sess: Session, t: nat, device: nat, arrived: seq<Candidate>)
    requires Waiting(sess) && CallIce.KnownCaller(sess) && sess.ice.pending == Queue(sess, arrived)
    requires !sess.call.incoming ==> sess.ice.sourceDevice == 0
    ensures var after := IceStep(sess, t, LookAt(device)).sess;
            after.ice.pending == Queue(after, arrived + [Candidate(t, device)])
  {
    FromDeviceConcat(arrived, [Candidate(t, device)], sess.ice.sourceDevice);
    assert [Candidate(t, device)][1..] == [];
  }

  lemma AnswerQueues(sess: Session, t: nat, a: AnswerPlace, ok: bool, newId: nat, arrived: seq<Candidate>)
    requires Waiting(AnswerStep(sess, t, a, ok, newId).sess) && CallLegs.AnswerLegs(sess, t, a)
    requires Waiting(sess) ==> sess.ice.pending == Queue(sess, arrived)
    ensures var after := AnswerStep(sess, t, a, ok, newId).sess; after.ice.pending == Queue(after, arrived)
  {
    hide FromDevice;
  }

  lemma Untouched(sess: Session, t: nat, p: Place, ok: bool, newId: nat)
    requires !p.Answer? && !(p.Ice? && p.i.LookAt?)
    requires (p.Ring? ==> sess.call.incoming) && (p.Out? ==> !sess.call.incoming)
    ensures var after := LocalStep(sess, t, p, ok, newId).sess;
            && after.ice.pending == sess.ice.pending && after.ice.sourceDevice == sess.ice.sourceDevice
            && after.ice.answerer == sess.ice.answerer && after.call == sess.call
            && (sess.call.incoming ==> after.sig == sess.sig)
  {
  }

  /** While candidates are waiting, they wait in the order in which they arrived: all of them for an outgoing call, and
      those of the caller's device for an incoming one. */
  lemma {:induction false} QueuedInOrder(run: seq<Action>, s: nat)
    requires var st := Exec(INITIAL, run);
             s in st.sessions && CallIce.KnownCaller(st.sessions[s]) && Waiting(st.sessions[s])
    ensures var sess := Exec(INITIAL, run).sessions[s]; sess.ice.pending == Queue(sess, ArrivalOrder(run, s))
    decreases |run|, 0
  {
    if run != [] {
      var init, act := run[..|run| - 1], run[|run| - 1];
      var st := Exec(INITIAL, init);
      CallLife.Reachable(init);
      CallLegs.Reachable(init);
      CallIce.Reachable(init);
      QueuedNext(init, st, act, s);
    }
  }

  lemma QueuedNext(init: seq<Action>, st: State, act: Action, s: nat)
    requires st == Exec(INITIAL, init) && CallLegs.LegInv(st) && CallIce.IceInv(st)
    requires var st' := Apply(st, act);
             s in st'.sessions && CallIce.KnownCaller(st'.sessions[s]) && Waiting(st'.sessions[s])
    ensures var sess := Apply(st, act).sessions[s];
            sess.ice.pending == Queue(sess, ArrivalOrder(init, s) + LookedAt(st, act, s))
    decreases |init|, 1
  {
    hide Exec;
    hide LocalStep;
    hide Queue;
    var arrived, more := ArrivalOrder(init, s), LookedAt(st, act, s);
    if s !in st.sessions {
      NobodyLooked(init, s);
      NewQueue(st, act, s);
    } else if act.Step? && act.t in st.threads && st.threads[act.t].At? && st.threads[act.t].s == s {
      var sess, t, p := st.sessions[s], act.t, st.threads[act.t].p;
      assert CallLife.ThreadOk(st, t) && CallLegs.ThreadOk(st, t);
      hide CallIce.IceInv;
      hide CallLegs.LegInv;
      CallOrigins.ChosenWhenAnswered(st, s);
      CallIce.CallerFixed(sess, t, p, act.ok, act.newId);
      if Waiting(sess) {
        QueuedInOrder(init, s);
      }
      StepQueues(sess, t, p, act.ok, act.newId, arrived, more);
    } else {
      hide CallIce.IceInv;
      hide CallLegs.LegInv;
      CallIce.OutsideSession(st, act, s);
      QueuedInOrder(init, s);
      assert arrived + more == arrived;
    }
  }

  lemma NewQueue(st: State, act: Action, s: nat)
    requires CallLife.Inv(st) && s !in st.sessions && s in Apply(st, act).sessions
    ensures var sess := Apply(st, act).sessions[s];
            sess.ice.pending == Queue(sess, []) && LookedAt(st, act, s) == []
  {
    if act.t in st.threads {
      assert CallLife.ThreadOk(st, act.t);
    }
  }

  /** A thread that works through its queue hands over exactly the candidates from the chosen device, in order. */
  lemma {:induction false} DrainsInOrder(sess: Session, t: nat, queue: seq<Candidate>, choices: seq<Choice>)
    requires |choices| == |queue|
    ensures Solo(t, Local(sess, Some(Answer(Drain(queue)))), choices)
            == Local(sess.(ice := sess.ice.(handed := sess.ice.handed + FromDevice(queue, sess.ice.sourceDevice))),
                 Some(Answer(Drain([]))))
    decreases |queue|
  {
    if queue == [] {
      assert sess.ice.handed + [] == sess.ice.handed;
    } else {
      var next := AnswerStep(sess, t, Drain(queue), choices[0].ok, choices[0].newId).sess;
      DrainsInOrder(next, t, queue[1..], choices[1..]);
      var device, rest := sess.ice.sourceDevice, FromDevice(queue[1..], sess.ice.sourceDevice);
      if queue[0].device == device {
        assert sess.ice.handed + ([queue[0]] + rest) == (sess.ice.handed + [queue[0]]) + rest;
      }
    }
  }
}
