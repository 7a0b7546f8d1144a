/**
 The call slot under every interleaving: who may be in it, who may empty it, and that somebody always can.
 */
module CallLife {
  import opened Options
  import opened CallMachine

  /******* One session *******/

  /** A thread that will end the session or hand it to its timer, or that is waiting to do so. */
  predicate Drives(pc: Pc, s: nat) {
    pc.At? && pc.s == s && (pc.p.Ring? || pc.p.Out? || pc.p.Timer? || (pc.p.End? && pc.p.e.Enter?))
  }

  /** A thread in the once-only body of end. */
  predicate Ends(pc: Pc, s: nat) {
    pc.At? && pc.s == s && pc.p.End? && !pc.p.e.Enter?
  }

  /** How often each side is to be hung up on: Signal if asked, Matrix unless it hung up itself. */
  function SignalHangups(life: Life): nat { if life.notify then 1 else 0 }

  function MatrixHangups(life: Life): nat { if life.reason != LocalDecline then 1 else 0 }

  predicate SessionLife(sess: Session, s: nat, starter: Pc, ender: Pc) {
    var life := sess.life;
    && (life.ended ==> life.swept) && (life.swept ==> life.cancelled) && (life.cancelled ==> life.ender.Some?)
    && (life.ender.None? ==> Drives(starter, s) && life.signalHangups == 0 && life.matrixHangups == 0)
    && (life.ender.Some? && !life.ended ==> Ends(ender, s))
    && (life.ended ==> life.signalHangups == SignalHangups(life) && life.matrixHangups == MatrixHangups(life))
  }

  predicate ThreadLife(sess: Session, t: nat, p: Place) {
    && (p.Ring? ==> sess.call.incoming && sess.call.starter == t)
    && (p.Out? ==> !sess.call.incoming && sess.call.starter == t)
    && (p.Timer? ==> sess.call.starter == t)
    && (p.End? && !p.e.Enter? ==> EndingLife(sess.life, t, p.e))
  }

  /** Where end is says how far it has come. */
  predicate EndingLife(life: Life, t: nat, e: EndPlace) {
    && life.ender == Some(t) && !life.ended
    && (e.HangUpSignal? ==> e.reason == life.reason && e.notify == life.notify)
    && (e.HangUpMatrix? ==> e.reason == life.reason)
    && life.signalHangups == (if e.HangUpSignal? then 0 else SignalHangups(life))
    && life.matrixHangups == (if e.HangUpSignal? || e.HangUpMatrix? then 0 else MatrixHangups(life))
    && (life.cancelled <==> e.Sweep? || e.CloseMatrix? || e.CloseSignal? || e.Clear?)
    && (life.swept <==> e.CloseMatrix? || e.CloseSignal? || e.Clear?)
  }

  function NextPc(s: nat, local: Local): Pc {
    if local.next.None? then Done else At(s, local.next.value)
  }

  lemma OwnThread(sess: Session, s: nat, t: nat, p: Place, ok: bool, newId: nat, starter: Pc, ender: Pc)
    requires ThreadLife(sess, t, p) && SessionLife(sess, s, starter, ender)
    ensures var local := LocalStep(sess, t, p, ok, newId);
            local.next.Some? ==> ThreadLife(local.sess, t, local.next.value)
  {
  }

  lemma OtherThread(sess: Session, t: nat, p: Place, ok: bool, newId: nat, u: nat, q: Place)
    requires ThreadLife(sess, t, p) && ThreadLife(sess, u, q) && u != t
    ensures ThreadLife(LocalStep(sess, t, p, ok, newId).sess, u, q)
  {
  }

  lemma OwnSession(sess: Session, s: nat, t: nat, p: Place, ok: bool, newId: nat, starter: Pc, ender: Pc)
    requires ThreadLife(sess, t, p) && SessionLife(sess, s, starter, ender)
    requires sess.call.starter == t ==> starter == At(s, p)
    requires sess.life.ender == Some(t) ==> ender == At(s, p)
    ensures var local := LocalStep(sess, t, p, ok, newId);
            var pc := NextPc(s, local);
            && local.sess.call == sess.call
            && SessionLife(local.sess, s, if sess.call.starter == t then pc else starter,
                 if local.sess.life.ender == Some(t) then pc else ender)
            && (local.sess.life.ended <==> sess.life.ended || p == End(Clear))
            && (sess.life.ender.Some? ==> local.sess.life.ender == sess.life.ender)
            && (sess.life.ender.None? ==> local.sess.life.ender in {None, Some(t)})
  {
  }

  /******* All sessions *******/

  function PcOf(st: State, t: nat): Pc {
    if t in st.threads then st.threads[t] else Done
  }

  predicate SessionOk(st: State, s: nat)
    requires s in st.sessions
  {
    var sess := st.sessions[s];
    && (st.active == Some(s) <==> !sess.life.ended)
    && SessionLife(sess, s, PcOf(st, sess.call.starter),
         if sess.life.ender.Some? then PcOf(st, sess.life.ender.value) else Done)
  }

  predicate ThreadOk(st: State, t: nat)
    requires t in st.threads
  {
    st.threads[t].At? ==> st.threads[t].s in st.sessions && ThreadLife(st.sessions[st.threads[t].s], t, st.threads[t].p)
  }

  ghost predicate Inv(st: State) {
    && (st.active.Some? ==> st.active.value in st.sessions)
    && (forall s :: s in st.sessions ==> SessionOk(st, s))
    && (forall t :: t in st.threads ==> ThreadOk(st, t))
  }

  lemma SessionStepKeepsInv(st: State, t: nat, s: nat, p: Place, ok: bool, newId: nat)
    requires Inv(st) && t in st.threads && st.threads[t] == At(s, p)
    ensures s in st.sessions && Inv(SessionStep(st, t, s, p, ok, newId))
  {
    hide SessionLife;
    hide ThreadLife;
    hide LocalStep;
    assert ThreadOk(st, t) && SessionOk(st, s);
    var st' := SessionStep(st, t, s, p, ok, newId);
    var sess := st.sessions[s];
    var starter := PcOf(st, sess.call.starter);
    var ender := if sess.life.ender.Some? then PcOf(st, sess.life.ender.value) else Done;
    OwnThread(sess, s, t, p, ok, newId, starter, ender);
    OwnSession(sess, s, t, p, ok, newId, starter, ender);
    forall r | r in st'.sessions && r != s
      ensures SessionOk(st', r)
    {
      assert SessionOk(st, r);
      UntouchedSession(st.sessions[r], r, PcOf(st, st.sessions[r].call.starter),
        if st.sessions[r].life.ender.Some? then PcOf(st, st.sessions[r].life.ender.value) else Done,
        PcOf(st', st.sessions[r].call.starter),
        if st.sessions[r].life.ender.Some? then PcOf(st', st.sessions[r].life.ender.value) else Done);
    }
    forall u | u in st'.threads && u != t
      ensures ThreadOk(st', u)
    {
      assert ThreadOk(st, u);
      if st.threads[u].At? && st.threads[u].s == s {
        OtherThread(sess, t, p, ok, newId, u, st.threads[u].p);
      }
    }
  }

  /** A thread that isn't in a session can't be its starter or ender. */
  lemma UntouchedSession(sess: Session, s: nat, starter: Pc, ender: Pc, starter': Pc, ender': Pc)
    requires SessionLife(sess, s, starter, ender)
    requires starter' == starter || !(starter.At? && starter.s == s)
    requires ender' == ender || !(ender.At? && ender.s == s)
    ensures SessionLife(sess, s, starter', ender')
  {
  }

  /** Threads that haven't reached a session leave all sessions alone, unless they install one. */
  lemma FreeStepKeepsInv(st: State, t: nat, pc: Pc)
    requires Inv(st) && (t in st.threads ==> !st.threads[t].At?)
    requires pc.At? ==> pc.s in st.sessions && ThreadLife(st.sessions[pc.s], t, pc.p)
    ensures Inv(Go(st, t, pc))
  {
    hide SessionLife;
    hide ThreadLife;
    var st' := Go(st, t, pc);
    forall r | r in st'.sessions
      ensures SessionOk(st', r)
    {
      assert SessionOk(st, r);
      UntouchedSession(st.sessions[r], r, PcOf(st, st.sessions[r].call.starter),
        if st.sessions[r].life.ender.Some? then PcOf(st, st.sessions[r].life.ender.value) else Done,
        PcOf(st', st.sessions[r].call.starter),
        if st.sessions[r].life.ender.Some? then PcOf(st', st.sessions[r].life.ender.value) else Done);
    }
    forall u | u in st'.threads
      ensures ThreadOk(st', u)
    {
      if u != t { assert ThreadOk(st, u); }
    }
  }

  lemma InstallKeepsInv(st: State, t: nat, incoming: bool, peer: nat, callId: nat, device: nat, newId: nat)
    requires Inv(st) && t in st.threads && st.threads[t].Free?
    ensures Inv(Install(st, t, incoming, peer, callId, device, newId))
  {
    if st.active.Some? {
      FreeStepKeepsInv(st, t, Done);
    } else if newId !in st.sessions {
      var st' := Install(st, t, incoming, peer, callId, device, newId);
      FreeStepKeepsInv(st, t, Done);
      var mid := Go(st, t, Done);
      forall r | r in st'.sessions && r != newId
        ensures SessionOk(st', r)
      {
        assert SessionOk(mid, r);
      }
      forall u | u in st'.threads && u != t
        ensures ThreadOk(st', u)
      {
        assert ThreadOk(mid, u);
      }
    }
  }

  lemma ActionKeepsInv(st: State, act: Action)
    requires Inv(st)
    ensures Inv(Apply(st, act))
  {
    hide SessionOk;
    hide ThreadOk;
    hide SessionStep;
    match act
    case Start(t, pc) =>
      if t !in st.threads && CanStart(st, pc) {
        FreeStepKeepsInv(st, t, pc);
      }
    case Step(t, ok, newId) =>
      if t in st.threads {
        match st.threads[t]
        case At(s, p) => SessionStepKeepsInv(st, t, s, p, ok, newId);
        case Done =>
        case Free(entry) =>
          match entry
          case InCheck(_, _, _) => FreeStepKeepsInv(st, t, EntryStep(st, t, entry, ok, newId).threads[t]);
          case InPrepare(_, _, _) => FreeStepKeepsInv(st, t, EntryStep(st, t, entry, ok, newId).threads[t]);
          case InInstall(peer, callId, device) => InstallKeepsInv(st, t, true, peer, callId, device, newId);
          case OutInstall(peer, callId) => InstallKeepsInv(st, t, false, peer, callId, 0, newId);
          case IceLookup(_, _, _) => FreeStepKeepsInv(st, t, EntryStep(st, t, entry, ok, newId).threads[t]);
          case AnswerLookup(_, _, _) => FreeStepKeepsInv(st, t, EntryStep(st, t, entry, ok, newId).threads[t]);
      }
  }

  lemma {:induction false} Reachable(run: seq<Action>)
    ensures Inv(Exec(INITIAL, run))
  {
    hide Apply;
    if run != [] {
      Reachable(run[..|run| - 1]);
      ActionKeepsInv(Exec(INITIAL, run[..|run| - 1]), run[|run| - 1]);
    }
  }
}
