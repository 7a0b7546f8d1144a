/**
 Media legs: which of them end closes, whatever it races with.
 */
module CallLegs {
  import opened Options
  import opened CallMachine
  import opened CallLife

  /******* One session *******/

  /** The thread is about to store or close this leg. */
  predicate Holds(pc: Pc, s: nat, l: nat) {
    && pc.At? && pc.s == s
    && (pc.p in {Ring(Store(l)), Ring(Discard(l)), Out(StoreMatrixLeg(l)), Out(StoreSignalLeg(l)), Answer(StoreLeg(l))})
  }

  predicate ThreadLegs(sess: Session, t: nat, p: Place) {
    && (p.Ring? ==> RingLegs(sess, p.r))
    && (p.Out? ==> OutLegs(sess, p.o))
    && (p.Answer? ==> AnswerLegs(sess, t, p.a))
    && (p.End? && p.e.CloseMatrix? ==> p.e.mx == (if sess.mx.late then None else sess.mx.leg)
                                       && p.e.sig == if sess.sig.late then None else sess.sig.leg)
    && (p.End? && p.e.CloseSignal? ==> p.e.sig == if sess.sig.late then None else sess.sig.leg)
  }

  predicate OpenLeg(sess: Session, l: nat, matrix: bool) {
    l in sess.legs && sess.legs[l] == Leg(matrix, true)
  }

  predicate RingLegs(sess: Session, r: RingPlace) {
    && (r.NewLeg? || r.Store? || r.Discard? ==> sess.mx.leg.None?)
    && (r.Store? || r.Discard? ==> OpenLeg(sess, r.leg, true))
    && (r.Offer? || r.Abort? ==> sess.mx.leg == Some(r.leg))
  }

  predicate OutLegs(sess: Session, o: OutPlace) {
    && (o.CreateMatrixLeg? || o.StoreMatrixLeg? ==> sess.mx.leg.None?)
    && (!o.SendOffer? && !o.Gather? ==> sess.sig.leg.None?)
    && (o.StoreMatrixLeg? ==> OpenLeg(sess, o.leg, true))
    && (o.StoreSignalLeg? ==> OpenLeg(sess, o.leg, false))
  }

  predicate AnswerLegs(sess: Session, t: nat, a: AnswerPlace) {
    && (a.RemoteAnswer? ==> !sess.call.incoming && a.device != 0)
    && (a.MatrixAnswer? || a.PrepareLeg? || a.StoreLeg? ==> sess.call.incoming)
    && (!a.RemoteAnswer? && !a.MatrixAnswer? ==> sess.ice.answerer == Some(t))
    && (a.PrepareLeg? || a.StoreLeg? ==> sess.sig.leg.None?)
    && (a.StoreLeg? ==> OpenLeg(sess, a.leg, false))
  }

  /** A stored leg is open until end closes it, and stays open if it was stored too late. */
  predicate SideOk(sess: Session, side: Side, matrix: bool, ender: Pc) {
    && (side.late ==> side.leg.Some?)
    && (side.leg.Some? ==>
          && side.leg.value in sess.legs && sess.legs[side.leg.value].matrix == matrix
          && (side.late ==> sess.life.swept && sess.legs[side.leg.value].open)
          && (!side.late && sess.legs[side.leg.value].open && sess.life.swept ==>
                !sess.life.ended && ender.At? && ender.p.End?
                && (ender.p.e.CloseMatrix? || (!matrix && ender.p.e.CloseSignal?))))
  }

  predicate SessionLegs(sess: Session, s: nat, starter: Pc, ender: Pc, answerer: Pc) {
    && (sess.call.incoming && sess.ice.answerer.None? ==> sess.sig.leg.None?)
    && (sess.mx.late ==> !sess.call.incoming)
    && SideOk(sess, sess.mx, true, ender)
    && SideOk(sess, sess.sig, false, ender)
    && (forall l :: l in sess.legs && sess.legs[l].open ==>
          || Some(l) == (if sess.legs[l].matrix then sess.mx.leg else sess.sig.leg)
          || Holds(starter, s, l) || Holds(answerer, s, l))
  }

  /** A thread of the session is about to take a step. */
  predicate Ready(sess: Session, s: nat, t: nat, p: Place, starter: Pc, ender: Pc, answerer: Pc) {
    && ThreadLife(sess, t, p) && ThreadLegs(sess, t, p)
    && SessionLife(sess, s, starter, ender) && SessionLegs(sess, s, starter, ender, answerer)
    && (sess.call.starter == t ==> starter == At(s, p))
    && (sess.life.ender == Some(t) ==> ender == At(s, p))
    && (sess.ice.answerer == Some(t) ==> answerer == At(s, p))
    && (sess.ice.answerer.None? ==> answerer == Done)
  }

  /** The session is fine again after the step, with the thread at its next place. */
  predicate Kept(sess: Session, s: nat, t: nat, local: Local, starter: Pc, ender: Pc, answerer: Pc) {
    var pc := NextPc(s, local);
    SessionLegs(local.sess, s, if sess.call.starter == t then pc else starter,
      if local.sess.life.ender == Some(t) then pc else ender,
      if local.sess.ice.answerer == Some(t) then pc else answerer)
  }

  lemma RingOthers(sess: Session, s: nat, t: nat, r: RingPlace, ok: bool, newId: nat, starter: Pc, ender: Pc,
                   answerer: Pc, u: nat, q: Place)
    requires Ready(sess, s, t, Ring(r), starter, ender, answerer) && u != t && ThreadLife(sess, u, q)
    requires ThreadLegs(sess, u, q)
    ensures ThreadLegs(RingStep(sess, r, ok, newId).sess, u, q)
  {
  }

  lemma RingSession(sess: Session, s: nat, t: nat, r: RingPlace, ok: bool, newId: nat, starter: Pc, ender: Pc,
                    answerer: Pc)
    requires Ready(sess, s, t, Ring(r), starter, ender, answerer)
    ensures Kept(sess, s, t, RingStep(sess, r, ok, newId), starter, ender, answerer)
    ensures var local := RingStep(sess, r, ok, newId); local.next.Some? ==> ThreadLegs(local.sess, t, local.next.value)
  {
  }

  lemma OutOthers(sess: Session, s: nat, t: nat, o: OutPlace, ok: bool, newId: nat, starter: Pc, ender: Pc,
                  answerer: Pc, u: nat, q: Place)
    requires Ready(sess, s, t, Out(o), starter, ender, answerer) && u != t && ThreadLife(sess, u, q)
    requires ThreadLegs(sess, u, q)
    ensures ThreadLegs(OutStep(sess, o, ok, newId).sess, u, q)
  {
  }

  lemma OutSession(sess: Session, s: nat, t: nat, o: OutPlace, ok: bool, newId: nat, starter: Pc, ender: Pc,
                   answerer: Pc)
    requires Ready(sess, s, t, Out(o), starter, ender, answerer)
    ensures Kept(sess, s, t, OutStep(sess, o, ok, newId), starter, ender, answerer)
    ensures var local := OutStep(sess, o, ok, newId); local.next.Some? ==> ThreadLegs(local.sess, t, local.next.value)
  {
    hide SessionLife;
  }

  lemma EndOthers(sess: Session, s: nat, t: nat, e: EndPlace, ok: bool, newId: nat, starter: Pc, ender: Pc,
                  answerer: Pc, u: nat, q: Place)
    requires Ready(sess, s, t, End(e), starter, ender, answerer) && u != t && ThreadLife(sess, u, q)
    requires ThreadLegs(sess, u, q)
    ensures ThreadLegs(EndStep(sess, t, e).sess, u, q)
  {
  }

  lemma EndSession(sess: Session, s: nat, t: nat, e: EndPlace, ok: bool, newId: nat, starter: Pc, ender: Pc,
                   answerer: Pc)
    requires Ready(sess, s, t, End(e), starter, ender, answerer)
    ensures Kept(sess, s, t, EndStep(sess, t, e), starter, ender, answerer)
    ensures var local := EndStep(sess, t, e); local.next.Some? ==> ThreadLegs(local.sess, t, local.next.value)
  {
  }

  lemma AnswerOthers(sess: Session, s: nat, t: nat, a: AnswerPlace, ok: bool, newId: nat, starter: Pc, ender: Pc,
                     answerer: Pc, u: nat, q: Place)
    requires Ready(sess, s, t, Answer(a), starter, ender, answerer) && u != t && ThreadLife(sess, u, q)
    requires ThreadLegs(sess, u, q)
    ensures ThreadLegs(AnswerStep(sess, t, a, ok, newId).sess, u, q)
  {
  }

  lemma AnswerSession(sess: Session, s: nat, t: nat, a: AnswerPlace, ok: bool, newId: nat, starter: Pc, ender: Pc,
                      answerer: Pc)
    requires Ready(sess, s, t, Answer(a), starter, ender, answerer)
    ensures Kept(sess, s, t, AnswerStep(sess, t, a, ok, newId), starter, ender, answerer)
    ensures var local := AnswerStep(sess, t, a, ok, newId);
            local.next.Some? ==> ThreadLegs(local.sess, t, local.next.value)
  {
    hide Ready;
    hide Kept;
    hide ThreadLegs;
    hide AnswerStep;
    if a.PrepareLeg? || a.StoreLeg? {
      AnswerStores(sess, s, t, a, ok, newId, starter, ender, answerer);
    } else if a.RemoteAnswer? || a.MatrixAnswer? {
      AnswerStarts(sess, s, t, a, ok, newId, starter, ender, answerer);
    } else {
      AnswerMoves(sess, s, t, a, ok, newId, starter, ender, answerer);
    }
  }

  lemma AnswerStarts(sess: Session, s: nat, t: nat, a: AnswerPlace, ok: bool, newId: nat, starter: Pc, ender: Pc,
                     answerer: Pc)
    requires Ready(sess, s, t, Answer(a), starter, ender, answerer) && (a.RemoteAnswer? || a.MatrixAnswer?)
    ensures Kept(sess, s, t, AnswerStep(sess, t, a, ok, newId), starter, ender, answerer)
    ensures var local := AnswerStep(sess, t, a, ok, newId);
            local.next.Some? ==> ThreadLegs(local.sess, t, local.next.value)
  {
    hide SessionLife;
    hide ThreadLife;
  }

  lemma AnswerMoves(sess: Session, s: nat, t: nat, a: AnswerPlace, ok: bool, newId: nat, starter: Pc, ender: Pc,
                    answerer: Pc)
    requires Ready(sess, s, t, Answer(a), starter, ender, answerer) && (a.ApplyAnswer? || a.Drain? || a.Connect?)
    ensures Kept(sess, s, t, AnswerStep(sess, t, a, ok, newId), starter, ender, answerer)
    ensures var local := AnswerStep(sess, t, a, ok, newId);
            local.next.Some? ==> ThreadLegs(local.sess, t, local.next.value)
  {
    hide SessionLife;
    hide ThreadLife;
  }

  lemma AnswerStores(sess: Session, s: nat, t: nat, a: AnswerPlace, ok: bool, newId: nat, starter: Pc, ender: Pc,
                     answerer: Pc)
    requires Ready(sess, s, t, Answer(a), starter, ender, answerer) && (a.PrepareLeg? || a.StoreLeg?)
    ensures Kept(sess, s, t, AnswerStep(sess, t, a, ok, newId), starter, ender, answerer)
    ensures var local := AnswerStep(sess, t, a, ok, newId);
            local.next.Some? ==> ThreadLegs(local.sess, t, local.next.value)
  {
  }

  /** Timers and candidates leave the legs alone. */
  lemma TimerSession(sess: Session, s: nat, t: nat, starter: Pc, ender: Pc, answerer: Pc)
    requires Ready(sess, s, t, Timer, starter, ender, answerer)
    ensures Kept(sess, s, t, TimerStep(sess), starter, ender, answerer)
  {
  }

  lemma IceSession(sess: Session, s: nat, t: nat, i: IcePlace, starter: Pc, ender: Pc, answerer: Pc)
    requires Ready(sess, s, t, Ice(i), starter, ender, answerer)
    ensures Kept(sess, s, t, IceStep(sess, t, i), starter, ender, answerer)
  {
    hide SessionLife;
    hide ThreadLife;
    hide ThreadLegs;
  }

  lemma QuietOthers(sess: Session, t: nat, p: Place, ok: bool, newId: nat, u: nat, q: Place)
    requires (p.Timer? || p.Ice?) && ThreadLegs(sess, u, q)
    ensures ThreadLegs(LocalStep(sess, t, p, ok, newId).sess, u, q)
  {
  }

  lemma QuietNext(sess: Session, t: nat, p: Place, ok: bool, newId: nat)
    requires p.Timer? || p.Ice?
    ensures var local := LocalStep(sess, t, p, ok, newId);
            local.next.Some? ==> ThreadLegs(local.sess, t, local.next.value)
  {
  }

  lemma AnyStep(sess: Session, s: nat, t: nat, p: Place, ok: bool, newId: nat, starter: Pc, ender: Pc, answerer: Pc)
    requires Ready(sess, s, t, p, starter, ender, answerer)
    ensures var local := LocalStep(sess, t, p, ok, newId);
            && Kept(sess, s, t, local, starter, ender, answerer)
            && (local.next.Some? ==> ThreadLegs(local.sess, t, local.next.value))
  {
    hide Ready;
    hide Kept;
    hide ThreadLegs;
    match p
    case Ring(r) => RingSession(sess, s, t, r, ok, newId, starter, ender, answerer);
    case Out(o) => OutSession(sess, s, t, o, ok, newId, starter, ender, answerer);
    case End(e) => EndSession(sess, s, t, e, ok, newId, starter, ender, answerer);
    case Answer(a) => AnswerSession(sess, s, t, a, ok, newId, starter, ender, answerer);
    case Timer => TimerSession(sess, s, t, starter, ender, answerer); QuietNext(sess, t, p, ok, newId);
    case Ice(i) => IceSession(sess, s, t, i, starter, ender, answerer); QuietNext(sess, t, p, ok, newId);
  }

  lemma AnyOther(sess: Session, s: nat, t: nat, p: Place, ok: bool, newId: nat, starter: Pc, ender: Pc, answerer: Pc,
                 u: nat, q: Place)
    requires Ready(sess, s, t, p, starter, ender, answerer) && u != t && ThreadLife(sess, u, q)
    requires ThreadLegs(sess, u, q)
    ensures ThreadLegs(LocalStep(sess, t, p, ok, newId).sess, u, q)
  {
    hide Ready;
    hide ThreadLife;
    hide ThreadLegs;
    match p
    case Ring(r) => RingOthers(sess, s, t, r, ok, newId, starter, ender, answerer, u, q);
    case Out(o) => OutOthers(sess, s, t, o, ok, newId, starter, ender, answerer, u, q);
    case End(e) => EndOthers(sess, s, t, e, ok, newId, starter, ender, answerer, u, q);
    case Answer(a) => AnswerOthers(sess, s, t, a, ok, newId, starter, ender, answerer, u, q);
    case Timer => QuietOthers(sess, t, p, ok, newId, u, q);
    case Ice(_) => QuietOthers(sess, t, p, ok, newId, u, q);
  }

  /******* All sessions *******/

  function PcOfOption(st: State, t: Option<nat>): Pc {
    if t.Some? then PcOf(st, t.value) else Done
  }

  predicate SessionOk(st: State, s: nat)
    requires s in st.sessions
  {
    var sess := st.sessions[s];
    SessionLegs(sess, s, PcOf(st, sess.call.starter), PcOfOption(st, sess.life.ender),
        PcOfOption(st, sess.ice.answerer))
  }

  predicate ThreadOk(st: State, t: nat)
    requires t in st.threads
  {
    st.threads[t].At? ==> st.threads[t].s in st.sessions && ThreadLegs(st.sessions[st.threads[t].s], t, st.threads[t].p)
  }

  ghost predicate LegInv(st: State) {
    && CallLife.Inv(st)
    && (forall s :: s in st.sessions ==> SessionOk(st, s))
    && (forall t :: t in st.threads ==> ThreadOk(st, t))
  }

  /** Which thread answered or ended is only decided once, and by the thread itself. */
  lemma Decided(sess: Session, t: nat, p: Place, ok: bool, newId: nat)
    ensures var after := LocalStep(sess, t, p, ok, newId).sess;
            && after.call == sess.call
            && after.life.ender in {sess.life.ender, Some(t)}
            && (sess.life.ender.Some? ==> after.life.ender == sess.life.ender)
            && after.ice.answerer in {sess.ice.answerer, Some(t)}
            && (sess.ice.answerer.Some? ==> after.ice.answerer == sess.ice.answerer)
  {
  }

  lemma UntouchedSession(sess: Session, s: nat, starter: Pc, ender: Pc, answerer: Pc, starter': Pc, ender': Pc,
                         answerer': Pc)
    requires SessionLegs(sess, s, starter, ender, answerer)
    requires starter' == starter || !(starter.At? && starter.s == s)
    requires ender' == ender || sess.life.ended || sess.life.ender.None? || !sess.life.swept
    requires answerer' == answerer || !(answerer.At? && answerer.s == s)
    requires SessionLife(sess, s, starter, ender)
    ensures SessionLegs(sess, s, starter', ender', answerer')
  {
  }

  lemma OtherSession(st: State, st': State, t: nat, r: nat)
    requires CallLife.Inv(st) && r in st.sessions && SessionOk(st, r)
    requires r in st'.sessions && st'.sessions[r] == st.sessions[r]
    requires forall u :: u in st.threads && u != t ==> u in st'.threads && st'.threads[u] == st.threads[u]
    requires forall u :: u in st'.threads && u != t ==> u in st.threads
    requires t in st.threads ==> !(st.threads[t].At? && st.threads[t].s == r)
    ensures SessionOk(st', r)
  {
    hide SessionLegs;
    assert CallLife.SessionOk(st, r);
    var sess := st.sessions[r];
    UntouchedSession(sess, r,
      PcOf(st, sess.call.starter), PcOfOption(st, sess.life.ender), PcOfOption(st, sess.ice.answerer),
      PcOf(st', sess.call.starter), PcOfOption(st', sess.life.ender), PcOfOption(st', sess.ice.answerer));
  }

  lemma SessionStepKeepsLegs(st: State, t: nat, s: nat, p: Place, ok: bool, newId: nat)
    requires LegInv(st) && t in st.threads && st.threads[t] == At(s, p)
    ensures s in st.sessions && LegInv(SessionStep(st, t, s, p, ok, newId))
  {
    hide SessionLegs;
    hide ThreadLegs;
    hide SessionLife;
    hide ThreadLife;
    hide LocalStep;
    assert CallLife.ThreadOk(st, t) && ThreadOk(st, t) && CallLife.SessionOk(st, s) && SessionOk(st, s);
    SessionStepKeepsInv(st, t, s, p, ok, newId);
    var st' := SessionStep(st, t, s, p, ok, newId);
    var sess := st.sessions[s];
    var starter, ender := PcOf(st, sess.call.starter), PcOfOption(st, sess.life.ender);
    var answerer := PcOfOption(st, sess.ice.answerer);
    AnyStep(sess, s, t, p, ok, newId, starter, ender, answerer);
    Decided(sess, t, p, ok, newId);
    forall r | r in st'.sessions && r != s
      ensures SessionOk(st', r)
    {
      OtherSession(st, st', t, r);
    }
    forall u | u in st'.threads && u != t
      ensures ThreadOk(st', u)
    {
      assert ThreadOk(st, u) && CallLife.ThreadOk(st, u);
      if st.threads[u].At? && st.threads[u].s == s {
        AnyOther(sess, s, t, p, ok, newId, starter, ender, answerer, u, st.threads[u].p);
      }
    }
  }

  lemma FreeStepKeepsLegs(st: State, t: nat, pc: Pc)
    requires LegInv(st) && (t in st.threads ==> !st.threads[t].At?)
    requires pc.At? ==>
             pc.s in st.sessions && ThreadLife(st.sessions[pc.s], t, pc.p) && ThreadLegs(st.sessions[pc.s], t, pc.p)
    ensures LegInv(Go(st, t, pc))
  {
    hide SessionLegs;
    hide ThreadLegs;
    hide ThreadLife;
    FreeStepKeepsInv(st, t, pc);
    var st' := Go(st, t, pc);
    forall r | r in st'.sessions
      ensures SessionOk(st', r)
    {
      OtherSession(st, st', t, r);
    }
    forall u | u in st'.threads
      ensures ThreadOk(st', u)
    {
      if u != t { assert ThreadOk(st, u); }
    }
  }

  lemma InstallKeepsLegs(st: State, t: nat, incoming: bool, peer: nat, callId: nat, device: nat, newId: nat)
    requires LegInv(st) && t in st.threads && st.threads[t].Free?
    ensures LegInv(Install(st, t, incoming, peer, callId, device, newId))
  {
    InstallKeepsInv(st, t, incoming, peer, callId, device, newId);
    if st.active.Some? {
      FreeStepKeepsLegs(st, t, Done);
    } else if newId !in st.sessions {
      var st' := Install(st, t, incoming, peer, callId, device, newId);
      forall r | r in st'.sessions && r != newId
        ensures SessionOk(st', r)
      {
        OtherSession(st, st', t, r);
      }
      forall u | u in st'.threads && u != t
        ensures ThreadOk(st', u)
      {
        assert ThreadOk(st, u);
      }
    }
  }

  lemma ActionKeepsLegs(st: State, act: Action)
    requires LegInv(st)
    ensures LegInv(Apply(st, act))
  {
    hide SessionOk;
    hide ThreadOk;
    hide CallLife.Inv;
    hide SessionStep;
    match act
    case Start(t, pc) =>
      if t !in st.threads && CanStart(st, pc) {
        FreeStepKeepsLegs(st, t, pc);
      }
    case Step(t, ok, newId) =>
      if t in st.threads {
        match st.threads[t]
        case At(s, p) => SessionStepKeepsLegs(st, t, s, p, ok, newId);
        case Done =>
        case Free(entry) =>
          match entry
          case InCheck(_, _, _) => FreeStepKeepsLegs(st, t, EntryStep(st, t, entry, ok, newId).threads[t]);
          case InPrepare(_, _, _) => FreeStepKeepsLegs(st, t, EntryStep(st, t, entry, ok, newId).threads[t]);
          case InInstall(peer, callId, device) => InstallKeepsLegs(st, t, true, peer, callId, device, newId);
          case OutInstall(peer, callId) => InstallKeepsLegs(st, t, false, peer, callId, 0, newId);
          case IceLookup(_, _, _) => FreeStepKeepsLegs(st, t, EntryStep(st, t, entry, ok, newId).threads[t]);
          case AnswerLookup(_, _, _) => FreeStepKeepsLegs(st, t, EntryStep(st, t, entry, ok, newId).threads[t]);
      }
  }

  lemma {:induction false} Reachable(run: seq<Action>)
    ensures LegInv(Exec(INITIAL, run))
  {
    hide Apply;
    if run != [] {
      Reachable(run[..|run| - 1]);
      ActionKeepsLegs(Exec(INITIAL, run[..|run| - 1]), run[|run| - 1]);
    }
  }

  /******* Which legs are closed *******/

  /** Nobody is about to store or close a leg of the session. */
  predicate Settled(st: State, s: nat) {
    forall t, l :: t in st.threads && s in st.sessions && l in st.sessions[s].legs ==> !Holds(st.threads[t], s, l)
  }

  /** Once end is through and no leg is in flight, a leg is still open exactly if it is a stored leg that
      was stored after end had read the legs. The Matrix leg of an incoming call never is. */
  lemma LegsClosedExactly(run: seq<Action>, s: nat, l: nat)
    requires var st := Exec(INITIAL, run);
             s in st.sessions && st.sessions[s].life.ended && Settled(st, s) && l in st.sessions[s].legs
    ensures var sess := Exec(INITIAL, run).sessions[s];
            && (sess.legs[l].open <==> (sess.mx == Side(Some(l), true) || sess.sig == Side(Some(l), true)))
            && (sess.call.incoming && sess.legs[l].matrix ==> !sess.legs[l].open)
  {
    hide Exec;
    var st := Exec(INITIAL, run);
    Reachable(run);
    assert SessionOk(st, s) && CallLife.SessionOk(st, s);
  }
}
