/**
 Remote ICE candidates: none is lost, none is handed over twice, and none from another device is handed over.
 */
module CallIce {
  import opened Options
  import opened CallMachine
  import opened CallLife
  import CallLegs

  /******* One session *******/

  /** Signal numbers devices from one. */
  predicate KnownCaller(sess: Session) { sess.call.incoming ==> sess.ice.sourceDevice != 0 }

  /** Queued candidates the answering thread has taken over. */
  function QueueOf(pc: Pc, s: nat): seq<Candidate> {
    if pc.At? && pc.s == s && pc.p.Answer? && (pc.p.a.ApplyAnswer? || pc.p.a.Drain?) then pc.p.a.queue else []
  }

  /** Somebody has entered end, or the answering thread is about to. */
  predicate Ending(sess: Session, s: nat, answerer: Pc) {
    sess.life.ender.Some? || (answerer.At? && answerer.s == s && answerer.p.End? && answerer.p.e.Enter?)
  }

  /** Where candidates are, other than with the thread that received them. */
  function Placed(ice: IceState, queue: seq<Candidate>): multiset<Candidate> {
    multiset(ice.handed) + multiset(ice.pending) + multiset(queue)
  }

  predicate SessionIce(sess: Session, s: nat, answerer: Pc) {
    var ice := sess.ice;
    var placed := Placed(ice, QueueOf(answerer, s));
    && (forall c :: c in placed ==> placed[c] == 1 && c in ice.arrived)
    && (forall c :: c in ice.handed ==> ice.sourceDevice != 0 && c.device == ice.sourceDevice)
    && (if sess.call.incoming then sess.sig.leg.Some? ==> ice.pending == []
        else (ice.sourceDevice != 0 <==> ice.answerer.Some?)
             && (ice.sourceDevice != 0 ==> Ending(sess, s, answerer) || (sess.sig.leg.Some? && ice.pending == [])))
  }

  /** A candidate from the chosen device, or any candidate while there is none, is still somewhere. */
  predicate Located(sess: Session, s: nat, answerer: Pc, c: Candidate, receiver: Pc) {
    (sess.ice.sourceDevice == 0 || c.device == sess.ice.sourceDevice) ==>
      || c in Placed(sess.ice, QueueOf(answerer, s))
      || (sess.ice.sourceDevice != 0 && receiver == At(s, Ice(Add(c))))
      || (sess.ice.sourceDevice != 0 && Ending(sess, s, answerer))
  }

  predicate ThreadIce(sess: Session, s: nat, answerer: Pc, t: nat, p: Place) {
    p.Ice? ==>
      sess.ice.answerer != Some(t) &&
      match p.i
      case LookAt(_) => forall c :: c in sess.ice.arrived ==> c.id != t
      case Add(c) =>
        && c.id == t && c in sess.ice.arrived && c !in Placed(sess.ice, QueueOf(answerer, s))
        && sess.ice.sourceDevice != 0 && c.device == sess.ice.sourceDevice
  }

  /** A thread of the session is about to take a step. */
  predicate Ready(sess: Session, s: nat, t: nat, p: Place, answerer: Pc) {
    && KnownCaller(sess) && SessionIce(sess, s, answerer) && ThreadIce(sess, s, answerer, t, p)
    && (sess.life.ended ==> sess.life.ender.Some?)
    && (p.Ring? ==> sess.call.incoming) && (p.Out? ==> !sess.call.incoming)
    && (p.Answer? ==> CallLegs.AnswerLegs(sess, t, p.a))
    && (sess.ice.answerer == Some(t) ==> answerer == At(s, p))
    && (sess.ice.answerer.None? ==> answerer == Done)
  }

  function AnswererAfter(s: nat, t: nat, local: Local, answerer: Pc): Pc {
    if local.sess.ice.answerer == Some(t) then NextPc(s, local) else answerer
  }

  /** Steps other than answering and candidates only touch the legs and the life of the session. */
  lemma QuietSession(sess: Session, s: nat, t: nat, p: Place, ok: bool, newId: nat, answerer: Pc)
    requires Ready(sess, s, t, p, answerer) && !p.Ice? && !p.Answer?
    ensures var local := LocalStep(sess, t, p, ok, newId);
            var after := AnswererAfter(s, t, local, answerer);
            && local.sess.ice == sess.ice && local.sess.call == sess.call && QueueOf(after, s) == QueueOf(answerer, s)
            && (Ending(sess, s, answerer) ==> Ending(local.sess, s, after))
            && (sess.sig.leg.Some? ==> local.sess.sig.leg.Some?)
            && (sess.call.incoming ==> local.sess.sig.leg == sess.sig.leg)
  {
  }

  lemma QuietKeeps(sess: Session, s: nat, t: nat, p: Place, ok: bool, newId: nat, answerer: Pc)
    requires Ready(sess, s, t, p, answerer) && !p.Ice? && !p.Answer?
    ensures var local := LocalStep(sess, t, p, ok, newId);
            SessionIce(local.sess, s, AnswererAfter(s, t, local, answerer))
  {
    hide LocalStep;
    QuietSession(sess, s, t, p, ok, newId, answerer);
  }

  lemma IceEffect(sess: Session, s: nat, t: nat, i: IcePlace, queue: seq<Candidate>)
    ensures var after := Placed(IceStep(sess, t, i).sess.ice, queue);
            && (i.LookAt? ==>
                  after == Placed(sess.ice, queue)
                      || after == Placed(sess.ice, queue) + multiset{Candidate(t, i.device)})
            && (i.Add? ==> after == Placed(sess.ice, queue) + multiset{i.cand})
  {
  }

  lemma IceKeeps(sess: Session, s: nat, t: nat, i: IcePlace, answerer: Pc)
    requires Ready(sess, s, t, Ice(i), answerer)
    ensures SessionIce(IceStep(sess, t, i).sess, s, answerer)
  {
    hide Placed;
    hide QueueOf;
    IceEffect(sess, s, t, i, QueueOf(answerer, s));
  }

  lemma DrainEffect(ice: IceState, queue: seq<Candidate>, c: Candidate)
    requires queue != []
    ensures Placed(ice.(handed := ice.handed + [queue[0]]), queue[1..])[c] == Placed(ice, queue)[c]
    ensures Placed(ice, queue[1..])[c] == Placed(ice, queue)[c] - (if c == queue[0] then 1 else 0)
  {
    assert queue == [queue[0]] + queue[1..];
  }

  /** Answering moves candidates along, and drops those from other devices. */
  lemma AnswerEffect(sess: Session, s: nat, t: nat, a: AnswerPlace, ok: bool, newId: nat, answerer: Pc, c: Candidate)
    requires CallLegs.AnswerLegs(sess, t, a) && (sess.ice.answerer.Some? ==> sess.ice.sourceDevice != 0)
    requires sess.ice.answerer == Some(t) ==> answerer == At(s, Answer(a))
    requires sess.ice.answerer.None? ==> answerer == Done
    ensures var local := AnswerStep(sess, t, a, ok, newId);
            var after := AnswererAfter(s, t, local, answerer);
            var count := Placed(sess.ice, QueueOf(answerer, s))[c];
            var count' := Placed(local.sess.ice, QueueOf(after, s))[c];
            && count' <= count
            && (count' == count || sess.ice.sourceDevice !in {0, c.device}
                  || (local.sess.ice.sourceDevice != 0 && Ending(local.sess, s, after)))
  {
    hide Placed;
    var queue := if a.ApplyAnswer? || a.Drain? then a.queue else [];
    QueueEffect(sess.ice, queue, c);
    if a.Drain? && a.queue != [] {
      DrainEffect(sess.ice, a.queue, c);
    }
  }

  /** Pending candidates can become the queue, and a queue can be dropped. */
  lemma QueueEffect(ice: IceState, queue: seq<Candidate>, c: Candidate)
    ensures Placed(ice, [])[c] <= Placed(ice, queue)[c]
    ensures forall device, answerer ::
              Placed(ice.(sourceDevice := device, answerer := answerer, pending := []), ice.pending)[c]
                  == Placed(ice, [])[c]
    ensures forall device, answerer ::
              Placed(ice.(sourceDevice := device, answerer := answerer, pending := []), [])[c] <= Placed(ice, [])[c]
    ensures forall answerer :: Placed(ice.(answerer := answerer), [])[c] == Placed(ice, [])[c]
    ensures Placed(ice.(pending := []), ice.pending)[c] == Placed(ice, [])[c]
  {
  }

  lemma AnswerKeeps(sess: Session, s: nat, t: nat, a: AnswerPlace, ok: bool, newId: nat, answerer: Pc)
    requires Ready(sess, s, t, Answer(a), answerer)
    ensures var local := AnswerStep(sess, t, a, ok, newId);
            SessionIce(local.sess, s, AnswererAfter(s, t, local, answerer))
  {
    hide Placed;
    hide QueueOf;
    forall c {
      AnswerEffect(sess, s, t, a, ok, newId, answerer, c);
    }
  }

  lemma StepKeeps(sess: Session, s: nat, t: nat, p: Place, ok: bool, newId: nat, answerer: Pc)
    requires Ready(sess, s, t, p, answerer)
    ensures var local := LocalStep(sess, t, p, ok, newId);
            SessionIce(local.sess, s, AnswererAfter(s, t, local, answerer)) && KnownCaller(local.sess)
  {
    hide SessionIce;
    match p
    case Ice(i) => IceKeeps(sess, s, t, i, answerer);
    case Answer(a) => AnswerKeeps(sess, s, t, a, ok, newId, answerer);
    case _ => QuietKeeps(sess, s, t, p, ok, newId, answerer);
  }

  lemma IceLocated(sess: Session, s: nat, t: nat, i: IcePlace, answerer: Pc, c: Candidate, receiver: Pc)
    requires Ready(sess, s, t, Ice(i), answerer) && (c.id == t ==> receiver == At(s, Ice(i)))
    requires var after := IceStep(sess, t, i).sess.ice.arrived;
             c in after && (c in sess.ice.arrived ==> Located(sess, s, answerer, c, receiver))
    ensures var local := IceStep(sess, t, i);
            Located(local.sess, s, answerer, c, if c.id == t then NextPc(s, local) else receiver)
  {
    hide QueueOf;
    IceEffect(sess, s, t, i, QueueOf(answerer, s));
  }

  lemma AnswerLocated(sess: Session, s: nat, t: nat, a: AnswerPlace, ok: bool, newId: nat, answerer: Pc, c: Candidate,
                      receiver: Pc)
    requires Ready(sess, s, t, Answer(a), answerer) && (c.id == t ==> receiver == At(s, Answer(a)))
    requires Located(sess, s, answerer, c, receiver)
    ensures var local := AnswerStep(sess, t, a, ok, newId);
            Located(local.sess, s, AnswererAfter(s, t, local, answerer), c,
              if c.id == t then NextPc(s, local) else receiver)
  {
    hide Placed;
    hide QueueOf;
    AnswerEffect(sess, s, t, a, ok, newId, answerer, c);
  }

  lemma StepLocated(sess: Session, s: nat, t: nat, p: Place, ok: bool, newId: nat, answerer: Pc, c: Candidate,
                    receiver: Pc)
    requires Ready(sess, s, t, p, answerer) && (c.id == t ==> receiver == At(s, p))
    requires c in LocalStep(sess, t, p, ok, newId).sess.ice.arrived
    requires c in sess.ice.arrived ==> Located(sess, s, answerer, c, receiver)
    ensures var local := LocalStep(sess, t, p, ok, newId);
            Located(local.sess, s, AnswererAfter(s, t, local, answerer), c,
              if c.id == t then NextPc(s, local) else receiver)
  {
    hide Located;
    hide SessionIce;
    match p
    case Ice(i) => IceLocated(sess, s, t, i, answerer, c, receiver);
    case Answer(a) => AnswerLocated(sess, s, t, a, ok, newId, answerer, c, receiver);
    case _ => QuietLocated(sess, s, t, p, ok, newId, answerer, c, receiver);
  }

  lemma QuietLocated(sess: Session, s: nat, t: nat, p: Place, ok: bool, newId: nat, answerer: Pc, c: Candidate,
                     receiver: Pc)
    requires Ready(sess, s, t, p, answerer) && !p.Ice? && !p.Answer? && (c.id == t ==> receiver == At(s, p))
    requires Located(sess, s, answerer, c, receiver)
    ensures var local := LocalStep(sess, t, p, ok, newId);
            Located(local.sess, s, AnswererAfter(s, t, local, answerer), c,
              if c.id == t then NextPc(s, local) else receiver)
  {
    hide LocalStep;
    hide Ending;
    QuietSession(sess, s, t, p, ok, newId, answerer);
  }

  lemma NextThread(sess: Session, s: nat, t: nat, p: Place, ok: bool, newId: nat, answerer: Pc)
    requires Ready(sess, s, t, p, answerer)
    ensures var local := LocalStep(sess, t, p, ok, newId);
            local.next.Some? ==> ThreadIce(local.sess, s, AnswererAfter(s, t, local, answerer), t, local.next.value)
  {
    if p.Ice? {
      NextIce(sess, s, t, p.i, answerer);
    } else {
      hide Ready;
      NeverToIce(sess, t, p, ok, newId);
    }
  }

  lemma NextIce(sess: Session, s: nat, t: nat, i: IcePlace, answerer: Pc)
    requires Ready(sess, s, t, Ice(i), answerer)
    ensures var local := IceStep(sess, t, i);
            local.next.Some? ==> ThreadIce(local.sess, s, answerer, t, local.next.value)
  {
    hide QueueOf;
    IceEffect(sess, s, t, i, QueueOf(answerer, s));
  }

  lemma NeverToIce(sess: Session, t: nat, p: Place, ok: bool, newId: nat)
    requires !p.Ice?
    ensures var local := LocalStep(sess, t, p, ok, newId); local.next.Some? ==> !local.next.value.Ice?
  {
  }

  lemma OtherThread(sess: Session, s: nat, t: nat, p: Place, ok: bool, newId: nat, answerer: Pc, u: nat, q: Place)
    requires Ready(sess, s, t, p, answerer) && u != t && ThreadIce(sess, s, answerer, u, q)
    ensures var local := LocalStep(sess, t, p, ok, newId);
            ThreadIce(local.sess, s, AnswererAfter(s, t, local, answerer), u, q)
  {
    hide LocalStep;
    hide Placed;
    Arrivals(sess, t, p, ok, newId);
    CallLegs.Decided(sess, t, p, ok, newId);
    if q.Ice? && q.i.Add? {
      hide Ready;
      OtherAdd(sess, s, t, p, ok, newId, answerer, u, q.i.cand);
    }
  }

  lemma OtherAdd(sess: Session, s: nat, t: nat, p: Place, ok: bool, newId: nat, answerer: Pc, u: nat, c: Candidate)
    requires Ready(sess, s, t, p, answerer) && u != t && ThreadIce(sess, s, answerer, u, Ice(Add(c)))
    ensures var local := LocalStep(sess, t, p, ok, newId);
            ThreadIce(local.sess, s, AnswererAfter(s, t, local, answerer), u, Ice(Add(c)))
  {
    hide QueueOf;
    hide Placed;
    match p
    case Ice(i) => IceEffect(sess, s, t, i, QueueOf(answerer, s));
    case Answer(a) => AnswerEffect(sess, s, t, a, ok, newId, answerer, c);
    case _ => QuietSession(sess, s, t, p, ok, newId, answerer);
  }

  /******* All sessions *******/

  predicate Begun(st: State, t: nat) { t in st.threads && !st.threads[t].Free? }

  predicate SessionOk(st: State, s: nat)
    requires s in st.sessions
  {
    var sess := st.sessions[s];
    var answerer := CallLegs.PcOfOption(st, sess.ice.answerer);
    && (sess.ice.answerer.Some? ==> Begun(st, sess.ice.answerer.value))
    && (forall c :: c in sess.ice.arrived ==> Begun(st, c.id))
    && (KnownCaller(sess) ==> SessionIce(sess, s, answerer))
    && (KnownCaller(sess) ==> forall c :: c in sess.ice.arrived ==> Located(sess, s, answerer, c, PcOf(st, c.id)))
  }

  predicate ThreadOk(st: State, t: nat)
    requires t in st.threads
  {
    st.threads[t].At? && st.threads[t].s in st.sessions ==>
      var sess := st.sessions[st.threads[t].s];
      KnownCaller(sess) ==>
          ThreadIce(sess, st.threads[t].s, CallLegs.PcOfOption(st, sess.ice.answerer), t, st.threads[t].p)
  }

  ghost predicate IceInv(st: State) {
    && (forall s :: s in st.sessions ==> SessionOk(st, s))
    && (forall t :: t in st.threads ==> ThreadOk(st, t))
  }

  /** The caller's device of an incoming call is fixed. */
  lemma CallerFixed(sess: Session, t: nat, p: Place, ok: bool, newId: nat)
    requires p.Answer? ==> CallLegs.AnswerLegs(sess, t, p.a)
    ensures KnownCaller(LocalStep(sess, t, p, ok, newId).sess) == KnownCaller(sess)
  {
  }

  lemma Arrivals(sess: Session, t: nat, p: Place, ok: bool, newId: nat)
    ensures forall c :: c in LocalStep(sess, t, p, ok, newId).sess.ice.arrived ==> c in sess.ice.arrived || c.id == t
  {
  }

  lemma StepSession(st: State, t: nat, s: nat, p: Place, ok: bool, newId: nat)
    requires CallLegs.LegInv(st) && IceInv(st) && t in st.threads && st.threads[t] == At(s, p)
    ensures s in st.sessions && (KnownCaller(st.sessions[s]) ==>
              Ready(st.sessions[s], s, t, p, CallLegs.PcOfOption(st, st.sessions[s].ice.answerer)))
    ensures p.Answer? ==> CallLegs.AnswerLegs(st.sessions[s], t, p.a)
  {
    hide SessionIce;
    hide ThreadIce;
    assert CallLife.ThreadOk(st, t) && CallLife.SessionOk(st, s) && CallLegs.ThreadOk(st, t) && ThreadOk(st, t)
        && SessionOk(st, s);
  }

  lemma SteppedSession(st: State, t: nat, s: nat, p: Place, ok: bool, newId: nat)
    requires CallLegs.LegInv(st) && IceInv(st) && t in st.threads && st.threads[t] == At(s, p)
    ensures s in st.sessions && SessionOk(SessionStep(st, t, s, p, ok, newId), s)
  {
    hide SessionIce;
    hide Located;
    hide LocalStep;
    hide Ready;
    StepSession(st, t, s, p, ok, newId);
    assert SessionOk(st, s);
    var st' := SessionStep(st, t, s, p, ok, newId);
    var sess := st.sessions[s];
    var answerer := CallLegs.PcOfOption(st, sess.ice.answerer);
    CallLegs.Decided(sess, t, p, ok, newId);
    CallerFixed(sess, t, p, ok, newId);
    Arrivals(sess, t, p, ok, newId);
    if KnownCaller(sess) {
      assert CallLegs.PcOfOption(st', st'.sessions[s].ice.answerer)
          == AnswererAfter(s, t, LocalStep(sess, t, p, ok, newId), answerer);
      StepKeeps(sess, s, t, p, ok, newId, answerer);
      forall c | c in st'.sessions[s].ice.arrived
        ensures Located(st'.sessions[s], s, CallLegs.PcOfOption(st', st'.sessions[s].ice.answerer), c, PcOf(st', c.id))
      {
        StepLocated(sess, s, t, p, ok, newId, answerer, c, PcOf(st, c.id));
      }
    }
  }

  lemma SteppedThread(st: State, t: nat, s: nat, p: Place, ok: bool, newId: nat, u: nat)
    requires CallLegs.LegInv(st) && IceInv(st) && t in st.threads && st.threads[t] == At(s, p)
    requires u in st.threads && (u == t || (st.threads[u].At? && st.threads[u].s == s))
    ensures s in st.sessions && ThreadOk(SessionStep(st, t, s, p, ok, newId), u)
  {
    hide ThreadIce;
    hide LocalStep;
    hide Ready;
    StepSession(st, t, s, p, ok, newId);
    assert SessionOk(st, s) && ThreadOk(st, u);
    var sess := st.sessions[s];
    var answerer := CallLegs.PcOfOption(st, sess.ice.answerer);
    CallLegs.Decided(sess, t, p, ok, newId);
    CallerFixed(sess, t, p, ok, newId);
    if KnownCaller(sess) {
      if u == t {
        NextThread(sess, s, t, p, ok, newId, answerer);
      } else {
        OtherThread(sess, s, t, p, ok, newId, answerer, u, st.threads[u].p);
      }
    }
  }

  /** The session is the same, and of its threads at most t has changed, which wasn't in it. */
  predicate Aside(st: State, st': State, t: nat, r: nat) {
    && r in st.sessions && r in st'.sessions && st'.sessions[r] == st.sessions[r]
    && (t in st.threads ==> !(st.threads[t].At? && st.threads[t].s == r))
    && t in st'.threads && (t in st.threads && !st.threads[t].Free? ==> !st'.threads[t].Free?)
    && (st'.threads[t].At? && st'.threads[t].s == r ==>
          QueueOf(st'.threads[t], r) == [] && (st'.threads[t].p.Ice? ==> st'.threads[t].p.i.LookAt? && !Begun(st, t)))
    && (forall u :: u in st.threads && u != t ==> u in st'.threads && st'.threads[u] == st.threads[u])
    && (forall u :: u in st'.threads && u != t ==> u in st.threads)
  }

  lemma AsideSession(st: State, st': State, t: nat, r: nat)
    requires Aside(st, st', t, r) && SessionOk(st, r)
    ensures SessionOk(st', r)
  {
    var sess := st.sessions[r];
    var answerer, answerer' := CallLegs.PcOfOption(st, sess.ice.answerer), CallLegs.PcOfOption(st', sess.ice.answerer);
    assert QueueOf(answerer', r) == QueueOf(answerer, r) && (Ending(sess, r, answerer) ==> Ending(sess, r, answerer'));
    forall c | c in sess.ice.arrived && KnownCaller(sess)
      ensures Located(sess, r, answerer', c, PcOf(st', c.id))
    {
      hide Placed;
      hide QueueOf;
      hide SessionIce;
      assert Located(sess, r, answerer, c, PcOf(st, c.id));
    }
  }

  lemma AsideThread(st: State, st': State, t: nat, r: nat, u: nat)
    requires Aside(st, st', t, r) && SessionOk(st, r)
    requires u in st'.threads && st'.threads[u].At? && st'.threads[u].s == r && (u in st.threads ==> ThreadOk(st, u))
    ensures ThreadOk(st', u)
  {
    hide Placed;
    hide Located;
    hide SessionIce;
    var sess := st.sessions[r];
    var answerer, answerer' := CallLegs.PcOfOption(st, sess.ice.answerer), CallLegs.PcOfOption(st', sess.ice.answerer);
    assert QueueOf(answerer', r) == QueueOf(answerer, r);
  }

  lemma AsideAll(st: State, st': State, t: nat, s: Option<nat>)
    requires CallLife.Inv(st) && IceInv(st)
    requires forall r :: r in st'.sessions && Some(r) != s ==> Aside(st, st', t, r)
    requires s.Some? && s.value in st'.sessions ==> SessionOk(st', s.value)
    requires forall u :: u in st'.threads && st'.threads[u].At? && Some(st'.threads[u].s) == s ==> ThreadOk(st', u)
    ensures IceInv(st')
  {
    hide SessionOk;
    hide ThreadOk;
    hide Aside;
    forall r | r in st'.sessions && Some(r) != s
      ensures SessionOk(st', r)
    {
      assert Aside(st, st', t, r);
      InSessions(st, st', t, r);
      AsideSession(st, st', t, r);
    }
    forall u | u in st'.threads
      ensures ThreadOk(st', u)
    {
      AnyThread(st, st', t, s, u);
    }
  }

  lemma InSessions(st: State, st': State, t: nat, r: nat)
    requires Aside(st, st', t, r)
    ensures r in st.sessions
  {
  }

  lemma AnyThread(st: State, st': State, t: nat, s: Option<nat>, u: nat)
    requires IceInv(st) && u in st'.threads
    requires forall r :: r in st'.sessions && Some(r) != s ==> Aside(st, st', t, r)
    requires st'.threads[u].At? && Some(st'.threads[u].s) == s ==> ThreadOk(st', u)
    ensures ThreadOk(st', u)
  {
    hide SessionOk;
    hide ThreadIce;
    if st'.threads[u].At? && st'.threads[u].s in st'.sessions && Some(st'.threads[u].s) != s {
      assert Aside(st, st', t, st'.threads[u].s);
      AsideThread(st, st', t, st'.threads[u].s, u);
    }
  }

  /** Apart from steps within a session, an action leaves every session aside. */
  lemma OutsideAction(st: State, act: Action, r: nat)
    requires r in st.sessions && !(act.Step? && act.t in st.threads && st.threads[act.t].At?)
    ensures Apply(st, act) == st || Aside(st, Apply(st, act), act.t, r)
  {
    hide EntryStep;
    if act.Step? && act.t in st.threads && st.threads[act.t].Free? {
      EntryAside(st, act.t, st.threads[act.t].entry, act.ok, act.newId, r);
    }
  }

  lemma EntryAside(st: State, t: nat, entry: Entry, ok: bool, newId: nat, r: nat)
    requires r in st.sessions && t in st.threads && st.threads[t] == Free(entry)
    ensures EntryStep(st, t, entry, ok, newId) == st || Aside(st, EntryStep(st, t, entry, ok, newId), t, r)
  {
  }

  lemma ActionKeepsIce(st: State, act: Action)
    requires CallLegs.LegInv(st) && IceInv(st)
    ensures IceInv(Apply(st, act))
  {
    hide IceInv;
    hide CallLegs.LegInv;
    if act.Step? && act.t in st.threads && st.threads[act.t].At? {
      InsideKeeps(st, act.t, st.threads[act.t].s, st.threads[act.t].p, act.ok, act.newId);
    } else {
      OutsideKeeps(st, act);
    }
  }

  lemma InsideKeeps(st: State, t: nat, s: nat, p: Place, ok: bool, newId: nat)
    requires CallLegs.LegInv(st) && IceInv(st) && t in st.threads && st.threads[t] == At(s, p)
    ensures s in st.sessions && IceInv(SessionStep(st, t, s, p, ok, newId))
  {
    hide SessionOk;
    hide ThreadOk;
    hide LocalStep;
    assert CallLife.ThreadOk(st, t);
    var st' := SessionStep(st, t, s, p, ok, newId);
    SteppedSession(st, t, s, p, ok, newId);
    forall u | u in st'.threads && st'.threads[u].At? && st'.threads[u].s == s
      ensures ThreadOk(st', u)
    {
      SteppedThread(st, t, s, p, ok, newId, u);
    }
    AsideAll(st, st', t, Some(s));
  }

  lemma NewSessionOk(st: State, act: Action)
    requires CallLife.Inv(st) && !(act.Step? && act.t in st.threads && st.threads[act.t].At?)
    requires Apply(st, act).sessions != st.sessions
    ensures var st' := Apply(st, act);
            && act.Step? && act.newId !in st.sessions
            && st'.sessions.Keys == st.sessions.Keys + {act.newId} && SessionOk(st', act.newId)
            && forall u :: u in st'.threads && st'.threads[u].At? && st'.threads[u].s == act.newId ==> ThreadOk(st', u)
  {
    hide SessionOk;
    hide ThreadOk;
    hide CallLife.Inv;
    InstallShape(st, act);
    var st' := Apply(st, act);
    EmptySession(st', act.newId);
    forall u | u in st'.threads && st'.threads[u].At? && st'.threads[u].s == act.newId
      ensures ThreadOk(st', u)
    {
      NobodyThere(st, act.newId, u);
      StarterOk(st', u);
    }
  }

  /** The only way to change the sessions from outside is to install one. */
  lemma InstallShape(st: State, act: Action)
    requires !(act.Step? && act.t in st.threads && st.threads[act.t].At?) && Apply(st, act).sessions != st.sessions
    ensures act.Step? && act.newId !in st.sessions
    ensures var st' := Apply(st, act);
            && st'.sessions.Keys == st.sessions.Keys + {act.newId}
            && st'.sessions[act.newId].ice.arrived == {} && st'.sessions[act.newId].ice.answerer == None
            && st'.sessions[act.newId].ice.pending == [] && st'.sessions[act.newId].ice.handed == []
            && (!st'.sessions[act.newId].call.incoming ==> st'.sessions[act.newId].ice.sourceDevice == 0)
            && act.t in st'.threads && (st'.threads[act.t].At? ==> !st'.threads[act.t].p.Ice?)
            && (forall u :: u in st'.threads && u != act.t ==> u in st.threads && st'.threads[u] == st.threads[u])
  {
  }

  lemma EmptySession(st: State, s: nat)
    requires s in st.sessions
    requires var sess := st.sessions[s];
             && sess.ice.arrived == {} && sess.ice.answerer == None && sess.ice.pending == [] && sess.ice.handed == []
             && (!sess.call.incoming ==> sess.ice.sourceDevice == 0)
    ensures SessionOk(st, s)
  {
  }

  lemma StarterOk(st: State, t: nat)
    requires t in st.threads && st.threads[t].At? && !st.threads[t].p.Ice?
    ensures ThreadOk(st, t)
  {
  }

  lemma NobodyThere(st: State, s: nat, u: nat)
    requires CallLife.Inv(st) && s !in st.sessions
    ensures u in st.threads && st.threads[u].At? ==> st.threads[u].s != s
  {
    if u in st.threads {
      assert CallLife.ThreadOk(st, u);
    }
  }

  lemma OutsideKeeps(st: State, act: Action)
    requires CallLegs.LegInv(st) && IceInv(st) && !(act.Step? && act.t in st.threads && st.threads[act.t].At?)
    ensures IceInv(Apply(st, act))
  {
    hide SessionOk;
    hide ThreadOk;
    var st' := Apply(st, act);
    if st' != st {
      forall r | r in st.sessions
        ensures Aside(st, st', act.t, r)
      {
        OutsideAction(st, act, r);
      }
      if st'.sessions == st.sessions {
        AsideAll(st, st', act.t, None);
      } else {
        NewSessionOk(st, act);
        AsideAll(st, st', act.t, Some(act.newId));
      }
    }
  }

  lemma {:induction false} Reachable(run: seq<Action>)
    ensures IceInv(Exec(INITIAL, run))
  {
    hide Apply;
    if run != [] {
      Reachable(run[..|run| - 1]);
      CallLegs.Reachable(run[..|run| - 1]);
      ActionKeepsIce(Exec(INITIAL, run[..|run| - 1]), run[|run| - 1]);
    }
  }

  /******* What every run guarantees *******/

  /** Nothing is handed over twice, nothing that didn't arrive, and nothing from another device. */
  lemma HandedOnce(run: seq<Action>, s: nat, c: Candidate)
    requires var st := Exec(INITIAL, run); s in st.sessions && KnownCaller(st.sessions[s])
    ensures var ice := Exec(INITIAL, run).sessions[s].ice;
            && multiset(ice.handed)[c] <= 1
            && (c in ice.handed ==> c in ice.arrived && c.device == ice.sourceDevice && ice.sourceDevice != 0)
  {
    hide Exec;
    Reachable(run);
    assert SessionOk(Exec(INITIAL, run), s);
    var sess := Exec(INITIAL, run).sessions[s];
    var placed := Placed(sess.ice, QueueOf(CallLegs.PcOfOption(Exec(INITIAL, run), sess.ice.answerer), s));
    assert c in sess.ice.handed ==> c in placed;
  }

  /** The Signal leg is there, the device is chosen, nobody is ending the call, and all threads that deal
      with candidates are through. */
  predicate Quiescent(st: State, s: nat)
    requires s in st.sessions
  {
    var sess := st.sessions[s];
    var answerer := CallLegs.PcOfOption(st, sess.ice.answerer);
    && sess.ice.sourceDevice != 0 && sess.sig.leg.Some?
    && !Ending(sess, s, answerer) && QueueOf(answerer, s) == []
    && (forall t :: t in st.threads ==> !(st.threads[t].At? && st.threads[t].s == s && st.threads[t].p.Ice?))
  }

  /** Exactly the candidates that arrived from the chosen device have then been handed over, each once,
      whether they came before or after the answer. */
  lemma NoneLost(run: seq<Action>, s: nat, c: Candidate)
    requires var st := Exec(INITIAL, run); s in st.sessions && Quiescent(st, s)
    ensures var ice := Exec(INITIAL, run).sessions[s].ice;
            multiset(ice.handed)[c] == if c in ice.arrived && c.device == ice.sourceDevice then 1 else 0
  {
    hide Exec;
    var st := Exec(INITIAL, run);
    Reachable(run);
    assert SessionOk(st, s);
    HandedOnce(run, s, c);
  }

  /** Before an outgoing call is answered every candidate waits, whichever device it came from. */
  lemma AllWait(run: seq<Action>, s: nat, c: Candidate)
    requires var st := Exec(INITIAL, run);
             s in st.sessions && !st.sessions[s].call.incoming && st.sessions[s].ice.answerer.None?
    ensures var ice := Exec(INITIAL, run).sessions[s].ice;
            c !in ice.handed && multiset(ice.pending)[c] == if c in ice.arrived then 1 else 0
  {
    hide Exec;
    var st := Exec(INITIAL, run);
    Reachable(run);
    assert SessionOk(st, s);
    var ice := st.sessions[s].ice;
    assert c in ice.pending ==> c in Placed(ice, []);
  }

  lemma ChoiceKept(st: State, act: Action, s: nat)
    requires CallLegs.LegInv(st) && IceInv(st) && s in st.sessions && KnownCaller(st.sessions[s])
    ensures s in Apply(st, act).sessions
    ensures var ice, ice' := st.sessions[s].ice, Apply(st, act).sessions[s].ice;
            && (ice.sourceDevice != 0 ==> ice'.sourceDevice == ice.sourceDevice)
            && (ice.answerer.Some? ==> ice'.answerer == ice.answerer)
    ensures KnownCaller(Apply(st, act).sessions[s])
  {
    hide LocalStep;
    hide CallLegs.LegInv;
    hide IceInv;
    hide Ready;
    if act.Step? && act.t in st.threads && st.threads[act.t].At? && st.threads[act.t].s == s {
      var t, p := act.t, st.threads[act.t].p;
      StepSession(st, t, s, p, act.ok, act.newId);
      CallerFixed(st.sessions[s], t, p, act.ok, act.newId);
      CallLegs.Decided(st.sessions[s], t, p, act.ok, act.newId);
      if st.sessions[s].ice.sourceDevice != 0 {
        DeviceKept(st.sessions[s], s, t, p, act.ok, act.newId, CallLegs.PcOfOption(st, st.sessions[s].ice.answerer));
      }
    } else {
      OutsideSession(st, act, s);
    }
  }

  lemma DeviceKept(sess: Session, s: nat, t: nat, p: Place, ok: bool, newId: nat, answerer: Pc)
    requires Ready(sess, s, t, p, answerer) && sess.ice.sourceDevice != 0
    ensures LocalStep(sess, t, p, ok, newId).sess.ice.sourceDevice == sess.ice.sourceDevice
  {
  }

  lemma OutsideSession(st: State, act: Action, s: nat)
    requires s in st.sessions
    requires !(act.Step? && act.t in st.threads && st.threads[act.t].At? && st.threads[act.t].s == s)
    ensures s in Apply(st, act).sessions && Apply(st, act).sessions[s] == st.sessions[s]
  {
  }

  /** Whatever happens later, the device and the thread that answered stay the ones chosen first. */
  lemma {:induction false} ChosenOnce(run: seq<Action>, s: nat, k: nat)
    requires k <= |run|
    requires var st := Exec(INITIAL, run[..k]); s in st.sessions && KnownCaller(st.sessions[s])
    ensures s in Exec(INITIAL, run).sessions && KnownCaller(Exec(INITIAL, run).sessions[s])
    ensures var ice, ice' := Exec(INITIAL, run[..k]).sessions[s].ice, Exec(INITIAL, run).sessions[s].ice;
            && (ice.sourceDevice != 0 ==> ice'.sourceDevice == ice.sourceDevice)
            && (ice.answerer.Some? ==> ice'.answerer == ice.answerer)
    decreases |run|
  {
    hide Apply;
    if k == |run| {
      assert run[..k] == run;
    } else {
      var init := run[..|run| - 1];
      assert init[..k] == run[..k];
      ChosenOnce(init, s, k);
      Reachable(init);
      CallLegs.Reachable(init);
      ChoiceKept(Exec(INITIAL, init), run[|run| - 1], s);
    }
  }

  /** The thread has got past the check of the answering flag. */
  predicate Answering(pc: Pc, s: nat) {
    pc.At? && pc.s == s && pc.p.Answer? && !pc.p.a.RemoteAnswer? && !pc.p.a.MatrixAnswer?
  }

  /** At most one thread answers a call. */
  lemma OneAnswer(run: seq<Action>, s: nat, t: nat, u: nat)
    requires var st := Exec(INITIAL, run);
             && s in st.sessions && t in st.threads && u in st.threads
             && Answering(st.threads[t], s) && Answering(st.threads[u], s)
    ensures t == u
  {
    hide Exec;
    var st := Exec(INITIAL, run);
    CallLegs.Reachable(run);
    assert CallLegs.ThreadOk(st, t) && CallLegs.ThreadOk(st, u);
  }

  /** Once a call has been answered and has its Signal leg, nothing is ever queued any more unless it is ending. */
  lemma QueueStaysDrained(run: seq<Action>, s: nat)
    requires var st := Exec(INITIAL, run);
             && s in st.sessions && KnownCaller(st.sessions[s])
             && st.sessions[s].ice.answerer.Some? && st.sessions[s].sig.leg.Some?
             && !Ending(st.sessions[s], s, PcOf(st, st.sessions[s].ice.answerer.value))
    ensures Exec(INITIAL, run).sessions[s].ice.pending == []
  {
    hide Exec;
    hide Located;
    Reachable(run);
    assert SessionOk(Exec(INITIAL, run), s);
  }
}
