/**
 Where the devices in a session come from: the offer, the answer and the candidates of that very call.
 */
module CallOrigins {
  import opened Options
  import opened CallMachine
  import opened CallLife
  import CallLegs
  import CallIce

  /** The thread was started by this message. */
  ghost predicate Began(run: seq<Action>, t: nat, entry: Entry) {
    exists i :: 0 <= i < |run| && run[i] == Start(t, Free(entry)) && t !in Exec(INITIAL, run[..i]).threads
  }

  lemma BeganStays(run: seq<Action>, act: Action, t: nat, entry: Entry)
    requires Began(run, t, entry)
    ensures Began(run + [act], t, entry)
  {
    hide Exec;
    var i :| 0 <= i < |run| && run[i] == Start(t, Free(entry)) && t !in Exec(INITIAL, run[..i]).threads;
    var more := run + [act];
    assert more[i] == run[i] && more[..i] == run[..i];
  }

  lemma BeginsNow(run: seq<Action>, t: nat, entry: Entry)
    requires t !in Exec(INITIAL, run).threads
    ensures Began(run + [Start(t, Free(entry))], t, entry)
  {
    hide Exec;
    var more := run + [Start(t, Free(entry))];
    assert more[|run|] == Start(t, Free(entry)) && more[..|run|] == run;
  }

  /** The session's peer, call and device are those of the messages that its threads were started by. */
  ghost predicate SessionOrigin(run: seq<Action>, sess: Session) {
    var call, ice := sess.call, sess.ice;
    && (if call.incoming then Began(run, call.starter, InCheck(call.peer, call.callId, ice.sourceDevice))
        else Began(run, call.starter, OutInstall(call.peer, call.callId)))
    && (!call.incoming && ice.sourceDevice != 0 ==>
          ice.answerer.Some? && Began(run, ice.answerer.value, AnswerLookup(call.peer, call.callId, ice.sourceDevice)))
    && (forall c :: c in ice.arrived ==> Began(run, c.id, IceLookup(call.peer, call.callId, c.device)))
  }

  /** What the thread has in hand is what it was started with. */
  ghost predicate EntryOrigin(run: seq<Action>, t: nat, entry: Entry) {
    match entry
    case InPrepare(peer, callId, device) => Began(run, t, InCheck(peer, callId, device))
    case InInstall(peer, callId, device) => Began(run, t, InCheck(peer, callId, device))
    case _ => Began(run, t, entry)
  }

  ghost predicate PlaceOrigin(run: seq<Action>, sess: Session, t: nat, p: Place) {
    && (p.Ice? && p.i.LookAt? ==> Began(run, t, IceLookup(sess.call.peer, sess.call.callId, p.i.device)))
    && (p.Answer? && p.a.RemoteAnswer? ==> Began(run, t, AnswerLookup(sess.call.peer, sess.call.callId, p.a.device)))
  }

  ghost predicate ThreadOrigin(run: seq<Action>, st: State, t: nat)
    requires t in st.threads
  {
    match st.threads[t]
    case Free(entry) => EntryOrigin(run, t, entry)
    case At(s, p) => s in st.sessions && PlaceOrigin(run, st.sessions[s], t, p)
    case Done => true
  }

  ghost predicate Origins(run: seq<Action>, st: State) {
    && (forall s :: s in st.sessions ==> SessionOrigin(run, st.sessions[s]))
    && (forall t :: t in st.threads ==> ThreadOrigin(run, st, t))
  }

  lemma SessionStays(run: seq<Action>, act: Action, sess: Session)
    requires SessionOrigin(run, sess)
    ensures SessionOrigin(run + [act], sess)
  {
    hide Began;
    forall t, entry | Began(run, t, entry)
      ensures Began(run + [act], t, entry)
    {
      BeganStays(run, act, t, entry);
    }
  }

  lemma ThreadStays(run: seq<Action>, act: Action, st: State, t: nat)
    requires t in st.threads && ThreadOrigin(run, st, t)
    ensures ThreadOrigin(run + [act], st, t)
  {
    hide Began;
    forall u, entry | Began(run, u, entry)
      ensures Began(run + [act], u, entry)
    {
      BeganStays(run, act, u, entry);
    }
  }

  lemma OriginsStay(run: seq<Action>, act: Action, st: State)
    requires Origins(run, st)
    ensures Origins(run + [act], st)
  {
    hide SessionOrigin;
    hide ThreadOrigin;
    forall s | s in st.sessions
      ensures SessionOrigin(run + [act], st.sessions[s])
    {
      SessionStays(run, act, st.sessions[s]);
    }
    forall t | t in st.threads
      ensures ThreadOrigin(run + [act], st, t)
    {
      ThreadStays(run, act, st, t);
    }
  }

  /** One step within a session brings in nothing but what its thread was started with. */
  lemma StepOrigin(run: seq<Action>, sess: Session, t: nat, p: Place, ok: bool, newId: nat)
    requires SessionOrigin(run, sess) && PlaceOrigin(run, sess, t, p)
    requires p.Answer? ==> CallLegs.AnswerLegs(sess, t, p.a)
    requires !sess.call.incoming ==> (sess.ice.sourceDevice == 0 <==> sess.ice.answerer.None?)
    ensures var local := LocalStep(sess, t, p, ok, newId);
            && SessionOrigin(run, local.sess) && local.sess.call == sess.call
            && (local.next.Some? ==> PlaceOrigin(run, local.sess, t, local.next.value))
  {
    hide Began;
  }

  lemma InsideOrigins(run: seq<Action>, st: State, t: nat, s: nat, p: Place, ok: bool, newId: nat)
    requires Origins(run, st) && CallLegs.LegInv(st) && CallIce.IceInv(st) && t in st.threads
    requires st.threads[t] == At(s, p)
    ensures s in st.sessions && Origins(run, SessionStep(st, t, s, p, ok, newId))
  {
    hide LocalStep;
    hide SessionOrigin;
    hide PlaceOrigin;
    assert ThreadOrigin(run, st, t) && CallLegs.ThreadOk(st, t);
    var sess, st' := st.sessions[s], SessionStep(st, t, s, p, ok, newId);
    assert SessionOrigin(run, sess);
    ChosenWhenAnswered(st, s);
    StepOrigin(run, sess, t, p, ok, newId);
    forall u | u in st'.threads
      ensures ThreadOrigin(run, st', u)
    {
      if u != t {
        assert ThreadOrigin(run, st, u);
        if st.threads[u].At? && st.threads[u].s == s {
          SameCall(run, sess, st'.sessions[s], u, st.threads[u].p);
        }
      }
    }
  }

  lemma ChosenWhenAnswered(st: State, s: nat)
    requires CallIce.IceInv(st) && s in st.sessions
    ensures var sess := st.sessions[s];
            !sess.call.incoming ==> (sess.ice.sourceDevice == 0 <==> sess.ice.answerer.None?)
  {
    assert CallIce.SessionOk(st, s);
  }

  lemma SameCall(run: seq<Action>, sess: Session, sess': Session, t: nat, p: Place)
    requires PlaceOrigin(run, sess, t, p) && sess'.call == sess.call
    ensures PlaceOrigin(run, sess', t, p)
  {
  }

  lemma EntryOrigins(run: seq<Action>, st: State, t: nat, entry: Entry, ok: bool, newId: nat)
    requires Origins(run, st) && CallLife.Inv(st) && t in st.threads && st.threads[t] == Free(entry)
    ensures Origins(run, EntryStep(st, t, entry, ok, newId))
  {
    hide Began;
    hide CallLife.Inv;
    assert ThreadOrigin(run, st, t);
    var st' := EntryStep(st, t, entry, ok, newId);
    EntryThread(run, st, t, entry, ok, newId);
    forall s | s in st'.sessions
      ensures SessionOrigin(run, st'.sessions[s])
    {
      if s in st.sessions { assert SessionOrigin(run, st.sessions[s]); }
    }
    forall u | u in st'.threads
      ensures ThreadOrigin(run, st', u)
    {
      if u != t { assert ThreadOrigin(run, st, u); }
    }
  }

  lemma EntryThread(run: seq<Action>, st: State, t: nat, entry: Entry, ok: bool, newId: nat)
    requires t in st.threads && st.threads[t] == Free(entry) && EntryOrigin(run, t, entry)
    ensures var st' := EntryStep(st, t, entry, ok, newId);
            && t in st'.threads && ThreadOrigin(run, st', t)
            && (forall s :: s in st.sessions ==> s in st'.sessions && st'.sessions[s] == st.sessions[s])
            && (forall s :: s in st'.sessions && s !in st.sessions ==> SessionOrigin(run, st'.sessions[s]))
            && (forall u :: u in st'.threads && u != t ==> u in st.threads && st'.threads[u] == st.threads[u])
  {
    hide Began;
  }

  lemma StartOrigins(run: seq<Action>, st: State, t: nat, pc: Pc)
    requires Origins(run, st) && st == Exec(INITIAL, run) && t !in st.threads && CanStart(st, pc)
    ensures Origins(run + [Start(t, pc)], Go(st, t, pc))
  {
    hide Exec;
    var more, st' := run + [Start(t, pc)], Go(st, t, pc);
    OriginsStay(run, Start(t, pc), st);
    if pc.Free? {
      BeginsNow(run, t, pc.entry);
    }
    forall u | u in st'.threads
      ensures ThreadOrigin(more, st', u)
    {
      if u != t { assert ThreadOrigin(more, st, u); }
    }
  }

  lemma {:induction false} Reachable(run: seq<Action>)
    ensures Origins(run, Exec(INITIAL, run))
  {
    if run != [] {
      hide Origins;
      hide SessionStep;
      hide EntryStep;
      var init, act := run[..|run| - 1], run[|run| - 1];
      assert run == init + [act];
      Reachable(init);
      CallLegs.Reachable(init);
      CallIce.Reachable(init);
      var st := Exec(INITIAL, init);
      hide Exec;
      OriginsStay(init, act, st);
      match act
      case Start(t, pc) =>
        if t !in st.threads && CanStart(st, pc) {
          StartOrigins(init, st, t, pc);
        }
      case Step(t, ok, newId) =>
        if t in st.threads {
          match st.threads[t]
          case Done =>
          case At(s, p) => InsideOrigins(run, st, t, s, p, ok, newId);
          case Free(entry) => EntryOrigins(run, st, t, entry, ok, newId);
        }
    }
  }

  /** In every run, the device of an incoming call is that of the offer it was started by, the device of an outgoing one
      that of the answer its answering thread was started by, and every candidate that has arrived came in a message
      from its device; all of them from the session's peer and about its call. */
  lemma DevicesAreGenuine(run: seq<Action>, s: nat, c: Candidate)
    requires s in Exec(INITIAL, run).sessions
    ensures var sess := Exec(INITIAL, run).sessions[s];
            var peer, callId, device := sess.call.peer, sess.call.callId, sess.ice.sourceDevice;
            && (sess.call.incoming ==> Began(run, sess.call.starter, InCheck(peer, callId, device)))
            && (!sess.call.incoming ==> Began(run, sess.call.starter, OutInstall(peer, callId)))
            && (!sess.call.incoming && device != 0 ==>
                  sess.ice.answerer.Some? && Began(run, sess.ice.answerer.value, AnswerLookup(peer, callId, device)))
            && (c in sess.ice.arrived ==> Began(run, c.id, IceLookup(peer, callId, c.device)))
  {
    hide Exec;
    hide Began;
    Reachable(run);
    assert SessionOrigin(run, Exec(INITIAL, run).sessions[s]);
  }
}
