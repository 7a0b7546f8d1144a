/**
 What a thread of a call does on its own when everything succeeds, and where it stops when the call is over.
 */
module CallPaths {
  import opened Options
  import opened CallLife
  import opened CallMachine
  import opened CallSolo
  import opened CallWitnesses
  import CallQueue

  /** Ringing stores an open Matrix leg, offers it, sends the invite and arms the timer. */
  lemma RingsAlone(sess: Session, t: nat, leg: nat)
    requires !sess.life.cancelled && leg !in sess.legs
    ensures Solo(t, Local(sess, Some(Ring(NewLeg))), [Choice(true, leg)] + Fine(3))
            == Local(sess.(mx := Stored(sess, leg), legs := sess.legs[leg := Leg(true, true)]), Some(Timer))
  {
    var created := sess.(legs := sess.legs[leg := Leg(true, true)]);
    var stored := created.(mx := Stored(sess, leg));
    SoloFirst(t, Local(sess, Some(Ring(NewLeg))), Choice(true, leg), Fine(3));
    SoloFirst(t, Local(created, Some(Ring(Store(leg)))), FINE, Fine(2));
    SoloFirst(t, Local(stored, Some(Ring(Offer(leg)))), FINE, Fine(1));
    SoloFirst(t, Local(stored, Some(Ring(Send))), FINE, Fine(0));
  }

  /** Ringing for a call that is over closes the leg it has just created, and ends the call. */
  lemma RingsTooLate(sess: Session, t: nat, leg: nat)
    requires sess.life.cancelled && leg !in sess.legs
    ensures Solo(t, Local(sess, Some(Ring(NewLeg))), [Choice(true, leg)] + Fine(2))
            == Local(sess.(legs := sess.legs[leg := Leg(true, false)]), Some(End(Enter(Failed, true))))
  {
    var created := sess.(legs := sess.legs[leg := Leg(true, true)]);
    SoloFirst(t, Local(sess, Some(Ring(NewLeg))), Choice(true, leg), Fine(2));
    SoloFirst(t, Local(created, Some(Ring(Store(leg)))), FINE, Fine(1));
    SoloFirst(t, Local(created, Some(Ring(Discard(leg)))), FINE, Fine(0));
    assert created.legs[leg := Leg(true, false)] == sess.legs[leg := Leg(true, false)];
  }

  /** An offer that fails closes the leg that has been stored, and ends the call. */
  lemma OfferFails(sess: Session, t: nat, leg: nat, newId: nat)
    requires leg in sess.legs
    ensures Solo(t, Local(sess, Some(Ring(Offer(leg)))), [Choice(false, newId), FINE])
            == Local(sess.(legs := sess.legs[leg := sess.legs[leg].(open := false)]), Some(End(Enter(Failed, true))))
  {
    assert [Choice(false, newId)] + [FINE] == [Choice(false, newId), FINE];
    SoloFirst(t, Local(sess, Some(Ring(Offer(leg)))), Choice(false, newId), [FINE]);
    OneStep(t, Local(sess, Some(Ring(Abort(leg)))), FINE);
  }

  /** Setting up an outgoing call stores both legs and arms the timer. */
  lemma SetsUpAlone(sess: Session, t: nat, mx: nat, sig: nat)
    requires !sess.life.cancelled && mx !in sess.legs && sig !in sess.legs && mx != sig
    ensures Solo(t, Local(sess, Some(Out(CreateMatrixLeg))),
            [Choice(true, mx)] + (Fine(3) + ([Choice(true, sig)] + Fine(3))))
            == Local(sess.(mx := Stored(sess, mx), sig := Stored(sess, sig),
                           legs := sess.legs[mx := Leg(true, true)][sig := Leg(false, true)]), Some(Timer))
  {
    var rest := [Choice(true, sig)] + Fine(3);
    var created := sess.(legs := sess.legs[mx := Leg(true, true)]);
    SoloFirst(t, Local(sess, Some(Out(CreateMatrixLeg))), Choice(true, mx), Fine(3) + rest);
    var stored := created.(mx := Stored(sess, mx));
    assert Fine(3) + rest == [FINE] + (Fine(2) + rest);
    SoloFirst(t, Local(created, Some(Out(StoreMatrixLeg(mx)))), FINE, Fine(2) + rest);
    assert Fine(2) + rest == [FINE] + (Fine(1) + rest) && Fine(1) + rest == [FINE] + rest;
    SoloFirst(t, Local(stored, Some(Out(AnswerOffer))), FINE, Fine(1) + rest);
    SoloFirst(t, Local(stored, Some(Out(Gathered))), FINE, rest);
    SetsUpSignal(stored, t, sig);
  }

  lemma SetsUpSignal(sess: Session, t: nat, sig: nat)
    requires sig !in sess.legs
    ensures Solo(t, Local(sess, Some(Out(CreateSignalLeg))), [Choice(true, sig)] + Fine(3))
            == Local(sess.(sig := Stored(sess, sig), legs := sess.legs[sig := Leg(false, true)]), Some(Timer))
  {
    var created := sess.(legs := sess.legs[sig := Leg(false, true)]);
    var stored := created.(sig := Stored(sess, sig));
    SoloFirst(t, Local(sess, Some(Out(CreateSignalLeg))), Choice(true, sig), Fine(3));
    SoloFirst(t, Local(created, Some(Out(StoreSignalLeg(sig)))), FINE, Fine(2));
    SoloFirst(t, Local(stored, Some(Out(SendOffer))), FINE, Fine(1));
    SoloFirst(t, Local(stored, Some(Out(Gather))), FINE, Fine(0));
  }

  lemma {:induction false} SoloConcat(t: nat, at: Local, a: seq<Choice>, b: seq<Choice>)
    ensures Solo(t, at, a + b) == Solo(t, Solo(t, at, a), b)
    decreases |a|
  {
    if a == [] {
      assert a + b == b;
    } else if at.next.Some? {
      assert (a + b)[1..] == a[1..] + b;
      SoloConcat(t, LocalStep(at.sess, t, at.next.value, a[0].ok, a[0].newId), a[1..], b);
    }
  }

  lemma {:induction false} FineLength(n: nat)
    ensures |Fine(n)| == n
  {
    if n > 0 { FineLength(n - 1); }
  }

  /** The thread has its queue to work through, and comes to connect after handing over what it should. */
  lemma DrainsAlone(sess: Session, t: nat, queue: seq<Candidate>)
    ensures Solo(t, Local(sess, Some(Answer(Drain(queue)))), Fine(|queue|) + [FINE])
            == Local(sess.(ice := sess.ice.(handed := sess.ice.handed
                + CallQueue.FromDevice(queue, sess.ice.sourceDevice))),
                 Some(Answer(Connect)))
  {
    hide Solo;
    FineLength(|queue|);
    var after := sess.(ice := sess.ice.(handed := sess.ice.handed
        + CallQueue.FromDevice(queue, sess.ice.sourceDevice)));
    SoloConcat(t, Local(sess, Some(Answer(Drain(queue)))), Fine(|queue|), [FINE]);
    CallQueue.DrainsInOrder(sess, t, queue, Fine(|queue|));
    OneStep(t, Local(after, Some(Answer(Drain([])))), FINE);
  }

  /** A remote answer chooses its device, takes over the queue, hands over the candidates of that device in order, and
      connects. */
  lemma RemoteAnswerAlone(sess: Session, t: nat, device: nat)
    requires sess.ice.answerer.None? && !sess.life.cancelled && sess.sig.leg.Some?
    ensures var ice := sess.ice;
            Solo(t, Local(sess, Some(Answer(RemoteAnswer(device)))), Fine(2) + (Fine(|ice.pending|) + [FINE]))
            == Local(sess.(ice := ice.(answerer := Some(t), sourceDevice := device, pending := [],
                                       handed := ice.handed + CallQueue.FromDevice(ice.pending, device))),
                 Some(Answer(Connect)))
  {
    var ice := sess.ice;
    var rest := Fine(|ice.pending|) + [FINE];
    var taken := sess.(ice := ice.(answerer := Some(t), sourceDevice := device, pending := []));
    assert Fine(2) + rest == [FINE] + (Fine(1) + rest) && Fine(1) + rest == [FINE] + rest;
    SoloFirst(t, Local(sess, Some(Answer(RemoteAnswer(device)))), FINE, Fine(1) + rest);
    SoloFirst(t, Local(taken, Some(Answer(ApplyAnswer(ice.pending)))), FINE, rest);
    DrainsAlone(taken, t, ice.pending);
  }

  /** An answer in Matrix creates and stores the Signal leg, takes over the queue, hands over the candidates of the
      caller's device in order, and connects. */
  lemma MatrixAnswerAlone(sess: Session, t: nat, leg: nat)
    requires sess.ice.answerer.None? && !sess.life.cancelled && sess.mx.leg.Some? && leg !in sess.legs
    ensures var ice := sess.ice;
            Solo(t, Local(sess, Some(Answer(MatrixAnswer))),
                [FINE] + ([Choice(true, leg)] + ([FINE] + (Fine(|ice.pending|) + [FINE]))))
            == Local(sess.(sig := Stored(sess, leg), legs := sess.legs[leg := Leg(false, true)],
                           ice := ice.(answerer := Some(t), pending := [],
                                       handed := ice.handed + CallQueue.FromDevice(ice.pending, ice.sourceDevice))),
                 Some(Answer(Connect)))
  {
    var ice := sess.ice;
    var rest := Fine(|ice.pending|) + [FINE];
    var answered := sess.(ice := ice.(answerer := Some(t)));
    var created := answered.(legs := sess.legs[leg := Leg(false, true)]);
    var stored := created.(sig := Stored(sess, leg), ice := ice.(answerer := Some(t), pending := []));
    SoloFirst(t, Local(sess, Some(Answer(MatrixAnswer))), FINE, [Choice(true, leg)] + ([FINE] + rest));
    SoloFirst(t, Local(answered, Some(Answer(PrepareLeg))), Choice(true, leg), [FINE] + rest);
    SoloFirst(t, Local(created, Some(Answer(StoreLeg(leg)))), FINE, rest);
    DrainsAlone(stored, t, ice.pending);
  }

  /** Once a call is over or has been answered, a further answer does nothing, and setting the call up stops before the
      Signal leg. */
  lemma StopsWhenOver(sess: Session, t: nat, a: AnswerPlace, ok: bool, newId: nat)
    ensures (a.RemoteAnswer? || a.MatrixAnswer?) && (sess.life.cancelled || sess.ice.answerer.Some?) ==>
              AnswerStep(sess, t, a, ok, newId) == Local(sess, None)
    ensures sess.life.cancelled ==> OutStep(sess, Gathered, ok, newId) == Local(sess, None)
    ensures sess.life.cancelled ==> TimerStep(sess) == Local(sess, None)
  {
  }

  /** A message that can't be prepared for, or a call that finds the slot taken, leaves everything as it was. */
  lemma GivesUp(st: State, t: nat, entry: Entry, newId: nat)
    requires entry.InPrepare? || (entry.InCheck? && st.active.Some?)
    ensures EntryStep(st, t, entry, false, newId) == Go(st, t, Done)
  {
  }

  /** Whoever asks for a call to end, as the first or as a later one, is held until the call has ended: then the hangups
      are sent and the slot is free of it. */
  lemma EndWaits(run: seq<Action>, t: nat, ok: bool, newId: nat)
    requires PcOf(Exec(INITIAL, run), t).At? && PcOf(Exec(INITIAL, run), t).p.End?
    ensures var s, after := PcOf(Exec(INITIAL, run), t).s, Exec(INITIAL, run + [Step(t, ok, newId)]);
            PcOf(after, t) == Done ==>
              && s in after.sessions && after.sessions[s].life.ended && after.active != Some(s)
              && after.sessions[s].life.signalHangups == SignalHangups(after.sessions[s].life)
              && after.sessions[s].life.matrixHangups == MatrixHangups(after.sessions[s].life)
  {
    var st := Exec(INITIAL, run);
    var s := PcOf(st, t).s;
    Reachable(run);
    Reachable(run + [Step(t, ok, newId)]);
    assert ThreadOk(st, t);
    assert (run + [Step(t, ok, newId)])[..|run|] == run;
    assert SessionOk(Exec(INITIAL, run + [Step(t, ok, newId)]), s);
  }
}
