/**
 Call bridging as a machine of threads over one call slot. Every critical section and every call
 that can fail is one step, and threads may be interleaved in any way.
 */
module CallMachine {
  import opened Options

  /******* Sessions *******/

  /** A remote ICE candidate. Its id is the thread that received it. */
  datatype Candidate = Candidate(id: nat, device: nat)

  datatype Reason = RemoteHangup | RemoteBusy | AnsweredElsewhere | LocalDecline | Timeout | Failed | BridgeShutdown

  /** What is fixed when a session is created, and the thread that created it. */
  datatype Call = Call(incoming: bool, peer: nat, callId: nat, starter: nat)

  /** How far end has come, and the hangups it has sent. */
  datatype Life = Life(
    ender: Option<nat>,         // the thread that entered end first
    reason: Reason,             // why, and whether it was to tell Signal
    notify: bool,
    cancelled: bool,            // the session's context is done
    swept: bool,                // end has read the legs
    ended: bool,                // end has finished
    signalHangups: nat,
    matrixHangups: nat)

  /** A stored media leg, and whether it was stored after end had read the legs. */
  datatype Side = Side(leg: Option<nat>, late: bool)

  /** A created media leg, for the Matrix or the Signal side. */
  datatype Leg = Leg(matrix: bool, open: bool)

  datatype IceState = IceState(
    sourceDevice: nat,          // zero while unknown
    answerer: Option<nat>,      // the thread that set the answering flag
    pending: seq<Candidate>,
    arrived: set<Candidate>,    // everything that was looked at under the lock
    handed: seq<Candidate>)     // everything that was added to the Signal leg

  datatype Session = Session(call: Call, life: Life, mx: Side, sig: Side, legs: map<nat, Leg>, ice: IceState)

  const NEW_LIFE := Life(None, Failed, false, false, false, false, 0, 0)

  function NewSession(incoming: bool, peer: nat, callId: nat, device: nat, starter: nat): Session {
    Session(Call(incoming, peer, callId, starter), NEW_LIFE,
      Side(None, false), Side(None, false), map[], IceState(device, None, [], {}, []))
  }

  /******* Threads *******/

  /** Ringing Matrix for an incoming Signal call. */
  datatype RingPlace = NewLeg | Store(leg: nat) | Discard(leg: nat) | Offer(leg: nat) | Abort(leg: nat) | Send

  /** Setting up an outgoing Matrix call. */
  datatype OutPlace =
    | CreateMatrixLeg | StoreMatrixLeg(leg: nat) | AnswerOffer | Gathered
    | CreateSignalLeg | StoreSignalLeg(leg: nat) | SendOffer | Gather

  datatype EndPlace =
    | Enter(reason: Reason, notify: bool)
    | HangUpSignal(reason: Reason, notify: bool)
    | HangUpMatrix(reason: Reason)
    | Cancel
    | Sweep
    | CloseMatrix(mx: Option<nat>, sig: Option<nat>)
    | CloseSignal(sig: Option<nat>)
    | Clear

  datatype IcePlace = LookAt(device: nat) | Add(cand: Candidate)

  /** Answering: remotely for outgoing calls, in Matrix for incoming ones. */
  datatype AnswerPlace =
    | RemoteAnswer(device: nat) | ApplyAnswer(queue: seq<Candidate>)
    | MatrixAnswer | PrepareLeg | StoreLeg(leg: nat)
    | Drain(queue: seq<Candidate>) | Connect

  datatype Place =
    | Ring(r: RingPlace) | Out(o: OutPlace) | Timer | End(e: EndPlace) | Ice(i: IcePlace) | Answer(a: AnswerPlace)

  /** Threads that haven't found or created their session yet. */
  datatype Entry =
    | InCheck(peer: nat, callId: nat, device: nat)
    | InPrepare(peer: nat, callId: nat, device: nat)
    | InInstall(peer: nat, callId: nat, device: nat)
    | OutInstall(peer: nat, callId: nat)
    | IceLookup(peer: nat, callId: nat, device: nat)
    | AnswerLookup(peer: nat, callId: nat, device: nat)

  datatype Pc = Free(entry: Entry) | At(s: nat, p: Place) | Done

  datatype State = State(active: Option<nat>, sessions: map<nat, Session>, threads: map<nat, Pc>)

  const INITIAL := State(None, map[], map[])

  /******* Steps within a session *******/

  /** What a step makes of its session, and where its thread goes: on to another place, or away. */
  datatype Local = Local(sess: Session, next: Option<Place>)

  function Failure(notify: bool): Option<Place> { Some(End(Enter(Failed, notify))) }

  function WithLeg(sess: Session, id: nat, matrix: bool): Session {
    sess.(legs := sess.legs[id := Leg(matrix, true)])
  }

  function Closed(sess: Session, id: nat): Session {
    if id in sess.legs then sess.(legs := sess.legs[id := sess.legs[id].(open := false)]) else sess
  }

  function Stored(sess: Session, leg: nat): Side { Side(Some(leg), sess.life.swept) }

  /** newId must be unused; otherwise the step waits for another one. */
  function RingStep(sess: Session, r: RingPlace, ok: bool, newId: nat): Local {
    match r
    case NewLeg =>
      if !ok then Local(sess, Failure(true))
      else if newId in sess.legs then Local(sess, Some(Ring(r)))
      else Local(WithLeg(sess, newId, true), Some(Ring(Store(newId))))
    case Store(leg) =>
      if sess.life.cancelled then Local(sess, Some(Ring(Discard(leg))))
      else Local(sess.(mx := Stored(sess, leg)), Some(Ring(Offer(leg))))
    case Discard(leg) => Local(Closed(sess, leg), Failure(true))
    case Offer(leg) => Local(sess, Some(Ring(if ok then Send else Abort(leg))))
    case Abort(leg) => Local(Closed(sess, leg), Failure(true))
    case Send => Local(sess, if ok && !sess.life.cancelled then Some(Timer) else Failure(true))
  }

  function TimerStep(sess: Session): Local {
    Local(sess, if sess.life.cancelled then None else Some(End(Enter(Timeout, true))))
  }

  function OutStep(sess: Session, o: OutPlace, ok: bool, newId: nat): Local {
    match o
    case CreateMatrixLeg =>
      if !ok then Local(sess, Failure(false))
      else if newId in sess.legs then Local(sess, Some(Out(o)))
      else Local(WithLeg(sess, newId, true), Some(Out(StoreMatrixLeg(newId))))
    case StoreMatrixLeg(leg) => Local(sess.(mx := Stored(sess, leg)), Some(Out(AnswerOffer)))
    case AnswerOffer => Local(sess, if ok then Some(Out(Gathered)) else Failure(false))
    case Gathered => Local(sess, if sess.life.cancelled then None else Some(Out(CreateSignalLeg)))
    case CreateSignalLeg =>
      if !ok then Local(sess, Failure(false))
      else if newId in sess.legs then Local(sess, Some(Out(o)))
      else Local(WithLeg(sess, newId, false), Some(Out(StoreSignalLeg(newId))))
    case StoreSignalLeg(leg) => Local(sess.(sig := Stored(sess, leg)), Some(Out(SendOffer)))
    case SendOffer => Local(sess, if ok then Some(Out(Gather)) else Failure(false))
    case Gather => Local(sess, if ok then Some(Timer) else Failure(true))
  }

  /** Only the first thread to enter runs the body; the others wait until it is through. */
  function EndStep(sess: Session, t: nat, e: EndPlace): Local {
    var life := sess.life;
    match e
    case Enter(reason, notify) =>
      if life.ended then Local(sess, None)
      else if life.ender.Some? then Local(sess, Some(End(e)))
      else Local(sess.(life := life.(ender := Some(t), reason := reason, notify := notify)),
          Some(End(HangUpSignal(reason, notify))))
    case HangUpSignal(reason, notify) =>
      Local(sess.(life := life.(signalHangups := life.signalHangups + if notify then 1 else 0)),
          Some(End(HangUpMatrix(reason))))
    case HangUpMatrix(reason) =>
      Local(sess.(life := life.(matrixHangups := life.matrixHangups + if reason != LocalDecline then 1 else 0)),
          Some(End(Cancel)))
    case Cancel => Local(sess.(life := life.(cancelled := true)), Some(End(Sweep)))
    case Sweep => Local(sess.(life := life.(swept := true)), Some(End(CloseMatrix(sess.mx.leg, sess.sig.leg))))
    case CloseMatrix(mx, sig) => Local(if mx.Some? then Closed(sess, mx.value) else sess, Some(End(CloseSignal(sig))))
    case CloseSignal(sig) => Local(if sig.Some? then Closed(sess, sig.value) else sess, Some(End(Clear)))
    case Clear => Local(sess.(life := life.(ended := true)), None)
  }

  function IceStep(sess: Session, t: nat, i: IcePlace): Local {
    var ice := sess.ice;
    match i
    case LookAt(device) =>
      var cand := Candidate(t, device);
      var seen := ice.(arrived := ice.arrived + {cand});
      if ice.sourceDevice != 0 && ice.sourceDevice != device then Local(sess.(ice := seen), None)
      else if sess.sig.leg.None? || (!sess.call.incoming && ice.sourceDevice == 0) then
        Local(sess.(ice := seen.(pending := ice.pending + [cand])), None)
      else Local(sess.(ice := seen), Some(Ice(Add(cand))))
    case Add(cand) => Local(sess.(ice := ice.(handed := ice.handed + [cand])), None)
  }

  function AnswerStep(sess: Session, t: nat, a: AnswerPlace, ok: bool, newId: nat): Local {
    var ice := sess.ice;
    match a
    case RemoteAnswer(device) =>
      if ice.answerer.Some? || sess.life.cancelled then Local(sess, None)
      else
        Local(sess.(ice := ice.(answerer := Some(t), sourceDevice := device, pending := [])),
          if sess.sig.leg.None? then Failure(true) else Some(Answer(ApplyAnswer(ice.pending))))
    case ApplyAnswer(queue) => Local(sess, if ok then Some(Answer(Drain(queue))) else Failure(true))
    case MatrixAnswer =>
      if ice.answerer.Some? || sess.life.cancelled then Local(sess, None)
      else
        Local(sess.(ice := ice.(answerer := Some(t))),
          if sess.mx.leg.None? then Failure(true) else Some(Answer(PrepareLeg)))
    case PrepareLeg =>
      if !ok then Local(sess, Failure(true))
      else if newId in sess.legs then Local(sess, Some(Answer(a)))
      else Local(WithLeg(sess, newId, false), Some(Answer(StoreLeg(newId))))
    case StoreLeg(leg) =>
      Local(sess.(sig := Stored(sess, leg), ice := ice.(pending := [])), Some(Answer(Drain(ice.pending))))
    case Drain(queue) =>
      if queue == [] then Local(sess, Some(Answer(Connect)))
      else
        Local(
          if queue[0].device == ice.sourceDevice then sess.(ice := ice.(handed := ice.handed + [queue[0]])) else sess,
          Some(Answer(Drain(queue[1..]))))
    case Connect => Local(sess, if ok then None else Failure(true))
  }

  function LocalStep(sess: Session, t: nat, p: Place, ok: bool, newId: nat): Local {
    match p
    case Ring(r) => RingStep(sess, r, ok, newId)
    case Out(o) => OutStep(sess, o, ok, newId)
    case Timer => TimerStep(sess)
    case End(e) => EndStep(sess, t, e)
    case Ice(i) => IceStep(sess, t, i)
    case Answer(a) => AnswerStep(sess, t, a, ok, newId)
  }

  /******* Steps of the machine *******/

  function Go(st: State, t: nat, pc: Pc): State { st.(threads := st.threads[t := pc]) }

  /** A session is only ever put into an empty slot. */
  function Install(st: State, t: nat, incoming: bool, peer: nat, callId: nat, device: nat, newId: nat): State {
    if st.active.Some? then Go(st, t, Done)
    else if newId in st.sessions then st
    else
      State(Some(newId), st.sessions[newId := NewSession(incoming, peer, callId, device, t)],
        st.threads[t := At(newId, if incoming then Ring(NewLeg) else Out(CreateMatrixLeg))])
  }

  /** The active session, if it is the call in question. */
  function Lookup(st: State, peer: nat, callId: nat): (found: Option<nat>)
    ensures found.Some? ==> found.value in st.sessions && st.active == found
  {
    if st.active.Some? && st.active.value in st.sessions
       && st.sessions[st.active.value].call.callId == callId && st.sessions[st.active.value].call.peer == peer
    then st.active else None
  }

  function EntryStep(st: State, t: nat, entry: Entry, ok: bool, newId: nat): State {
    match entry
    case InCheck(peer, callId, device) =>
        Go(st, t, if st.active.Some? then Done else Free(InPrepare(peer, callId, device)))
    case InPrepare(peer, callId, device) => Go(st, t, if ok then Free(InInstall(peer, callId, device)) else Done)
    case InInstall(peer, callId, device) => Install(st, t, true, peer, callId, device, newId)
    case OutInstall(peer, callId) => Install(st, t, false, peer, callId, 0, newId)
    case IceLookup(peer, callId, device) =>
      var found := Lookup(st, peer, callId);
      Go(st, t, if found.None? then Done else At(found.value, Ice(LookAt(device))))
    case AnswerLookup(peer, callId, device) =>
      var found := Lookup(st, peer, callId);
      Go(st, t,
        if found.None? || st.sessions[found.value].call.incoming || device == 0 then Done
        else At(found.value, Answer(RemoteAnswer(device))))
  }

  /** The last step of end empties the slot if the session is still in it. */
  function SlotAfter(st: State, s: nat, p: Place): Option<nat> {
    if p == End(Clear) && st.active == Some(s) then None else st.active
  }

  function SessionStep(st: State, t: nat, s: nat, p: Place, ok: bool, newId: nat): State
    requires s in st.sessions
  {
    var local := LocalStep(st.sessions[s], t, p, ok, newId);
    State(SlotAfter(st, s, p), st.sessions[s := local.sess],
      st.threads[t := if local.next.None? then Done else At(s, local.next.value)])
  }

  function Advance(st: State, t: nat, ok: bool, newId: nat): State
    requires t in st.threads
  {
    match st.threads[t]
    case Free(entry) => EntryStep(st, t, entry, ok, newId)
    case At(s, p) => if s in st.sessions then SessionStep(st, t, s, p, ok, newId) else st
    case Done => st
  }

  /** Events that start threads: calls, candidates, answers, and anything that ends a session. */
  predicate CanStart(st: State, pc: Pc) {
    match pc
    case Free(entry) => !entry.InPrepare? && !entry.InInstall?
    case At(s, p) =>
      && s in st.sessions
      && ((p.Answer? && p.a == MatrixAnswer && st.sessions[s].call.incoming) || (p.End? && p.e.Enter?))
    case Done => false
  }

  /** What happens next: a thread is started, or a thread takes one step. A step that can fail says
      whether it does, and one that creates something says under which id. */
  datatype Action = Start(t: nat, pc: Pc) | Step(t: nat, ok: bool, newId: nat)

  /** An action that isn't possible changes nothing, so any list of actions is a run. */
  function Apply(st: State, act: Action): State {
    match act
    case Start(t, pc) => if t !in st.threads && CanStart(st, pc) then Go(st, t, pc) else st
    case Step(t, ok, newId) => if t in st.threads then Advance(st, t, ok, newId) else st
  }

  function Exec(st: State, run: seq<Action>): State {
    if run == [] then st else Apply(Exec(st, run[..|run| - 1]), run[|run| - 1])
  }
}
