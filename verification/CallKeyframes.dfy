/**
 Keyframe requests from Signal that arrive before the Matrix video track is known. Both critical sections
 decide under the session's lock what is sent after unlocking, so a run is a list of such sections.
 */
module CallKeyframes {
  import opened Options

  /** One critical section: Signal asks for a keyframe, or the Matrix video track becomes known. */
  datatype Section = Request | Track(ssrc: nat)

  datatype Flags = Flags(ssrc: nat, pending: bool)

  /** The flags after a section, and the SSRC a keyframe is then requested from, if any. */
  function Enter(flags: Flags, section: Section): (Flags, Option<nat>) {
    match section
    case Request => if flags.ssrc == 0 then (flags.(pending := true), None) else (flags, Some(flags.ssrc))
    case Track(ssrc) => (Flags(ssrc, false), if flags.pending then Some(ssrc) else None)
  }

  class VideoRelay {
    var matrixVideoSSRC: nat
    var pendingKeyframe: bool

    function Value(): Flags
      reads this
    {
      Flags(matrixVideoSSRC, pendingKeyframe)
    }

    constructor ()
      ensures Value() == Flags(0, false)
    {
      matrixVideoSSRC, pendingKeyframe := 0, false;
    }

    method RequestMatrixKeyframe() returns (send: Option<nat>)
      modifies this
      ensures (Value(), send) == Enter(old(Value()), Request)
    {
      var ssrc := matrixVideoSSRC;
      if ssrc == 0 {
        pendingKeyframe := true;
      }
      send := if ssrc != 0 then Some(ssrc) else None;
    }

    method TrackFound(ssrc: nat) returns (send: Option<nat>)
      modifies this
      ensures (Value(), send) == Enter(old(Value()), Track(ssrc))
    {
      matrixVideoSSRC := ssrc;
      var pending := pendingKeyframe;
      pendingKeyframe := false;
      send := if pending then Some(ssrc) else None;
    }
  }

  /** The flags and everything sent after a list of sections. */
  function Exec(run: seq<Section>): (Flags, seq<nat>) {
    if run == [] then (Flags(0, false), [])
    else
      var (flags, sent) := Exec(run[..|run| - 1]);
      var (flags', send) := Enter(flags, run[|run| - 1]);
      (flags', if send.Some? then sent + [send.value] else sent)
  }

  function Repeat(ssrc: nat, n: nat): seq<nat> { if n == 0 then [] else Repeat(ssrc, n - 1) + [ssrc] }

  predicate OnlyRequests(run: seq<Section>) { forall i :: 0 <= i < |run| ==> run[i].Request? }

  lemma {:induction false} BeforeTrack(run: seq<Section>)
    requires OnlyRequests(run)
    ensures Exec(run) == (Flags(0, run != []), [])
  {
    if run != [] {
      BeforeTrack(run[..|run| - 1]);
    }
  }

  /** All requests before the track are covered by one when it appears, and every later one is sent at once.
      So none is lost, and a known track leaves nothing pending. */
  lemma {:induction false} NoRequestLost(before: seq<Section>, ssrc: nat, after: seq<Section>)
    requires OnlyRequests(before) && OnlyRequests(after) && ssrc != 0
    ensures Exec(before + [Track(ssrc)] + after)
            == (Flags(ssrc, false), Repeat(ssrc, (if before != [] then 1 else 0) + |after|))
  {
    var run := before + [Track(ssrc)] + after;
    if after == [] {
      assert run[..|run| - 1] == before;
      BeforeTrack(before);
    } else {
      assert run[..|run| - 1] == before + [Track(ssrc)] + after[..|after| - 1];
      NoRequestLost(before, ssrc, after[..|after| - 1]);
    }
  }

  /** In any run with real tracks, a known track and a pending request exclude each other. */
  lemma {:induction false} KnownMeansNothingPending(run: seq<Section>)
    requires forall i :: 0 <= i < |run| && run[i].Track? ==> run[i].ssrc != 0
    ensures Exec(run).0.ssrc != 0 ==> !Exec(run).0.pending
  {
    if run != [] {
      KnownMeansNothingPending(run[..|run| - 1]);
    }
  }
}
