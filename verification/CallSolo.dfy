/**
 One thread of a session running on its own, and runs put together from such stretches.
 */
module CallSolo {
  import opened Options
  import opened CallMachine
  import opened CallLife
  import opened CallSlot

  /** What a step is given: whether what it tries succeeds, and the id of what it creates. */
  datatype Choice = Choice(ok: bool, newId: nat)

  const FINE := Choice(true, 0)

  /** The session, and the thread's place in it, after the thread has taken some steps. */
  function Solo(t: nat, at: Local, choices: seq<Choice>): Local
    decreases |choices|
  {
    if choices == [] || at.next.None? then at
    else Solo(t, LocalStep(at.sess, t, at.next.value, choices[0].ok, choices[0].newId), choices[1..])
  }

  function StepsOf(t: nat, choices: seq<Choice>): (steps: seq<Action>)
    ensures |steps| == |choices|
  {
    seq(|choices|, i requires 0 <= i < |choices| => Step(t, choices[i].ok, choices[i].newId))
  }

  function Origin(st: State, s: nat, t: nat): Local
    requires s in st.sessions && t in st.threads && st.threads[t].At?
  {
    Local(st.sessions[s], Some(st.threads[t].p))
  }

  /** The state in which the thread has taken its session that far. */
  predicate Reached(st: State, st': State, s: nat, t: nat, end: Local) {
    && st'.sessions == st.sessions[s := end.sess] && st'.threads == st.threads[t := NextPc(s, end)]
    && st'.active == if end.sess.life.ended && st.active == Some(s) then None else st.active
  }

  lemma SoloStep(st: State, s: nat, t: nat, c: Choice)
    requires CallLife.Inv(st) && s in st.sessions && t in st.threads && st.threads[t].At? && st.threads[t].s == s
    ensures var p := st.threads[t].p;
            Reached(st, Apply(st, Step(t, c.ok, c.newId)), s, t, LocalStep(st.sessions[s], t, p, c.ok, c.newId))
  {
    assert CallLife.SessionOk(st, s) && CallLife.ThreadOk(st, t);
    var sess := st.sessions[s];
    hide LocalStep;
    OwnSession(sess, s, t, st.threads[t].p, c.ok, c.newId, PcOf(st, sess.call.starter),
      if sess.life.ender.Some? then PcOf(st, sess.life.ender.value) else Done);
  }

  lemma {:induction false} DoneStays(st: State, t: nat, choices: seq<Choice>)
    requires t in st.threads && st.threads[t] == Done
    ensures Exec(st, StepsOf(t, choices)) == st
  {
    if choices != [] {
      var init := choices[..|choices| - 1];
      assert StepsOf(t, choices)[..|choices| - 1] == StepsOf(t, init);
      DoneStays(st, t, init);
    }
  }

  /** A thread's own steps do to its session what they do on their own. */
  lemma {:induction false} SoloRun(st: State, s: nat, t: nat, choices: seq<Choice>)
    requires CallLife.Inv(st) && s in st.sessions && t in st.threads && st.threads[t].At? && st.threads[t].s == s
    ensures CallLife.Inv(Exec(st, StepsOf(t, choices)))
    ensures Reached(st, Exec(st, StepsOf(t, choices)), s, t, Solo(t, Origin(st, s, t), choices))
    decreases |choices|
  {
    hide CallLife.Inv;
    hide LocalStep;
    hide Apply;
    if choices == [] {
      assert CallLife.Inv(st) && st.threads[t := st.threads[t]] == st.threads
          && st.sessions[s := st.sessions[s]] == st.sessions;
      NotActive(st, s);
    } else {
      var act := Step(t, choices[0].ok, choices[0].newId);
      var next := Apply(st, act);
      SoloStep(st, s, t, choices[0]);
      ActionKeepsInv(st, act);
      assert StepsOf(t, choices) == [act] + StepsOf(t, choices[1..]);
      ExecConcat(st, [act], StepsOf(t, choices[1..]));
      assert Exec(st, [act]) == next by { assert [act][..0] == []; }
      if next.threads[t].At? {
        SoloRun(next, s, t, choices[1..]);
        LastingRun(next, StepsOf(t, choices[1..]), s);
        ReachedOn(st, next, Exec(next, StepsOf(t, choices[1..])), s, t,
            Local(next.sessions[s], Some(next.threads[t].p)),
          Solo(t, Origin(next, s, t), choices[1..]));
      } else {
        DoneStays(next, t, choices[1..]);
      }
    }
  }

  lemma ReachedOn(st: State, next: State, last: State, s: nat, t: nat, mid: Local, end: Local)
    requires Reached(st, next, s, t, mid) && Reached(next, last, s, t, end)
    requires mid.sess.life.ended ==> end.sess.life.ended
    ensures Reached(st, last, s, t, end)
  {
    assert st.sessions[s := mid.sess][s := end.sess] == st.sessions[s := end.sess];
    assert st.threads[t := NextPc(s, mid)][t := NextPc(s, end)] == st.threads[t := NextPc(s, end)];
  }

  lemma NotActive(st: State, s: nat)
    requires CallLife.Inv(st) && s in st.sessions
    ensures st.sessions[s].life.ended ==> st.active != Some(s)
  {
    assert CallLife.SessionOk(st, s);
  }
}
