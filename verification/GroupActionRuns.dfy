/**
 Runs of a portal that mix events from Signal with membership changes made in the room.
 */
module GroupActionRuns {
  import opened Options
  import opened GroupModel
  import opened GroupSync
  import opened GroupAgreement
  import opened GroupReplay
  import opened GroupCatchUp
  import GroupRuns
  import opened MembershipActions

  /** Something that happens to a portal. An action is made to the group at the revision the server is at. */
  datatype Event =
    | Received(evt: GroupEvent, ans: Answers)
    | Acted(action: Action, target: ServiceID, role: Role, current: nat)

  function Step(st: PortalState, event: Event): PortalState {
    match event
    case Received(evt, ans) => HandleEvent(map[], st, evt, ans)
    case Acted(action, target, _, current) =>
      PortalState(current + 1, st.room[target := Outcome(action, target)], st.processed)
  }

  /** Events are trusted, and an action is the next change of the history, made to somebody who is where it starts. */
  ghost predicate Regular(g0: Group, h: seq<GroupChange>, st: PortalState, event: Event) {
    match event
    case Received(evt, ans) => GroupRuns.Trusted(g0, h, st, evt, ans)
    case Acted(action, target, role, current) =>
      && st.revision <= current < |h| && Supported(action, target)
      && h[current] == ChangeFor(action, target, role, current + 1)
      && View(SetsOf(map[], GroupRuns.GroupAt(g0, h, current)), target) == From(action)
  }

  /** The changes that an action makes the portal skip have left everybody but its target as they were. */
  ghost predicate Harmless(g0: Group, h: seq<GroupChange>, st: PortalState, event: Event)
    requires Regular(g0, h, st, event)
  {
    event.Acted? ==>
      forall u :: u != event.target ==>
        View(SetsOf(map[], GroupRuns.GroupAt(g0, h, st.revision)), u)
        == View(SetsOf(map[], GroupRuns.GroupAt(g0, h, event.current)), u)
  }

  lemma GroupIsWellFormed(g0: Group, h: seq<GroupChange>, k: nat)
    requires GroupRuns.Truth(map[], g0, h) && k < |h|
    ensures WellFormed(SetsOf(map[], GroupRuns.GroupAt(g0, h, k)))
  {
    hide NextGroup;
    hide ChangeMap;
    assert Sound(map[], GroupAfter(g0, h[..k]), h[k]);
  }

  /** One event keeps the portal synced exactly if it is harmless. */
  lemma StepExactly(g0: Group, h: seq<GroupChange>, st: PortalState, event: Event)
    requires GroupRuns.Truth(map[], g0, h) && GroupRuns.Synced(map[], g0, h, st) && Regular(g0, h, st, event)
    ensures GroupRuns.Synced(map[], g0, h, Step(st, event)) <==> Harmless(g0, h, st, event)
  {
    hide GroupRuns.Truth;
    hide SetsOf;
    hide Shows;
    hide HandleEvent;
    hide NextGroup;
    hide GroupAfter;
    match event
    case Received(evt, ans) => GroupRuns.EventKeepsSync(map[], g0, h, st, evt, ans);
    case Acted(action, target, role, current) =>
      GroupIsWellFormed(g0, h, st.revision);
      GroupIsWellFormed(g0, h, current);
      GroupRuns.GroupStep(g0, h, current);
      GroupRuns.GroupRevision(map[], g0, h, current);
      ActionAdoptsRevision(action, target, role, GroupRuns.GroupAt(g0, h, st.revision),
        GroupRuns.GroupAt(g0, h, current), st.room);
  }

  function Run(st: PortalState, run: seq<Event>): PortalState {
    if run == [] then st else Step(Run(st, run[..|run| - 1]), run[|run| - 1])
  }

  ghost predicate RegularAt(g0: Group, h: seq<GroupChange>, st: PortalState, run: seq<Event>, i: nat)
    requires i < |run|
  {
    Regular(g0, h, Run(st, run[..i]), run[i])
  }

  ghost predicate HarmlessAt(g0: Group, h: seq<GroupChange>, st: PortalState, run: seq<Event>, i: nat)
    requires i < |run| && RegularAt(g0, h, st, run, i)
  {
    Harmless(g0, h, Run(st, run[..i]), run[i])
  }

  ghost predicate SyncedAt(g0: Group, h: seq<GroupChange>, st: PortalState, run: seq<Event>, k: nat)
    requires k <= |run|
  {
    GroupRuns.Synced(map[], g0, h, Run(st, run[..k]))
  }

  lemma SyncedNext(g0: Group, h: seq<GroupChange>, st: PortalState, run: seq<Event>, k: nat)
    requires GroupRuns.Truth(map[], g0, h) && k < |run| && RegularAt(g0, h, st, run, k) && SyncedAt(g0, h, st, run, k)
    ensures SyncedAt(g0, h, st, run, k + 1) <==> HarmlessAt(g0, h, st, run, k)
  {
    hide GroupRuns.Truth;
    hide GroupRuns.Synced;
    hide Step;
    hide Harmless;
    hide Regular;
    assert run[..k + 1][..k] == run[..k];
    StepExactly(g0, h, Run(st, run[..k]), run[k]);
  }

  lemma {:induction false} SyncedUpTo(g0: Group, h: seq<GroupChange>, st: PortalState, run: seq<Event>, k: nat)
    requires GroupRuns.Truth(map[], g0, h) && GroupRuns.Synced(map[], g0, h, st) && k <= |run|
    requires forall i :: 0 <= i < |run| ==> RegularAt(g0, h, st, run, i)
    requires forall i :: 0 <= i < |run| ==> HarmlessAt(g0, h, st, run, i)
    ensures SyncedAt(g0, h, st, run, k)
  {
    hide GroupRuns.Truth;
    hide GroupRuns.Synced;
    hide RegularAt;
    hide HarmlessAt;
    hide Step;
    if k > 0 {
      hide SyncedAt;
      SyncedUpTo(g0, h, st, run, k - 1);
      SyncedNext(g0, h, st, run, k - 1);
    }
  }

  /** Over any such run, the room shows the group at the portal's revision at every point exactly if no action made
      the portal skip a change to anybody else. */
  lemma SyncedThroughoutExactly(g0: Group, h: seq<GroupChange>, st: PortalState, run: seq<Event>)
    requires GroupRuns.Truth(map[], g0, h) && GroupRuns.Synced(map[], g0, h, st)
    requires forall i :: 0 <= i < |run| ==> RegularAt(g0, h, st, run, i)
    ensures (forall k :: 0 <= k <= |run| ==> SyncedAt(g0, h, st, run, k))
            <==> forall i :: 0 <= i < |run| ==> HarmlessAt(g0, h, st, run, i)
  {
    hide GroupRuns.Truth;
    hide RegularAt;
    hide HarmlessAt;
    hide SyncedAt;
    if forall i :: 0 <= i < |run| ==> HarmlessAt(g0, h, st, run, i) {
      forall k | 0 <= k <= |run|
        ensures SyncedAt(g0, h, st, run, k)
      {
        SyncedUpTo(g0, h, st, run, k);
      }
    } else {
      var i :| 0 <= i < |run| && !HarmlessAt(g0, h, st, run, i);
      if SyncedAt(g0, h, st, run, i) {
        SyncedNext(g0, h, st, run, i);
        assert !SyncedAt(g0, h, st, run, i + 1);
      }
    }
  }
}
