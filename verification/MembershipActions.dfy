/**
 Membership changes made in a Matrix room, turned into group changes, and what those group changes
 do to the room when they come back from Signal.
 */
module MembershipActions {
  import opened Options
  import opened GroupModel
  import opened GroupSync
  import opened GroupAgreement
  import opened GroupReplay

  datatype Action =
    | AcceptInvite | RevokeInvite | RejectInvite
    | LeaveRoom | Kick
    | InviteUser
    | AcceptKnock | RetractKnock | RejectKnock
    | BanKnocked | BanInvited | BanJoined | BanLeft
    | Unban
    | OtherAction

  /** The membership the action starts from. */
  function From(a: Action): Membership {
    match a
    case AcceptInvite | RevokeInvite | RejectInvite | BanInvited => Invite
    case LeaveRoom | Kick | BanJoined => Join
    case AcceptKnock | RetractKnock | RejectKnock | BanKnocked => Knock
    case Unban => Ban
    case InviteUser | BanLeft | OtherAction => Leave
  }

  /** The membership the target ends up with. Signal has no invites for accounts that can be added
      directly, and an accepted knock needs no further step, so both of these join. */
  function Outcome(a: Action, target: ServiceID): Membership {
    match a
    case AcceptInvite | AcceptKnock => Join
    case InviteUser => if target.ACI? then Join else Invite
    case BanKnocked | BanInvited | BanJoined | BanLeft => Ban
    case RevokeInvite | RejectInvite | LeaveRoom | Kick | RetractKnock | RejectKnock | Unban | OtherAction => Leave
  }

  /** Phone numbers can only be invited, uninvited, banned and unbanned. */
  predicate Supported(a: Action, target: ServiceID) {
    match a
    case OtherAction => false
    case AcceptInvite | LeaveRoom | Kick | AcceptKnock | RetractKnock | RejectKnock | BanJoined | BanKnocked =>
        target.ACI?
    case RevokeInvite | RejectInvite | InviteUser | BanInvited | BanLeft | Unban => true
  }

  method BuildGroupChange(a: Action, target: ServiceID, role: Role, revision: nat) returns (r: Option<GroupChange>)
    ensures r == if Supported(a, target) then Some(ChangeFor(a, target, role, revision)) else None
  {
    var gc := EmptyChange(revision);
    match a {
      case AcceptInvite =>
        if target.PNI? { return None; }
        gc := gc.(promotePending := [target.id]);
      case RevokeInvite | RejectInvite =>
        gc := gc.(deletePending := [target]);
      case LeaveRoom | Kick =>
        if target.PNI? { return None; }
        gc := gc.(deleteMembers := [target.id]);
      case InviteUser =>
        if target.ACI? {
          gc := gc.(addMembers := [Member(target.id, role)]);
        } else {
          gc := gc.(addPending := [PendingMember(target, role)]);
        }
      case AcceptKnock =>
        if target.PNI? { return None; }
        gc := gc.(promoteRequesting := [Member(target.id, role)]);
      case RetractKnock | RejectKnock =>
        if target.PNI? { return None; }
        gc := gc.(deleteRequesting := [target.id]);
      case BanKnocked | BanInvited | BanJoined | BanLeft =>
        gc := gc.(addBanned := [target]);
        if a == BanJoined {
          if target.PNI? { return None; }
          gc := gc.(deleteMembers := [target.id]);
        } else if a == BanInvited {
          gc := gc.(deletePending := [target]);
        } else if a == BanKnocked {
          if target.PNI? { return None; }
          gc := gc.(deleteRequesting := [target.id]);
        }
      case Unban =>
        gc := gc.(deleteBanned := [target]);
      case OtherAction =>
        return None;
    }
    return Some(gc);
  }

  function ChangeFor(a: Action, target: ServiceID, role: Role, revision: nat): GroupChange {
    var gc := EmptyChange(revision);
    match a
    case AcceptInvite => gc.(promotePending := [target.id])
    case RevokeInvite | RejectInvite => gc.(deletePending := [target])
    case LeaveRoom | Kick => gc.(deleteMembers := [target.id])
    case InviteUser =>
      if target.ACI? then gc.(addMembers := [Member(target.id, role)])
      else gc.(addPending := [PendingMember(target, role)])
    case AcceptKnock => gc.(promoteRequesting := [Member(target.id, role)])
    case RetractKnock | RejectKnock => gc.(deleteRequesting := [target.id])
    case BanJoined => gc.(addBanned := [target], deleteMembers := [target.id])
    case BanInvited => gc.(addBanned := [target], deletePending := [target])
    case BanKnocked => gc.(addBanned := [target], deleteRequesting := [target.id])
    case BanLeft => gc.(addBanned := [target])
    case Unban => gc.(deleteBanned := [target])
    case OtherAction => gc
  }

  /******* The lists of a built change *******/

  lemma Singletons(target: ServiceID, role: Role)
    ensures Acis([]) == Sids([]) == MemberIds([]) == PendingIds([]) == PromotedAcis([]) == PromotedPnis([]) == {}
    ensures Acis([target.id]) == MemberIds([Member(target.id, role)]) == {ACI(target.id)}
    ensures Sids([target]) == PendingIds([PendingMember(target, role)]) == {target}
    ensures ShownAll(map[], {}) == {} && ShownAll(map[], {target}) == {target}
  {
    assert Member(target.id, role) in [Member(target.id, role)];
    assert PendingMember(target, role) in [PendingMember(target, role)];
    assert target.id in [target.id] && target in [target];
    NoAliases({});
    NoAliases({target});
  }

  function IfIn(b: bool, target: ServiceID): set<ServiceID> { if b then {target} else {} }

  /** A built change names nobody but the target. */
  lemma BuiltSets(a: Action, target: ServiceID, role: Role, revision: nat)
    requires Supported(a, target)
    ensures ChangeSetsOf(map[], ChangeFor(a, target, role, revision)) == ChangeSets(
      IfIn(a == InviteUser && target.ACI?, target),
      IfIn(a in {LeaveRoom, Kick, BanJoined}, target),
      {},
      IfIn(a == InviteUser && target.PNI?, target),
      IfIn(a in {RevokeInvite, RejectInvite, BanInvited}, target),
      IfIn(a == AcceptInvite, target),
      {},
      {},
      {},
      IfIn(a in {RetractKnock, RejectKnock, BanKnocked}, target),
      IfIn(a == AcceptKnock, target),
      IfIn(a in {BanKnocked, BanInvited, BanJoined, BanLeft}, target),
      IfIn(a == Unban, target))
  {
    Singletons(target, role);
  }

  /******* The way back *******/

  /** The built change, mapped back to member changes, gives the target the action's outcome. The guard,
      if there is one, is the membership the action started from. Nobody else is touched. */
  lemma BuiltChangeMapsBack(a: Action, target: ServiceID, role: Role, revision: nat, u: ServiceID)
    requires Supported(a, target)
    ensures var e := EffectAt(ChangeMap(map[], ChangeFor(a, target, role, revision)), u);
            if u == target
            then e.Some? && e.value.next == Outcome(a, target) && (e.value.prev.Some? ==> e.value.prev.value == From(a))
            else e == None
  {
    hide ChangeMap;
    hide ChangeFor;
    hide ChangeSetsOf;
    hide NoShadowedAccount;
    var c := ChangeFor(a, target, role, revision);
    BuiltSets(a, target, role, revision);
    NothingShadowed(c);
    UnshadowedEffects(map[], c, u);
  }

  lemma NothingShadowed(c: GroupChange)
    ensures NoShadowedAccount(map[], c)
  {
    hide ChangeSetsOf;
  }

  /** Taken from the membership it starts from, every supported action makes a change that fits the
      group, that the room can replay, and that moves only the target, to the action's outcome. */
  lemma ActionRoundTrip(a: Action, target: ServiceID, role: Role, g: Group)
    requires Supported(a, target) && WellFormed(SetsOf(map[], g))
    requires View(SetsOf(map[], g), target) == From(a)
    ensures var c := ChangeFor(a, target, role, g.revision + 1);
            && Replayable(map[], g, c) && NobodyOverwritten(map[], c)
            && forall u :: View(SetsOf(map[], NextGroup(g, c)), u)
                        == if u == target then Outcome(a, target) else View(SetsOf(map[], g), u)
  {
    var c := ChangeFor(a, target, role, g.revision + 1);
    var s, d := SetsOf(map[], g), ChangeSetsOf(map[], c);
    BuiltSets(a, target, role, g.revision + 1);
    forall u
      ensures FitsUser(s, d, u) && InOneList(ApplySets(s, d), u) && !Overwritten(d, u)
      ensures View(ApplySets(s, d), u) == if u == target then Outcome(a, target) else View(s, u)
    {
      assert InOneList(s, u);
    }
    PlainReplayable(g, c);
    NextGroupSets(map[], g, c);
  }

  /** After the action the portal takes over the revision of the changed group, whatever its own was.
      Its room, which showed the group at the portal's old revision, then shows the changed group
      exactly if the changes in between, which are now skipped, left everybody else as they were. */
  lemma ActionAdoptsRevision(a: Action, target: ServiceID, role: Role, known: Group, current: Group, room: Room)
    requires Supported(a, target) && WellFormed(SetsOf(map[], known)) && WellFormed(SetsOf(map[], current))
    requires View(SetsOf(map[], current), target) == From(a)
    requires Shows(map[], room, known)
    ensures Shows(map[], room[target := Outcome(a, target)],
            NextGroup(current, ChangeFor(a, target, role, current.revision + 1)))
       <==> forall u :: u != target ==> View(SetsOf(map[], known), u) == View(SetsOf(map[], current), u)
  {
    hide ChangeFor;
    hide NextGroup;
    hide Replayable;
    hide SetsOf;
    hide FullMap;
    var next := NextGroup(current, ChangeFor(a, target, role, current.revision + 1));
    var after := room[target := Outcome(a, target)];
    ActionRoundTrip(a, target, role, current);
    assert WellFormed(SetsOf(map[], next)) by {
      ReplayableIsWellFormed(current, ChangeFor(a, target, role, current.revision + 1));
    }
    forall u
      ensures At(FullRoom(map[], known), u) == View(SetsOf(map[], known), u)
      ensures At(FullRoom(map[], next), u) == View(SetsOf(map[], next), u)
      ensures At(after, u) == if u == target then Outcome(a, target) else At(room, u)
    {
      FullMapView(map[], known, u);
      FullMapView(map[], next, u);
    }
    assert forall u :: At(room, u) == At(FullRoom(map[], known), u);
    if forall u :: u != target ==> View(SetsOf(map[], known), u) == View(SetsOf(map[], current), u) {
      assert SameRoom(after, FullRoom(map[], next));
    } else {
      var u :| u != target && View(SetsOf(map[], known), u) != View(SetsOf(map[], current), u);
      assert At(after, u) != At(FullRoom(map[], next), u);
    }
  }

  /** The portal knows the empty group, but somebody has joined since. Banning a third person takes over the new
      revision, and the one who joined is never shown. */
  lemma SkippedJoinIsNeverShown(role: Role)
    ensures var known, current := Group(1, [], [], [], []), Group(2, [Member(2, role)], [], [], []);
            && Shows(map[], map[], known)
            && !Shows(map[], map[ACI(3) := Ban], NextGroup(current, ChangeFor(BanLeft, ACI(3), role, 3)))
  {
    hide ChangeFor;
    hide NextGroup;
    hide FullRoom;
    hide Shows;
    var known, current := Group(1, [], [], [], []), Group(2, [Member(2, role)], [], [], []);
    Singletons(ACI(2), role);
    var none := SetsOf(map[], known);
    assert none == GroupSets({}, {}, {}, {});
    assert SetsOf(map[], current) == GroupSets({ACI(2)}, {}, {}, {});
    EmptyRoomShows(known);
    ActionAdoptsRevision(BanLeft, ACI(3), role, known, current, map[]);
    assert View(SetsOf(map[], known), ACI(2)) != View(SetsOf(map[], current), ACI(2));
  }

  lemma EmptyRoomShows(g: Group)
    requires SetsOf(map[], g) == GroupSets({}, {}, {}, {})
    ensures Shows(map[], map[], g)
  {
    hide SetsOf;
    hide FullMap;
    forall u
      ensures At(FullRoom(map[], g), u) == Leave
    {
      FullMapView(map[], g, u);
    }
  }

  lemma ReplayableIsWellFormed(g: Group, c: GroupChange)
    requires Replayable(map[], g, c)
    ensures WellFormed(SetsOf(map[], NextGroup(g, c)))
  {
  }
}
