/**
 Replaying group changes against full syncs of the groups they lead to, for the member maps the
 bridge actually builds and for whole histories.
 */
module GroupReplay {
  import opened Options
  import opened GroupModel
  import opened GroupSync
  import opened GroupAgreement

  /******* Which users a list names *******/

  lemma AciRowUsers(alias: Aliases, acis: seq<nat>, m: ChatMember)
    ensures Users(alias, AciRows(acis, m)) == Acis(acis)
  {
    var rows := AciRows(acis, m);
    forall a | a in acis
      ensures ACI(a) in Users(alias, rows)
    {
      var i :| 0 <= i < |acis| && acis[i] == a;
      assert rows[i] in rows && ACI(a) in RowUsers(alias, rows[i]);
    }
  }

  lemma SidRowUsers(alias: Aliases, sids: seq<ServiceID>, m: ChatMember)
    ensures Users(alias, SidRows(sids, m)) == ShownAll(alias, Sids(sids))
  {
    var rows := SidRows(sids, m);
    forall s, u | s in sids && u in Shown(alias, s)
      ensures u in Users(alias, rows)
    {
      var i :| 0 <= i < |sids| && sids[i] == s;
      assert rows[i] in rows && u in RowUsers(alias, rows[i]);
    }
    forall u | u in Users(alias, rows)
      ensures u in ShownAll(alias, Sids(sids))
    {
      var r :| r in rows && u in RowUsers(alias, r);
      assert r.user in Sids(sids) && u in Shown(alias, r.user);
    }
  }

  lemma PendingRowUsers(alias: Aliases, ps: seq<PendingMember>, prev: Option<Membership>)
    ensures Users(alias, PendingRows(ps, prev)) == ShownAll(alias, PendingIds(ps))
  {
    var rows := PendingRows(ps, prev);
    forall s, u | s in PendingIds(ps) && u in Shown(alias, s)
      ensures u in Users(alias, rows)
    {
      var p :| p in ps && p.sid == s;
      var i :| 0 <= i < |ps| && ps[i] == p;
      assert rows[i] in rows && u in RowUsers(alias, rows[i]);
    }
    forall u | u in Users(alias, rows)
      ensures u in ShownAll(alias, PendingIds(ps))
    {
      var r :| r in rows && u in RowUsers(alias, r);
      var i :| 0 <= i < |rows| && rows[i] == r;
      assert ps[i].sid in PendingIds(ps) && u in Shown(alias, ps[i].sid);
    }
  }

  lemma MemberRowUsers(alias: Aliases, ms: seq<Member>)
    ensures Users(alias, MemberRows(ms)) == MemberIds(ms)
    ensures Users(alias, AdmitRows(ms)) == MemberIds(ms)
  {
    var rows, admits := MemberRows(ms), AdmitRows(ms);
    forall m | m in ms
      ensures ACI(m.aci) in Users(alias, rows) && ACI(m.aci) in Users(alias, admits)
    {
      var i :| 0 <= i < |ms| && ms[i] == m;
      assert rows[i] in rows && ACI(m.aci) in RowUsers(alias, rows[i]);
      assert admits[i] in admits && ACI(m.aci) in RowUsers(alias, admits[i]);
    }
    forall u | u in Users(alias, rows)
      ensures u in MemberIds(ms)
    {
      var r :| r in rows && u in RowUsers(alias, r);
      var i :| 0 <= i < |rows| && rows[i] == r;
      assert ms[i] in ms;
    }
    forall u | u in Users(alias, admits)
      ensures u in MemberIds(ms)
    {
      var r :| r in admits && u in RowUsers(alias, r);
      var i :| 0 <= i < |admits| && admits[i] == r;
      assert ms[i] in ms;
    }
  }

  lemma {:induction false} PniAciRowUsers(alias: Aliases, ps: seq<PniAciMember>)
    ensures Users(alias, PniAciRows(ps)) == PromotedAcis(ps) + PromotedPnis(ps)
    ensures Uniform(PniAciRows(ps), Effect(None, Join), Effect(Some(Invite), Leave))
  {
    if ps != [] {
      hide Users;
      hide PromotedAcis;
      hide PromotedPnis;
      PniAciRowUsers(alias, ps[1..]);
      var joins := Row(ACI(ps[0].aci), ChatMember(Join, None, None), false);
      var leaves := Row(PNI(ps[0].pni), ChatMember(Leave, Some(Invite), None), false);
      assert PniAciRows(ps) == [joins, leaves] + PniAciRows(ps[1..]);
      UsersConcat(alias, [joins, leaves], PniAciRows(ps[1..]));
      PairUsers(alias, joins, leaves);
      PromotedFirst(ps);
    } else {
      assert Users(alias, []) == PromotedAcis([]) + PromotedPnis([]);
    }
  }

  lemma PairUsers(alias: Aliases, a: Row, b: Row)
    requires !a.resolve && !b.resolve
    ensures Users(alias, [a, b]) == {a.user, b.user}
  {
    assert a in [a, b] && a.user in RowUsers(alias, a);
    assert b in [a, b] && b.user in RowUsers(alias, b);
  }

  lemma PromotedFirst(ps: seq<PniAciMember>)
    requires ps != []
    ensures PromotedAcis(ps) == {ACI(ps[0].aci)} + PromotedAcis(ps[1..])
    ensures PromotedPnis(ps) == {PNI(ps[0].pni)} + PromotedPnis(ps[1..])
  {
    assert ps == [ps[0]] + ps[1..];
  }

  lemma UsersConcat(alias: Aliases, a: seq<Row>, b: seq<Row>)
    ensures Users(alias, a + b) == Users(alias, a) + Users(alias, b)
  {
    assert forall r :: r in a + b <==> r in a || r in b;
  }

  /******* The maps, user by user *******/

  /** The accounts behind the phone numbers of a list. */
  function Accounts(alias: Aliases, sids: set<ServiceID>): set<ServiceID> {
    set p | p in alias && PNI(p) in sids :: ACI(alias[p])
  }

  /** The account behind a phone number that is removed or banned isn't already named by an earlier list. */
  ghost predicate NoShadowedAccount(alias: Aliases, c: GroupChange) {
    var s := ChangeSetsOf(alias, c);
    && Accounts(alias, Sids(c.deletePending)) !! s.addPending + s.addRequesting
    && Accounts(alias, Sids(c.deleteBanned)) !!
       s.addPending + s.addRequesting + s.deletePending + s.deleteRequesting + s.deleteMembers
    && Accounts(alias, Sids(c.addBanned)) !!
       s.addPending + s.addRequesting + s.deletePending + s.deleteRequesting + s.deleteMembers + s.deleteBanned
  }

  /** A list's users and the accounts behind its phone numbers, other than accounts with an earlier entry. */
  function Unshadowed(alias: Aliases, sids: set<ServiceID>, earlier: set<ServiceID>): set<ServiceID> {
    sids + (ShownAll(alias, sids) - earlier)
  }

  /** The users each list really writes to: an account with an entry keeps it when a later list has its phone
      number. */
  function LayeredSets(alias: Aliases, c: GroupChange): ChangeSets {
    var s := ChangeSetsOf(alias, c);
    var deletePending := Unshadowed(alias, Sids(c.deletePending), s.addPending + s.addRequesting);
    var removed := s.addPending + s.addRequesting + deletePending + s.deleteRequesting + s.deleteMembers;
    var deleteBanned := Unshadowed(alias, Sids(c.deleteBanned), removed);
    s.(deletePending := deletePending, deleteBanned := deleteBanned,
       addBanned := Unshadowed(alias, Sids(c.addBanned), removed + deleteBanned))
  }

  lemma RemovalEffects(alias: Aliases, c: GroupChange, u: ServiceID)
    ensures var s := LayeredSets(alias, c);
            EffectAt(RemovalMap(alias, c), u) ==
              if u in s.deleteBanned then Some(Effect(Some(Ban), Leave))
              else if u in s.deleteMembers then Some(Effect(Some(Join), Leave))
              else if u in s.deleteRequesting then Some(Effect(Some(Knock), Leave))
              else if u in s.deletePending then Some(Effect(Some(Invite), Leave))
              else if u in s.addRequesting then Some(Effect(None, Knock))
              else if u in s.addPending then Some(Effect(Some(Leave), Invite))
              else None
  {
    hide PutRows;
    hide ShownAll;
    SelfShown(alias, PendingIds(c.addPending));
    var m1 := PendingLayer(alias, map[], c.addPending, Some(Leave));
    var m2 := AciLayer(alias, m1, c.addRequesting, ChatMember(Knock, None, None));
    var m3 := SidLayer(alias, m2, c.deletePending, ChatMember(Leave, Some(Invite), None));
    var m4 := AciLayer(alias, m3, c.deleteRequesting, ChatMember(Leave, Some(Knock), None));
    var m5 := AciLayer(alias, m4, c.deleteMembers, ChatMember(Leave, Some(Join), None));
    var m6 := SidLayer(alias, m5, c.deleteBanned, ChatMember(Leave, Some(Ban), None));
  }

  lemma SelfShown(alias: Aliases, sids: set<ServiceID>)
    ensures sids <= ShownAll(alias, sids)
  {
    forall u | u in sids
      ensures u in ShownAll(alias, sids)
    {
      assert u in Shown(alias, u);
    }
  }

  /** Lists of accounts have nothing to resolve. */
  lemma NothingResolved(alias: Aliases, rows: seq<Row>)
    requires forall r :: r in rows ==> !r.resolve
    ensures Users(alias, rows) == Direct(rows)
  {
    forall r | r in rows
      ensures r.user in Users(alias, rows)
    {
      assert r.user in RowUsers(alias, r);
    }
  }

  lemma AciLayer(alias: Aliases, mc: MemberMap, acis: seq<nat>, m: ChatMember) returns (r: MemberMap)
    ensures r == PutRows(alias, mc, AciRows(acis, m))
    ensures forall u ::
            EffectAt(r, u) == if u in Acis(acis) then Some(Effect(m.prev, m.membership)) else EffectAt(mc, u)
  {
    r := PutRows(alias, mc, AciRows(acis, m));
    AciRowUsers(alias, acis, m);
    NothingResolved(alias, AciRows(acis, m));
    Layer(alias, mc, AciRows(acis, m), Effect(m.prev, m.membership), Effect(m.prev, m.membership));
  }

  lemma SidLayer(alias: Aliases, mc: MemberMap, sids: seq<ServiceID>, m: ChatMember) returns (r: MemberMap)
    ensures r == PutRows(alias, mc, SidRows(sids, m))
    ensures forall u :: EffectAt(r, u) ==
              if u in Sids(sids) || (u in ShownAll(alias, Sids(sids)) && EffectAt(mc, u).None?)
              then Some(Effect(m.prev, m.membership)) else EffectAt(mc, u)
  {
    r := PutRows(alias, mc, SidRows(sids, m));
    SidRowUsers(alias, sids, m);
    Layer(alias, mc, SidRows(sids, m), Effect(m.prev, m.membership), Effect(m.prev, m.membership));
    assert Direct(SidRows(sids, m)) == Sids(sids) by {
      forall i | 0 <= i < |sids|
        ensures sids[i] in Direct(SidRows(sids, m))
      {
        assert SidRows(sids, m)[i] in SidRows(sids, m);
      }
    }
  }

  lemma MemberLayer(alias: Aliases, mc: MemberMap, ms: seq<Member>) returns (r: MemberMap)
    ensures r == PutRows(alias, mc, MemberRows(ms))
    ensures forall u :: EffectAt(r, u) == if u in MemberIds(ms) then Some(Effect(None, Join)) else EffectAt(mc, u)
  {
    r := PutRows(alias, mc, MemberRows(ms));
    MemberRowUsers(alias, ms);
    NothingResolved(alias, MemberRows(ms));
    Layer(alias, mc, MemberRows(ms), Effect(None, Join), Effect(None, Join));
  }

  lemma PendingLayer(alias: Aliases, mc: MemberMap, ps: seq<PendingMember>, prev: Option<Membership>)
      returns (r: MemberMap)
    ensures r == PutRows(alias, mc, PendingRows(ps, prev))
    ensures forall u :: EffectAt(r, u) ==
              if u in PendingIds(ps) || (u in ShownAll(alias, PendingIds(ps)) && EffectAt(mc, u).None?)
              then Some(Effect(prev, Invite)) else EffectAt(mc, u)
  {
    r := PutRows(alias, mc, PendingRows(ps, prev));
    PendingRowUsers(alias, ps, prev);
    Layer(alias, mc, PendingRows(ps, prev), Effect(prev, Invite), Effect(prev, Invite));
    assert Direct(PendingRows(ps, prev)) == PendingIds(ps) by {
      forall i | 0 <= i < |ps|
        ensures ps[i].sid in Direct(PendingRows(ps, prev))
      {
        assert PendingRows(ps, prev)[i] in PendingRows(ps, prev);
      }
    }
  }

  lemma AdmitLayer(alias: Aliases, mc: MemberMap, ms: seq<Member>) returns (r: MemberMap)
    ensures r == PutRows(alias, mc, AdmitRows(ms))
    ensures forall u ::
            EffectAt(r, u) == if u in MemberIds(ms) then Some(Effect(Some(Knock), Join)) else EffectAt(mc, u)
  {
    r := PutRows(alias, mc, AdmitRows(ms));
    MemberRowUsers(alias, ms);
    NothingResolved(alias, AdmitRows(ms));
    Layer(alias, mc, AdmitRows(ms), Effect(Some(Knock), Join), Effect(Some(Knock), Join));
  }

  lemma PniAciLayer(alias: Aliases, mc: MemberMap, ps: seq<PniAciMember>) returns (r: MemberMap)
    ensures r == PutRows(alias, mc, PniAciRows(ps))
    ensures forall u :: EffectAt(r, u) ==
              if u in PromotedAcis(ps) then Some(Effect(None, Join))
              else if u in PromotedPnis(ps) then Some(Effect(Some(Invite), Leave))
              else EffectAt(mc, u)
  {
    r := PutRows(alias, mc, PniAciRows(ps));
    PniAciRowUsers(alias, ps);
    PairsUnresolved(ps);
    NothingResolved(alias, PniAciRows(ps));
    Layer(alias, mc, PniAciRows(ps), Effect(None, Join), Effect(Some(Invite), Leave));
  }

  lemma {:induction false} PairsUnresolved(ps: seq<PniAciMember>)
    ensures forall r :: r in PniAciRows(ps) ==> !r.resolve
  {
    if ps != [] {
      PairsUnresolved(ps[1..]);
    }
  }

  lemma AdditionEffects(alias: Aliases, mc: MemberMap, c: GroupChange, u: ServiceID)
    ensures EffectAt(AdditionMap(alias, mc, c), u) ==
              if u in MemberIds(c.modifyMemberRoles) then Some(Effect(None, Join))
              else if u in MemberIds(c.addMembers) then Some(Effect(None, Join))
              else if u in MemberIds(c.promoteRequesting) then Some(Effect(Some(Knock), Join))
              else if u in PromotedAcis(c.promotePniAci) then Some(Effect(None, Join))
              else if u in PromotedPnis(c.promotePniAci) then Some(Effect(Some(Invite), Leave))
              else if u in Acis(c.promotePending) then Some(Effect(Some(Invite), Join))
              else EffectAt(mc, u)
  {
    var m8 := AciLayer(alias, mc, c.promotePending, ChatMember(Join, Some(Invite), None));
    var m9 := PniAciLayer(alias, m8, c.promotePniAci);
    var m10 := AdmitLayer(alias, m9, c.promoteRequesting);
    var m11 := MemberLayer(alias, m10, c.addMembers);
    var m12 := MemberLayer(alias, m11, c.modifyMemberRoles);
  }

  /** What the built member map does to each user, for any change whatsoever: the last list that writes to them
      decides. */
  lemma ChangeMapEffects(alias: Aliases, c: GroupChange, u: ServiceID)
    ensures EffectAt(ChangeMap(alias, c), u) == ChangeEffect(LayeredSets(alias, c), u)
  {
    hide PutRows;
    RemovalEffects(alias, c, u);
    var m7 := SidLayer(alias, RemovalMap(alias, c), c.addBanned, ChatMember(Ban, None, None));
    assert ChangeMap(alias, c) == AdditionMap(alias, m7, c);
    AdditionEffects(alias, m7, c, u);
  }

  /** If no account is shadowed, that is the last list that names them. */
  lemma UnshadowedEffects(alias: Aliases, c: GroupChange, u: ServiceID)
    requires NoShadowedAccount(alias, c)
    ensures EffectAt(ChangeMap(alias, c), u) == ChangeEffect(ChangeSetsOf(alias, c), u)
  {
    hide ChangeMap;
    var s := ChangeSetsOf(alias, c);
    NoneShadowed(alias, Sids(c.deletePending), s.addPending + s.addRequesting);
    var removed := s.addPending + s.addRequesting + s.deletePending + s.deleteRequesting + s.deleteMembers;
    NoneShadowed(alias, Sids(c.deleteBanned), removed);
    NoneShadowed(alias, Sids(c.addBanned), removed + s.deleteBanned);
    assert LayeredSets(alias, c) == s;
    ChangeMapEffects(alias, c, u);
  }

  lemma NoneShadowed(alias: Aliases, sids: set<ServiceID>, earlier: set<ServiceID>)
    requires Accounts(alias, sids) !! earlier
    ensures Unshadowed(alias, sids, earlier) == ShownAll(alias, sids)
  {
    SelfShown(alias, sids);
    forall u | u in ShownAll(alias, sids)
      ensures u in sids || u in Accounts(alias, sids)
    {
      var v :| v in sids && u in Shown(alias, v);
    }
  }

  /** What a full sync makes of each user. */
  lemma FullMapView(alias: Aliases, g: Group, u: ServiceID)
    requires WellFormed(SetsOf(alias, g))
    ensures At(SyncFull(FullMap(alias, g)), u) == View(SetsOf(alias, g), u)
  {
    var s := SetsOf(alias, g);
    SelfShown(alias, PendingIds(g.pending));
    SelfShown(alias, Sids(g.banned));
    var m1 := AciLayer(alias, map[], g.requesting, ChatMember(Knock, None, None));
    forall v | v in s.pending
      ensures EffectAt(m1, v).None?
    {
      assert InOneList(s, v);
    }
    var m2 := PendingLayer(alias, m1, g.pending, None);
    var m3 := MemberLayer(alias, m2, g.members);
    forall v | v in s.banned
      ensures EffectAt(m3, v).None?
    {
      assert InOneList(s, v);
    }
    var m4 := SidLayer(alias, m3, g.banned, ChatMember(Ban, None, None));
    assert EffectAt(m4, u) == if View(s, u) == Leave then None else Some(Effect(None, View(s, u)));
  }

  /******* One change *******/

  /** A change that fits the group it is applied to, with nobody handled twice through a phone number. */
  ghost predicate Replayable(alias: Aliases, g: Group, c: GroupChange) {
    && ConsistentAliases(alias, c) && SeparateAliases(alias, g, c) && NoShadowedAccount(alias, c)
    && WellFormed(SetsOf(alias, g)) && WellFormed(SetsOf(alias, NextGroup(g, c)))
    && Fits(SetsOf(alias, g), ChangeSetsOf(alias, c))
  }

  ghost predicate NobodyOverwritten(alias: Aliases, c: GroupChange) {
    forall u :: !Overwritten(ChangeSetsOf(alias, c), u)
  }

  /** The room of a full sync of the group. */
  function FullRoom(alias: Aliases, g: Group): Room {
    SyncFull(FullMap(alias, g))
  }

  lemma ReplayUser(alias: Aliases, g: Group, c: GroupChange, room: Room, u: ServiceID)
    requires Replayable(alias, g, c) && At(room, u) == At(FullRoom(alias, g), u)
    ensures At(SyncChanges(room, ChangeMap(alias, c)), u) == At(FullRoom(alias, NextGroup(g, c)), u)
       <==> !Overwritten(ChangeSetsOf(alias, c), u)
    ensures Overwritten(ChangeSetsOf(alias, c), u) ==> At(SyncChanges(room, ChangeMap(alias, c)), u) == Leave
  {
    var s, d := SetsOf(alias, g), ChangeSetsOf(alias, c);
    NextGroupSets(alias, g, c);
    FullMapView(alias, g, u);
    FullMapView(alias, NextGroup(g, c), u);
    UnshadowedEffects(alias, c, u);
    assert InOneList(s, u) && InOneList(ApplySets(s, d), u) && FitsUser(s, d, u);
    AgreeExactly(s, d, u);
    assert At(SyncChanges(room, ChangeMap(alias, c)), u) == After(At(room, u), EffectAt(ChangeMap(alias, c), u));
  }

  /** From a room that matches the group, replaying a change gives the room of a full sync of the
      changed group exactly if the change overwrites nobody. */
  lemma IncrementalEqualsFull(alias: Aliases, g: Group, c: GroupChange, room: Room)
    requires Replayable(alias, g, c) && SameRoom(room, FullRoom(alias, g))
    ensures SameRoom(SyncChanges(room, ChangeMap(alias, c)), FullRoom(alias, NextGroup(g, c)))
       <==> NobodyOverwritten(alias, c)
  {
    forall u {
      ReplayUser(alias, g, c, room, u);
    }
  }

  lemma NoAliases(sids: set<ServiceID>)
    ensures ShownAll(map[], sids) == sids
  {
    forall u {
      ShownMember(map[], sids, u);
    }
  }

  /** Without aliases, fitting the group and keeping everybody in one list is all it takes. */
  lemma PlainReplayable(g: Group, c: GroupChange)
    requires WellFormed(SetsOf(map[], g)) && Fits(SetsOf(map[], g), ChangeSetsOf(map[], c))
    requires WellFormed(ApplySets(SetsOf(map[], g), ChangeSetsOf(map[], c)))
    ensures Replayable(map[], g, c)
  {
    NextGroupSets(map[], g, c);
  }

  const BANNED_USER := Group(4, [], [], [], [ACI(1)])
  const UNBAN_AND_INVITE := EmptyChange(5).(deleteBanned := [ACI(1)], addPending := [PendingMember(ACI(1), Default)])

  lemma UnbanAndInviteSets()
    ensures SetsOf(map[], BANNED_USER) == GroupSets({}, {}, {}, {ACI(1)})
    ensures var s := ChangeSetsOf(map[], UNBAN_AND_INVITE);
            && s.addPending == {ACI(1)} && s.deleteBanned == {ACI(1)}
            && s == ChangeSets({}, {}, {}, {ACI(1)}, {}, {}, {}, {}, {}, {}, {}, {}, {ACI(1)})
  {
    NoAliases({});
    NoAliases({ACI(1)});
    assert Sids([ACI(1)]) == {ACI(1)};
    assert PendingIds([PendingMember(ACI(1), Default)]) == {ACI(1)} by {
      assert PendingMember(ACI(1), Default) in [PendingMember(ACI(1), Default)];
    }
  }

  /** Unbanning and inviting somebody in one change loses the invite. */
  lemma UnbanAndInviteDisagrees()
    ensures Replayable(map[], BANNED_USER, UNBAN_AND_INVITE)
    ensures At(SyncChanges(FullRoom(map[], BANNED_USER), ChangeMap(map[], UNBAN_AND_INVITE)), ACI(1)) == Leave
    ensures At(FullRoom(map[], NextGroup(BANNED_USER, UNBAN_AND_INVITE)), ACI(1)) == Invite
  {
    UnbanAndInviteSets();
    PlainReplayable(BANNED_USER, UNBAN_AND_INVITE);
    NextGroupSets(map[], BANNED_USER, UNBAN_AND_INVITE);
    FullMapView(map[], NextGroup(BANNED_USER, UNBAN_AND_INVITE), ACI(1));
    ReplayUser(map[], BANNED_USER, UNBAN_AND_INVITE, FullRoom(map[], BANNED_USER), ACI(1));
  }

  /******* Histories *******/

  /** The group after a list of changes. */
  function GroupAfter(g0: Group, h: seq<GroupChange>): Group {
    if h == [] then g0 else NextGroup(GroupAfter(g0, h[..|h| - 1]), h[|h| - 1])
  }

  function ReplayAll(alias: Aliases, room: Room, h: seq<GroupChange>): Room {
    if h == [] then room else SyncChanges(ReplayAll(alias, room, h[..|h| - 1]), ChangeMap(alias, h[|h| - 1]))
  }

  /** Every change of a history fits the group it was made to and overwrites nobody. */
  ghost predicate History(alias: Aliases, g0: Group, h: seq<GroupChange>) {
    forall i :: 0 <= i < |h| ==> Sound(alias, GroupAfter(g0, h[..i]), h[i])
  }

  /** The room shows the group. */
  ghost predicate Shows(alias: Aliases, room: Room, g: Group) {
    SameRoom(room, FullRoom(alias, g))
  }

  ghost predicate Sound(alias: Aliases, g: Group, c: GroupChange) {
    Replayable(alias, g, c) && NobodyOverwritten(alias, c)
  }

  lemma HistoryStep(alias: Aliases, g: Group, c: GroupChange, room: Room)
    requires Sound(alias, g, c) && Shows(alias, room, g)
    ensures Shows(alias, SyncChanges(room, ChangeMap(alias, c)), NextGroup(g, c))
  {
    IncrementalEqualsFull(alias, g, c, room);
  }

  lemma HistoryPrefix(alias: Aliases, g0: Group, h: seq<GroupChange>, k: nat)
    requires History(alias, g0, h) && k <= |h|
    ensures History(alias, g0, h[..k])
  {
    forall i | 0 <= i < k
      ensures Sound(alias, GroupAfter(g0, h[..k][..i]), h[..k][i])
    {
      assert h[..k][..i] == h[..i];
      assert Sound(alias, GroupAfter(g0, h[..i]), h[i]);
    }
  }

  /** Replaying a whole history is a full sync of the group it leads to. */
  lemma {:induction false} HistoryEqualsFull(alias: Aliases, g0: Group, h: seq<GroupChange>, room: Room)
    requires History(alias, g0, h) && Shows(alias, room, g0)
    ensures Shows(alias, ReplayAll(alias, room, h), GroupAfter(g0, h))
  {
    if h != [] {
      var k := |h| - 1;
      HistoryPrefix(alias, g0, h, k);
      HistoryEqualsFull(alias, g0, h[..k], room);
      assert Sound(alias, GroupAfter(g0, h[..k]), h[k]);
      HistoryStep(alias, GroupAfter(g0, h[..k]), h[k], ReplayAll(alias, room, h[..k]));
    }
  }
}
