/**
 The roles of group members, and the power levels that member lists give them.
 */
module GroupRoles {
  import opened Options
  import opened GroupModel
  import opened GroupSync
  import opened GroupReplay
  import opened MembershipActions
  import GroupSkips

  /******* Roles in the cached group *******/

  /** The role of an account's first entry, which is the one that is looked up. */
  function RoleOf(ms: seq<Member>, aci: nat): Option<Role> {
    if ms == [] then None else if ms[0].aci == aci then Some(ms[0].role) else RoleOf(ms[1..], aci)
  }

  /** The last role that a list of changes gives an account. */
  function LastRole(changes: seq<Member>, aci: nat): Option<Role> {
    if changes == [] then None
    else if changes[|changes| - 1].aci == aci then Some(changes[|changes| - 1].role)
    else LastRole(changes[..|changes| - 1], aci)
  }

  function Or(a: Option<Role>, b: Option<Role>): Option<Role> { if a.Some? then a else b }

  lemma {:induction false} RoleOfConcat(a: seq<Member>, b: seq<Member>, aci: nat)
    ensures RoleOf(a + b, aci) == Or(RoleOf(a, aci), RoleOf(b, aci))
  {
    if a == [] {
      assert a + b == b;
    } else {
      assert (a + b)[1..] == a[1..] + b;
      RoleOfConcat(a[1..], b, aci);
    }
  }

  /** Exactly the first entry of the account gets the role. */
  lemma {:induction false} FirstEntryChanges(ms: seq<Member>, aci: nat, role: Role, i: nat)
    requires i < |ms|
    ensures |WithRole(ms, aci, role)| == |ms|
    ensures WithRole(ms, aci, role)[i]
            == if ms[i].aci == aci && (forall j :: 0 <= j < i ==> ms[j].aci != aci) then Member(aci, role) else ms[i]
  {
    if ms[0].aci == aci {
      assert i > 0 ==> ms[0].aci == aci;
    } else if |ms| == 1 {
      assert ms[1..] == [] && WithRole([], aci, role) == [];
    } else {
      FirstEntryChanges(ms[1..], aci, role, if i == 0 then 0 else i - 1);
      assert i > 0 ==> forall j :: 0 <= j < i - 1 ==> ms[1..][j] == ms[j + 1];
      if i > 0 && ms[i].aci == aci && forall j :: 0 <= j < i - 1 ==> ms[1..][j].aci != aci {
        assert forall j :: 0 < j < i ==> ms[j] == ms[1..][j - 1];
      }
    }
  }

  lemma {:induction false} RoleAfterChange(ms: seq<Member>, aci: nat, role: Role, a: nat)
    ensures RoleOf(WithRole(ms, aci, role), a) == if a == aci && RoleOf(ms, a).Some? then Some(role) else RoleOf(ms, a)
  {
    if ms != [] && ms[0].aci != aci {
      RoleAfterChange(ms[1..], aci, role, a);
    }
  }

  lemma {:induction false} RoleAfterChanges(ms: seq<Member>, changes: seq<Member>, a: nat)
    ensures RoleOf(WithRoles(ms, changes), a) == if RoleOf(ms, a).Some? then Or(LastRole(changes, a), RoleOf(ms, a))
            else None
  {
    if changes != [] {
      var init, c := changes[..|changes| - 1], changes[|changes| - 1];
      RoleAfterChanges(ms, init, a);
      RoleAfterChange(WithRoles(ms, init), c.aci, c.role, a);
    }
  }

  lemma {:induction false} RoleAfterRemoval(ms: seq<Member>, out: set<ServiceID>, a: nat)
    ensures RoleOf(WithoutMembers(ms, out), a) == if ACI(a) in out then None else RoleOf(ms, a)
  {
    if ms != [] {
      RoleAfterRemoval(ms[1..], out, a);
    }
  }

  function IfNamed(b: bool): Option<Role> { if b then Some(Default) else None }

  lemma {:induction false} RoleAfterPromotion(ps: seq<PendingMember>, ms: seq<Member>, acis: seq<nat>, a: nat)
    ensures RoleOf(PromotePending(ps, ms, acis).1, a) == Or(RoleOf(ms, a), IfNamed(a in acis))
  {
    if acis != [] {
      var rest, last := acis[..|acis| - 1], acis[|acis| - 1];
      assert acis == rest + [last];
      RoleAfterPromotion(ps, ms, rest, a);
      RoleOfConcat(PromotePending(ps, ms, rest).1, [Member(last, Default)], a);
    }
  }

  lemma {:induction false} RoleAfterPairs(ps: seq<PendingMember>, ms: seq<Member>, promos: seq<PniAciMember>, a: nat)
    ensures RoleOf(PromotePniAci(ps, ms, promos).1, a) == Or(RoleOf(ms, a), IfNamed(ACI(a) in PromotedAcis(promos)))
  {
    if promos != [] {
      var rest, last := promos[..|promos| - 1], promos[|promos| - 1];
      assert promos == rest + [last];
      RoleAfterPairs(ps, ms, rest, a);
      RoleOfConcat(PromotePniAci(ps, ms, rest).1, [Member(last.aci, Default)], a);
      assert PromotedAcis(promos) == PromotedAcis(rest) + {ACI(last.aci)};
    }
  }

  /** The role an account has or comes in with: its own, the default one if it is promoted, or the one it is admitted
      or added with. */
  function RoleBefore(g: Group, c: GroupChange, a: nat): Option<Role> {
    Or(Or(Or(Or(RoleOf(g.members, a), IfNamed(a in c.promotePending)),
        IfNamed(ACI(a) in PromotedAcis(c.promotePniAci))),
      RoleOf(c.promoteRequesting, a)), RoleOf(c.addMembers, a))
  }

  /** After a change, a member who isn't deleted has the role of the last role change that names them, or else the one
      they had or came in with. */
  lemma RolesAfter(g: Group, c: GroupChange, a: nat)
    ensures RoleOf(NextGroup(g, c).members, a)
            == if ACI(a) in Acis(c.deleteMembers) || RoleBefore(g, c, a).None? then None
               else Or(LastRole(c.modifyMemberRoles, a), RoleBefore(g, c, a))
  {
    var promoted := PromotePending(g.pending + c.addPending, g.members, c.promotePending);
    var both := PromotePniAci(promoted.0, promoted.1, c.promotePniAci);
    RoleAfterPromotion(g.pending + c.addPending, g.members, c.promotePending, a);
    RoleAfterPairs(promoted.0, promoted.1, c.promotePniAci, a);
    RoleOfConcat(both.1, c.promoteRequesting, a);
    RoleOfConcat(both.1 + c.promoteRequesting, c.addMembers, a);
    var all := both.1 + c.promoteRequesting + c.addMembers;
    RoleAfterChanges(all, c.modifyMemberRoles, a);
    RoleAfterRemoval(WithRoles(all, c.modifyMemberRoles), Acis(c.deleteMembers), a);
  }

  /** Somebody who is added or admitted, and not a member yet, comes in with their role. */
  lemma ComesInWith(g: Group, c: GroupChange, m: Member)
    requires RoleOf(g.members, m.aci).None? && c.promotePending == [] && c.promotePniAci == []
    requires (c.promoteRequesting == [m] && c.addMembers == []) || (c.promoteRequesting == [] && c.addMembers == [m])
    requires c.modifyMemberRoles == [] && c.deleteMembers == []
    ensures RoleOf(NextGroup(g, c).members, m.aci) == Some(m.role)
  {
    RolesAfter(g, c, m.aci);
    hide NextGroup;
    assert RoleOf([m], m.aci) == Some(m.role);
  }

  lemma {:induction false} PendingAfterPromotion(ps: seq<PendingMember>, ms: seq<Member>, acis: seq<nat>,
                                                p: PendingMember)
    ensures p in PromotePending(ps, ms, acis).0 <==> p in ps && p.sid !in Acis(acis)
  {
    if acis != [] {
      var rest, last := acis[..|acis| - 1], acis[|acis| - 1];
      assert acis == rest + [last];
      PendingAfterPromotion(ps, ms, rest, p);
      assert Acis(acis) == Acis(rest) + {ACI(last)};
    }
  }

  lemma {:induction false} PendingAfterPairs(ps: seq<PendingMember>, ms: seq<Member>, promos: seq<PniAciMember>,
                                             p: PendingMember)
    ensures p in PromotePniAci(ps, ms, promos).0 <==> p in ps && p.sid !in PromotedAcis(promos) + PromotedPnis(promos)
  {
    if promos != [] {
      var rest, last := promos[..|promos| - 1], promos[|promos| - 1];
      assert promos == rest + [last];
      PendingAfterPairs(ps, ms, rest, p);
      assert PromotedAcis(promos) == PromotedAcis(rest) + {ACI(last.aci)};
      assert PromotedPnis(promos) == PromotedPnis(rest) + {PNI(last.pni)};
    }
  }

  /** Invitees keep the role they were invited with until they are promoted or removed. */
  lemma PendingAfter(g: Group, c: GroupChange, p: PendingMember)
    ensures p in NextGroup(g, c).pending
            <==> p in g.pending + c.addPending
                 && p.sid !in Acis(c.promotePending) + PromotedAcis(c.promotePniAci) + PromotedPnis(c.promotePniAci)
                 && p.sid !in Sids(c.deletePending)
  {
    var promoted := PromotePending(g.pending + c.addPending, g.members, c.promotePending);
    PendingAfterPromotion(g.pending + c.addPending, g.members, c.promotePending, p);
    PendingAfterPairs(promoted.0, promoted.1, c.promotePniAci, p);
  }

  /** Somebody who is invited waits with their role. */
  lemma WaitsWith(g: Group, c: GroupChange, p: PendingMember)
    requires c.addPending == [p] && c.promotePending == [] && c.promotePniAci == [] && c.deletePending == []
    ensures p in NextGroup(g, c).pending
  {
    PendingAfter(g, c, p);
    hide NextGroup;
    assert p in g.pending + c.addPending;
  }

  /** Inviting or admitting somebody who isn't a member gives them the role asked for, and a phone number that is
      invited waits with it. */
  lemma ActionGivesRole(a: Action, target: ServiceID, role: Role, g: Group)
    requires a == InviteUser || (a == AcceptKnock && target.ACI?)
    requires RoleOf(g.members, target.id).None?
    ensures var next := NextGroup(g, ChangeFor(a, target, role, g.revision + 1));
            && next.revision == g.revision + 1
            && (target.ACI? ==> RoleOf(next.members, target.id) == Some(role))
            && (target.PNI? ==> PendingMember(target, role) in next.pending)
  {
    var c := ChangeFor(a, target, role, g.revision + 1);
    hide NextGroup;
    hide RoleOf;
    GroupSkips.NextRevision(g, c);
    if target.ACI? {
      ComesInWith(g, c, Member(target.id, role));
    } else {
      WaitsWith(g, c, PendingMember(target, role));
    }
  }

  /******* Power levels in member lists *******/

  predicate NamedAfter(rows: seq<Row>, i: int, u: ServiceID)
    requires i >= -1
  {
    exists j :: i < j < |rows| && rows[j].user == u
  }

  /** The last row that names a user decides the whole entry, and one that has an entry and isn't named keeps it. */
  lemma {:induction false} LastRowWins(alias: Aliases, mc: MemberMap, rows: seq<Row>, u: ServiceID, i: int)
    requires -1 <= i < |rows| && !NamedAfter(rows, i, u)
    requires if i == -1 then u in mc else rows[i].user == u
    ensures u in PutRows(alias, mc, rows) && PutRows(alias, mc, rows)[u] == if i == -1 then mc[u] else rows[i].member
  {
    if i < |rows| - 1 {
      var init := rows[..|rows| - 1];
      assert rows[|rows| - 1].user != u;
      forall j | i < j < |init|
        ensures init[j].user != u
      {
        assert rows[j].user != u;
      }
      LastRowWins(alias, mc, init, u, i);
    }
  }

  lemma NotNamed(sids: seq<ServiceID>, m: ChatMember, u: ServiceID)
    requires u !in Sids(sids)
    ensures !NamedAfter(SidRows(sids, m), -1, u)
  {
  }

  lemma NoMemberNamed(ms: seq<Member>, i: int, aci: nat)
    requires i >= -1
    requires forall j :: i < j < |ms| ==> ms[j].aci != aci
    ensures !NamedAfter(MemberRows(ms), i, ACI(aci))
  {
  }

  /** The power level that stands for a role. */
  lemma PowerExactly(role: Role)
    ensures RoleToPL(role) == (if role == Administrator then 50 else 0)
  {
  }

  /** A full list gives a member who isn't banned the power level of their last entry. */
  lemma FullListPower(alias: Aliases, g: Group, i: nat)
    requires i < |g.members| && forall j :: i < j < |g.members| ==> g.members[j].aci != g.members[i].aci
    requires ACI(g.members[i].aci) !in Sids(g.banned)
    ensures var u := ACI(g.members[i].aci);
            u in FullMap(alias, g) && FullMap(alias, g)[u] == ChatMember(Join, None, Some(RoleToPL(g.members[i].role)))
  {
    var u := ACI(g.members[i].aci);
    var m1 := PutRows(alias, map[], AciRows(g.requesting, ChatMember(Knock, None, None)));
    var m2 := PutRows(alias, m1, PendingRows(g.pending, None));
    NoMemberNamed(g.members, i, g.members[i].aci);
    LastRowWins(alias, m2, MemberRows(g.members), u, i);
    NotNamed(g.banned, ChatMember(Ban, None, None), u);
    LastRowWins(alias, PutRows(alias, m2, MemberRows(g.members)), SidRows(g.banned, ChatMember(Ban, None, None)), u,
        -1);
  }

  lemma KeepsEntry(alias: Aliases, mc: MemberMap, rows: seq<Row>, u: ServiceID)
    requires u in mc && u !in Direct(rows)
    ensures u in PutRows(alias, mc, rows) && PutRows(alias, mc, rows)[u] == mc[u]
  {
    assert !NamedAfter(rows, -1, u) by {
      forall j | 0 <= j < |rows|
        ensures rows[j].user != u
      {
        assert rows[j] in rows;
      }
    }
    LastRowWins(alias, mc, rows, u, -1);
  }

  predicate LastInvite(ps: seq<PendingMember>,
                       i: nat) { i < |ps| && forall j :: i < j < |ps| ==> ps[j].sid != ps[i].sid }

  lemma InviteRow(alias: Aliases, mc: MemberMap, ps: seq<PendingMember>, prev: Option<Membership>, i: nat)
    requires LastInvite(ps, i)
    ensures var mc' := PutRows(alias, mc, PendingRows(ps, prev));
            ps[i].sid in mc' && mc'[ps[i].sid] == ChatMember(Invite, prev, Some(RoleToPL(ps[i].role)))
  {
    LastRowWins(alias, mc, PendingRows(ps, prev), ps[i].sid, i);
  }

  /** A full list gives an invitee who is neither a member nor banned the power level of their last invite. */
  lemma FullListInvitePower(alias: Aliases, g: Group, i: nat)
    requires LastInvite(g.pending, i) && g.pending[i].sid !in MemberIds(g.members) + Sids(g.banned)
    ensures var u := g.pending[i].sid;
            && u in FullMap(alias, g)
            && FullMap(alias, g)[u] == ChatMember(Invite, None, Some(RoleToPL(g.pending[i].role)))
  {
    hide PutRows;
    var u := g.pending[i].sid;
    var m1 := PutRows(alias, map[], AciRows(g.requesting, ChatMember(Knock, None, None)));
    InviteRow(alias, m1, g.pending, None, i);
    var m2 := PutRows(alias, m1, PendingRows(g.pending, None));
    MemberRowUsers(alias, g.members);
    NothingResolved(alias, MemberRows(g.members));
    KeepsEntry(alias, m2, MemberRows(g.members), u);
    NotNamed(g.banned, ChatMember(Ban, None, None), u);
    LastRowWins(alias, PutRows(alias, m2, MemberRows(g.members)), SidRows(g.banned, ChatMember(Ban, None, None)), u,
        -1);
  }

  /** The change that invites a phone number gives it the power level of the role it is invited with, and only if it
      isn't in the room. */
  lemma BuiltInvitePower(pni: nat, role: Role, revision: nat)
    ensures var mc := ChangeMap(map[], ChangeFor(InviteUser, PNI(pni), role, revision));
            PNI(pni) in mc && mc[PNI(pni)] == ChatMember(Invite, Some(Leave), Some(RoleToPL(role)))
  {
    hide PutRows;
    var c := ChangeFor(InviteUser, PNI(pni), role, revision);
    InviteRow(map[], map[], c.addPending, Some(Leave), 0);
    forall mc: MemberMap
      ensures PutRows(map[], mc, []) == mc
    {
      NoRows(mc);
    }
    assert AciRows([], ChatMember(Knock, None, None)) == [] && AciRows([], ChatMember(Leave, Some(Knock), None)) == [];
    assert AciRows([], ChatMember(Leave, Some(Join), None)) == []
        && AciRows([], ChatMember(Join, Some(Invite), None)) == [];
    assert SidRows([], ChatMember(Leave, Some(Invite), None)) == []
        && SidRows([], ChatMember(Leave, Some(Ban), None)) == [];
    assert SidRows([], ChatMember(Ban, None, None)) == [] && AdmitRows([]) == [] && MemberRows([]) == [];
  }

  lemma NoRows(mc: MemberMap)
    ensures PutRows(map[], mc, []) == mc
  {
  }

  /** The entries of a change for accounts that are admitted, added or given a role, before any of these lists. */
  function BeforeAdmissions(alias: Aliases, c: GroupChange): MemberMap {
    var mc := PutRows(alias, RemovalMap(alias, c), SidRows(c.addBanned, ChatMember(Ban, None, None)));
    var m1 := PutRows(alias, mc, AciRows(c.promotePending, ChatMember(Join, Some(Invite), None)));
    PutRows(alias, m1, PniAciRows(c.promotePniAci))
  }

  lemma LastLists(alias: Aliases, c: GroupChange)
    ensures ChangeMap(alias, c)
            == PutRows(alias,
                 PutRows(alias, PutRows(alias, BeforeAdmissions(alias, c), AdmitRows(c.promoteRequesting)),
                     MemberRows(c.addMembers)),
                 MemberRows(c.modifyMemberRoles))
  {
    hide PutRows;
    hide RemovalMap;
  }

  /** The account isn't named by this list. */
  predicate Unnamed(ms: seq<Member>, aci: nat) { forall j :: 0 <= j < |ms| ==> ms[j].aci != aci }

  predicate LastOf(ms: seq<Member>, i: nat) { i < |ms| && forall j :: i < j < |ms| ==> ms[j].aci != ms[i].aci }

  /** A role change gives its account the power level of the role. */
  lemma RoleChangePower(alias: Aliases, c: GroupChange, i: nat)
    requires LastOf(c.modifyMemberRoles, i)
    ensures var m := c.modifyMemberRoles[i];
            && ACI(m.aci) in ChangeMap(alias, c)
            && ChangeMap(alias, c)[ACI(m.aci)] == ChatMember(Join, None, Some(RoleToPL(m.role)))
  {
    hide PutRows;
    LastLists(alias, c);
    hide ChangeMap;
    hide BeforeAdmissions;
    var m3 := PutRows(alias, BeforeAdmissions(alias, c), AdmitRows(c.promoteRequesting));
    var m4 := PutRows(alias, m3, MemberRows(c.addMembers));
    NoMemberNamed(c.modifyMemberRoles, i, c.modifyMemberRoles[i].aci);
    LastRowWins(alias, m4, MemberRows(c.modifyMemberRoles), ACI(c.modifyMemberRoles[i].aci), i);
  }

  /** So does adding somebody, if no role change follows. */
  lemma AdditionPower(alias: Aliases, c: GroupChange, i: nat)
    requires LastOf(c.addMembers, i) && Unnamed(c.modifyMemberRoles, c.addMembers[i].aci)
    ensures var m := c.addMembers[i];
            && ACI(m.aci) in ChangeMap(alias, c)
            && ChangeMap(alias, c)[ACI(m.aci)] == ChatMember(Join, None, Some(RoleToPL(m.role)))
  {
    hide PutRows;
    LastLists(alias, c);
    hide ChangeMap;
    hide BeforeAdmissions;
    var m, u := c.addMembers[i], ACI(c.addMembers[i].aci);
    var m3 := PutRows(alias, BeforeAdmissions(alias, c), AdmitRows(c.promoteRequesting));
    NoMemberNamed(c.addMembers, i, m.aci);
    LastRowWins(alias, m3, MemberRows(c.addMembers), u, i);
    NoMemberNamed(c.modifyMemberRoles, -1, m.aci);
    LastRowWins(alias, PutRows(alias, m3, MemberRows(c.addMembers)), MemberRows(c.modifyMemberRoles), u, -1);
  }

  /** But admitting somebody says nothing about their power, whatever role they are admitted with. */
  lemma AdmissionPower(alias: Aliases, c: GroupChange, i: nat)
    requires LastOf(c.promoteRequesting, i)
    requires var aci := c.promoteRequesting[i].aci; Unnamed(c.addMembers, aci) && Unnamed(c.modifyMemberRoles, aci)
    ensures var u := ACI(c.promoteRequesting[i].aci);
            u in ChangeMap(alias, c) && ChangeMap(alias, c)[u] == ChatMember(Join, Some(Knock), None)
  {
    hide PutRows;
    LastLists(alias, c);
    hide ChangeMap;
    hide BeforeAdmissions;
    var aci := c.promoteRequesting[i].aci;
    var m2, rows := BeforeAdmissions(alias, c), AdmitRows(c.promoteRequesting);
    LastRowWins(alias, m2, rows, ACI(aci), i);
    var m3 := PutRows(alias, m2, rows);
    NoMemberNamed(c.addMembers, -1, aci);
    LastRowWins(alias, m3, MemberRows(c.addMembers), ACI(aci), -1);
    NoMemberNamed(c.modifyMemberRoles, -1, aci);
    LastRowWins(alias, PutRows(alias, m3, MemberRows(c.addMembers)), MemberRows(c.modifyMemberRoles), ACI(aci), -1);
  }

  const REQUESTER := Group(4, [], [], [1], [])
  const ADMIT_ADMINISTRATOR := EmptyChange(5).(promoteRequesting := [Member(1, Administrator)])

  lemma AdmittedMembers()
    ensures var next := NextGroup(REQUESTER, ADMIT_ADMINISTRATOR);
            next.members == [Member(1, Administrator)] && next.banned == []
  {
    assert [] + [Member(1, Administrator)] + [] == [Member(1, Administrator)];
    assert [Member(1, Administrator)][1..] == [];
  }

  /** A requester who is admitted as an administrator: the full list says so, and the change doesn't. */
  lemma AdmittedAdministratorHasNoPower()
    ensures var mc, full := ChangeMap(map[], ADMIT_ADMINISTRATOR),
            FullMap(map[], NextGroup(REQUESTER, ADMIT_ADMINISTRATOR));
            && ACI(1) in mc && mc[ACI(1)].powerLevel == None
            && ACI(1) in full && full[ACI(1)].powerLevel == Some(50)
  {
    hide ChangeMap;
    hide FullMap;
    hide NextGroup;
    AdmittedMembers();
    FullListPower(map[], NextGroup(REQUESTER, ADMIT_ADMINISTRATOR), 0);
    AdmissionPower(map[], ADMIT_ADMINISTRATOR, 0);
  }
}
