/**
 The two ways a room learns about a group: a full member list, or the member changes of one group
 change. The main results say exactly when the second leaves the same room as the first.
 */
module GroupSync {
  import opened Options
  import opened GroupModel

  datatype Membership = Leave | Invite | Knock | Join | Ban

  const DEFAULT_PL := 0
  const MODERATOR_PL := 50

  function RoleToPL(role: Role): int {
    if role == Administrator then MODERATOR_PL else DEFAULT_PL
  }

  /** One entry of a member list. prev is a guard: the entry only applies to users who currently have that
      membership. */
  datatype ChatMember = ChatMember(membership: Membership, prev: Option<Membership>, powerLevel: Option<int>)

  type MemberMap = map<ServiceID, ChatMember>

  /** One write to a member map. If resolve is set and the user is a phone number of a logged-in
      account, the account gets the same entry too, unless it already has one. */
  datatype Row = Row(user: ServiceID, member: ChatMember, resolve: bool)

  function PutRow(alias: Aliases, mc: MemberMap, row: Row): MemberMap {
    var set1 := mc[row.user := row.member];
    if row.resolve && row.user.PNI? && row.user.id in alias && ACI(alias[row.user.id]) !in set1 then
      set1[ACI(alias[row.user.id]) := row.member]
    else
      set1
  }

  function PutRows(alias: Aliases, mc: MemberMap, rows: seq<Row>): MemberMap {
    if rows == [] then mc else PutRow(alias, PutRows(alias, mc, rows[..|rows| - 1]), rows[|rows| - 1])
  }

  /** The loop over one list of a group or a group change. */
  method SetAll(alias: Aliases, mc0: MemberMap, rows: seq<Row>) returns (mc: MemberMap)
    ensures mc == PutRows(alias, mc0, rows)
  {
    mc := mc0;
    for i := 0 to |rows|
      invariant mc == PutRows(alias, mc0, rows[..i])
    {
      mc := mc[rows[i].user := rows[i].member];
      if rows[i].resolve && rows[i].user.PNI? && rows[i].user.id in alias {
        var aci := ACI(alias[rows[i].user.id]);
        if aci !in mc {
          mc := mc[aci := rows[i].member];
        }
      }
      assert rows[..i + 1][..i] == rows[..i];
    }
    assert rows[..|rows|] == rows;
  }

  /******* Rows of each list *******/

  function AciRows(acis: seq<nat>, m: ChatMember): (rows: seq<Row>)
    ensures |rows| == |acis| && forall i :: 0 <= i < |acis| ==> rows[i] == Row(ACI(acis[i]), m, false)
  {
    seq(|acis|, i requires 0 <= i < |acis| => Row(ACI(acis[i]), m, false))
  }

  function SidRows(sids: seq<ServiceID>, m: ChatMember): (rows: seq<Row>)
    ensures |rows| == |sids| && forall i :: 0 <= i < |sids| ==> rows[i] == Row(sids[i], m, true)
  {
    seq(|sids|, i requires 0 <= i < |sids| => Row(sids[i], m, true))
  }

  function PendingRows(ps: seq<PendingMember>, prev: Option<Membership>): (rows: seq<Row>)
    ensures |rows| == |ps|
    ensures forall i :: 0 <= i < |ps| ==>
            rows[i] == Row(ps[i].sid, ChatMember(Invite, prev, Some(RoleToPL(ps[i].role))), true)
  {
    seq(|ps|, i requires 0 <= i < |ps| => Row(ps[i].sid, ChatMember(Invite, prev, Some(RoleToPL(ps[i].role))), true))
  }

  function MemberRows(ms: seq<Member>): (rows: seq<Row>)
    ensures |rows| == |ms|
    ensures forall i :: 0 <= i < |ms| ==>
            rows[i] == Row(ACI(ms[i].aci), ChatMember(Join, None, Some(RoleToPL(ms[i].role))), false)
  {
    seq(|ms|, i requires 0 <= i < |ms| =>
        Row(ACI(ms[i].aci), ChatMember(Join, None, Some(RoleToPL(ms[i].role))), false))
  }

  /** Admitted requesters join, but unlike added members they get no power level. */
  function AdmitRows(ms: seq<Member>): (rows: seq<Row>)
    ensures |rows| == |ms|
    ensures forall i :: 0 <= i < |ms| ==> rows[i] == Row(ACI(ms[i].aci), ChatMember(Join, Some(Knock), None), false)
  {
    seq(|ms|, i requires 0 <= i < |ms| => Row(ACI(ms[i].aci), ChatMember(Join, Some(Knock), None), false))
  }

  /** An invitee who accepts by phone number joins as their account, and the phone number leaves. */
  function PniAciRows(ps: seq<PniAciMember>): seq<Row> {
    if ps == [] then []
    else
      [Row(ACI(ps[0].aci), ChatMember(Join, None, None), false),
       Row(PNI(ps[0].pni), ChatMember(Leave, Some(Invite), None), false)] + PniAciRows(ps[1..])
  }

  /******* Full list and member changes *******/

  /** The member map of a full group sync. */
  function FullMap(alias: Aliases, g: Group): MemberMap {
    var m1 := PutRows(alias, map[], AciRows(g.requesting, ChatMember(Knock, None, None)));
    var m2 := PutRows(alias, m1, PendingRows(g.pending, None));
    var m3 := PutRows(alias, m2, MemberRows(g.members));
    PutRows(alias, m3, SidRows(g.banned, ChatMember(Ban, None, None)))
  }

  /** The member map of a group change up to the removals. */
  function RemovalMap(alias: Aliases, c: GroupChange): MemberMap {
    var m1 := PutRows(alias, map[], PendingRows(c.addPending, Some(Leave)));
    var m2 := PutRows(alias, m1, AciRows(c.addRequesting, ChatMember(Knock, None, None)));
    var m3 := PutRows(alias, m2, SidRows(c.deletePending, ChatMember(Leave, Some(Invite), None)));
    var m4 := PutRows(alias, m3, AciRows(c.deleteRequesting, ChatMember(Leave, Some(Knock), None)));
    var m5 := PutRows(alias, m4, AciRows(c.deleteMembers, ChatMember(Leave, Some(Join), None)));
    PutRows(alias, m5, SidRows(c.deleteBanned, ChatMember(Leave, Some(Ban), None)))
  }

  /** Adds the promotions, additions and role changes of a group change to a member map. */
  function AdditionMap(alias: Aliases, mc: MemberMap, c: GroupChange): MemberMap {
    var m1 := PutRows(alias, mc, AciRows(c.promotePending, ChatMember(Join, Some(Invite), None)));
    var m2 := PutRows(alias, m1, PniAciRows(c.promotePniAci));
    var m3 := PutRows(alias, m2, AdmitRows(c.promoteRequesting));
    var m4 := PutRows(alias, m3, MemberRows(c.addMembers));
    PutRows(alias, m4, MemberRows(c.modifyMemberRoles))
  }

  /** The member map of a group change. Later lists overwrite earlier ones. */
  function ChangeMap(alias: Aliases, c: GroupChange): MemberMap {
    AdditionMap(alias, PutRows(alias, RemovalMap(alias, c), SidRows(c.addBanned, ChatMember(Ban, None, None))), c)
  }

  method WrapGroupInfo(alias: Aliases, g: Group) returns (mc: MemberMap)
    ensures mc == FullMap(alias, g)
  {
    mc := SetAll(alias, map[], AciRows(g.requesting, ChatMember(Knock, None, None)));
    mc := SetAll(alias, mc, PendingRows(g.pending, None));
    mc := SetAll(alias, mc, MemberRows(g.members));
    mc := SetAll(alias, mc, SidRows(g.banned, ChatMember(Ban, None, None)));
  }

  method GroupChangeToMemberChanges(alias: Aliases, c: GroupChange) returns (mc: MemberMap)
    ensures mc == ChangeMap(alias, c)
  {
    mc := SetAll(alias, map[], PendingRows(c.addPending, Some(Leave)));
    mc := SetAll(alias, mc, AciRows(c.addRequesting, ChatMember(Knock, None, None)));
    mc := SetAll(alias, mc, SidRows(c.deletePending, ChatMember(Leave, Some(Invite), None)));
    mc := SetAll(alias, mc, AciRows(c.deleteRequesting, ChatMember(Leave, Some(Knock), None)));
    mc := SetAll(alias, mc, AciRows(c.deleteMembers, ChatMember(Leave, Some(Join), None)));
    mc := SetAll(alias, mc, SidRows(c.deleteBanned, ChatMember(Leave, Some(Ban), None)));
    mc := SetAll(alias, mc, SidRows(c.addBanned, ChatMember(Ban, None, None)));
    mc := SetAll(alias, mc, AciRows(c.promotePending, ChatMember(Join, Some(Invite), None)));
    mc := SetAll(alias, mc, PniAciRows(c.promotePniAci));
    mc := SetAll(alias, mc, AdmitRows(c.promoteRequesting));
    mc := SetAll(alias, mc, MemberRows(c.addMembers));
    mc := SetAll(alias, mc, MemberRows(c.modifyMemberRoles));
  }

  /******* Rooms *******/

  /** Room members who never joined or left again may be missing. */
  type Room = map<ServiceID, Membership>

  function At(room: Room, u: ServiceID): Membership {
    if u in room then room[u] else Leave
  }

  ghost predicate SameRoom(a: Room, b: Room) {
    forall u :: At(a, u) == At(b, u)
  }

  /** A full list: listed users get their listed membership, everyone else leaves. */
  function SyncFull(mc: MemberMap): Room {
    map u | u in mc :: mc[u].membership
  }

  function Updated(now: Membership, prev: Option<Membership>, next: Membership): Membership {
    if prev.Some? && prev.value != now then now else next
  }

  /** A partial list: only users listed with a matching guard change. */
  function SyncChanges(room: Room, mc: MemberMap): Room {
    map u | u in room.Keys + mc.Keys ::
      if u in mc then Updated(At(room, u), mc[u].prev, mc[u].membership) else At(room, u)
  }

  /** Applying the same member changes twice is the same as applying them once. */
  lemma SyncTwice(room: Room, mc: MemberMap)
    ensures SyncChanges(SyncChanges(room, mc), mc) == SyncChanges(room, mc)
  {
    assert SyncChanges(room, mc).Keys == room.Keys + mc.Keys;
  }

  /******* One layer of writes *******/

  datatype Effect = Effect(prev: Option<Membership>, next: Membership)

  function EffectAt(mc: MemberMap, u: ServiceID): Option<Effect> {
    if u in mc then Some(Effect(mc[u].prev, mc[u].membership)) else None
  }

  function RowUsers(alias: Aliases, row: Row): set<ServiceID> {
    if row.resolve then Shown(alias, row.user) else {row.user}
  }

  function Users(alias: Aliases, rows: seq<Row>): set<ServiceID> {
    set r, u | r in rows && u in RowUsers(alias, r) :: u
  }

  /** All rows of a list do the same thing to a user, apart from the account and phone number halves of a pair. */
  ghost predicate Uniform(rows: seq<Row>, aci: Effect, pni: Effect) {
    forall r :: r in rows ==>
      && Effect(r.member.prev, r.member.membership) == (if r.user.ACI? then aci else pni)
      && (r.resolve ==> aci == pni)
  }

  /** The users a list names itself. */
  function Direct(rows: seq<Row>): set<ServiceID> {
    set r | r in rows :: r.user
  }

  /** A list overwrites exactly the users it names itself, and writes to the accounts behind its phone numbers
      that have no entry yet. */
  lemma {:induction false} Layer(alias: Aliases, mc: MemberMap, rows: seq<Row>, aci: Effect, pni: Effect)
    requires Uniform(rows, aci, pni)
    ensures forall u :: EffectAt(PutRows(alias, mc, rows), u)
              == if u in Direct(rows) || (u in Users(alias, rows) && u !in mc) then Some(if u.ACI? then aci else pni)
                 else EffectAt(mc, u)
  {
    if rows != [] {
      var init, r := rows[..|rows| - 1], rows[|rows| - 1];
      assert rows == init + [r];
      Layer(alias, mc, init, aci, pni);
      assert Direct(rows) == Direct(init) + {r.user};
      assert Users(alias, rows) == Users(alias, init) + RowUsers(alias, r);
      var before := PutRows(alias, mc, init);
      forall u
        ensures EffectAt(PutRow(alias, before, r), u)
          == if u in Direct(rows) || (u in Users(alias, rows) && u !in mc) then Some(if u.ACI? then aci else pni)
             else EffectAt(mc, u)
      {
        hide Users;
        hide Direct;
        hide PutRows;
        assert EffectAt(before, u) == if u in Direct(init) || (u in Users(alias, init) && u !in mc)
          then Some(if u.ACI? then aci else pni) else EffectAt(mc, u);
        assert u in before <==> EffectAt(before, u).Some?;
      }
    }
  }
}
