/**
 Signal groups as the bridge caches them, the changes that move them from one revision to the
 next, and the four member lists read as sets of users.
 */
module GroupModel {

  import opened Options

  /** A Signal account (ACI) or phone number (PNI) identity. Matrix user IDs are derived from
      these one to one, so a service ID also stands for the room member it is bridged to. */
  datatype ServiceID = ACI(id: nat) | PNI(id: nat)

  datatype Role = Default | Administrator

  datatype Member = Member(aci: nat, role: Role)
  datatype PendingMember = PendingMember(sid: ServiceID, role: Role)
  datatype PniAciMember = PniAciMember(aci: nat, pni: nat)

  datatype Group = Group(
    revision: nat,
    members: seq<Member>,
    pending: seq<PendingMember>,
    requesting: seq<nat>,
    banned: seq<ServiceID>)

  datatype GroupChange = GroupChange(
    revision: nat,
    addMembers: seq<Member>,
    deleteMembers: seq<nat>,
    modifyMemberRoles: seq<Member>,
    addPending: seq<PendingMember>,
    deletePending: seq<ServiceID>,
    promotePending: seq<nat>,
    promotePniAci: seq<PniAciMember>,
    addRequesting: seq<nat>,
    deleteRequesting: seq<nat>,
    promoteRequesting: seq<Member>,
    addBanned: seq<ServiceID>,
    deleteBanned: seq<ServiceID>)

  /** The change that only moves the revision. Handlers fill in single lists of it. */
  function EmptyChange(revision: nat): GroupChange {
    GroupChange(revision, [], [], [], [], [], [], [], [], [], [], [], [])
  }

  /******* Lists as sets of users *******/

  function Acis(acis: seq<nat>): set<ServiceID> { set a | a in acis :: ACI(a) }
  function Sids(sids: seq<ServiceID>): set<ServiceID> { set s | s in sids }
  function MemberIds(ms: seq<Member>): set<ServiceID> { set m | m in ms :: ACI(m.aci) }
  function PendingIds(ps: seq<PendingMember>): set<ServiceID> { set p | p in ps :: p.sid }
  function PromotedAcis(ps: seq<PniAciMember>): set<ServiceID> { set p | p in ps :: ACI(p.aci) }
  function PromotedPnis(ps: seq<PniAciMember>): set<ServiceID> { set p | p in ps :: PNI(p.pni) }

  lemma MemberIdsConcat(a: seq<Member>, b: seq<Member>)
    ensures MemberIds(a + b) == MemberIds(a) + MemberIds(b)
  {
    assert forall m :: m in a + b <==> m in a || m in b;
  }

  lemma PendingIdsConcat(a: seq<PendingMember>, b: seq<PendingMember>)
    ensures PendingIds(a + b) == PendingIds(a) + PendingIds(b)
  {
    assert forall p :: p in a + b <==> p in a || p in b;
  }

  /** Which logged-in account a phone number identity belongs to. */
  type Aliases = map<nat, nat>

  /** The users an identity is shown as: itself, and its account if the identity is a known phone number. */
  function Shown(alias: Aliases, sid: ServiceID): set<ServiceID> {
    if sid.PNI? && sid.id in alias then {sid, ACI(alias[sid.id])} else {sid}
  }

  function ShownAll(alias: Aliases, sids: set<ServiceID>): set<ServiceID> {
    set s, u | s in sids && u in Shown(alias, s) :: u
  }

  datatype GroupSets = GroupSets(
    members: set<ServiceID>,
    pending: set<ServiceID>,
    requesting: set<ServiceID>,
    banned: set<ServiceID>)

  datatype ChangeSets = ChangeSets(
    addMembers: set<ServiceID>,
    deleteMembers: set<ServiceID>,
    modifyMemberRoles: set<ServiceID>,
    addPending: set<ServiceID>,
    deletePending: set<ServiceID>,
    promotePending: set<ServiceID>,
    promotedAcis: set<ServiceID>,
    promotedPnis: set<ServiceID>,
    addRequesting: set<ServiceID>,
    deleteRequesting: set<ServiceID>,
    promoteRequesting: set<ServiceID>,
    addBanned: set<ServiceID>,
    deleteBanned: set<ServiceID>)

  function SetsOf(alias: Aliases, g: Group): GroupSets {
    GroupSets(
      MemberIds(g.members),
      ShownAll(alias, PendingIds(g.pending)),
      Acis(g.requesting),
      ShownAll(alias, Sids(g.banned)))
  }

  function ChangeSetsOf(alias: Aliases, c: GroupChange): ChangeSets {
    ChangeSets(
      MemberIds(c.addMembers),
      Acis(c.deleteMembers),
      MemberIds(c.modifyMemberRoles),
      ShownAll(alias, PendingIds(c.addPending)),
      ShownAll(alias, Sids(c.deletePending)),
      Acis(c.promotePending),
      PromotedAcis(c.promotePniAci),
      PromotedPnis(c.promotePniAci),
      Acis(c.addRequesting),
      Acis(c.deleteRequesting),
      MemberIds(c.promoteRequesting),
      ShownAll(alias, Sids(c.addBanned)),
      ShownAll(alias, Sids(c.deleteBanned)))
  }

  /** What a change does to the four lists, read as sets. */
  function ApplySets(g: GroupSets, c: ChangeSets): GroupSets {
    GroupSets(
      g.members + c.promotePending + c.promotedAcis + c.promoteRequesting + c.addMembers - c.deleteMembers,
      g.pending + c.addPending - c.promotePending - c.promotedAcis - c.promotedPnis - c.deletePending,
      g.requesting + c.addRequesting - c.promoteRequesting - c.deleteRequesting,
      g.banned + c.addBanned - c.deleteBanned)
  }

  /******* The cached group *******/

  function WithoutPending(ps: seq<PendingMember>, out: set<ServiceID>): (r: seq<PendingMember>)
    ensures forall p :: p in r <==> p in ps && p.sid !in out
    ensures PendingIds(r) == PendingIds(ps) - out
  {
    if ps == [] then []
    else if ps[0].sid in out then WithoutPending(ps[1..], out)
    else [ps[0]] + WithoutPending(ps[1..], out)
  }

  function WithoutAcis(acis: seq<nat>, out: set<ServiceID>): (r: seq<nat>)
    ensures forall a :: a in r <==> a in acis && ACI(a) !in out
    ensures Acis(r) == Acis(acis) - out
  {
    if acis == [] then []
    else if ACI(acis[0]) in out then WithoutAcis(acis[1..], out)
    else [acis[0]] + WithoutAcis(acis[1..], out)
  }

  function WithoutMembers(ms: seq<Member>, out: set<ServiceID>): (r: seq<Member>)
    ensures forall m :: m in r <==> m in ms && ACI(m.aci) !in out
    ensures MemberIds(r) == MemberIds(ms) - out
  {
    if ms == [] then []
    else if ACI(ms[0].aci) in out then WithoutMembers(ms[1..], out)
    else [ms[0]] + WithoutMembers(ms[1..], out)
  }

  function WithoutSids(sids: seq<ServiceID>, out: set<ServiceID>): (r: seq<ServiceID>)
    ensures forall s :: s in r <==> s in sids && s !in out
    ensures Sids(r) == Sids(sids) - out
  {
    if sids == [] then []
    else if sids[0] in out then WithoutSids(sids[1..], out)
    else [sids[0]] + WithoutSids(sids[1..], out)
  }

  /** Gives the first entry of an account a new role. */
  function WithRole(ms: seq<Member>, aci: nat, role: Role): (r: seq<Member>)
    ensures MemberIds(r) == MemberIds(ms)
  {
    if ms == [] then []
    else
      assert ms == [ms[0]] + ms[1..];
      MemberIdsConcat([ms[0]], ms[1..]);
      if ms[0].aci == aci then
        MemberIdsConcat([Member(aci, role)], ms[1..]);
        [Member(aci, role)] + ms[1..]
      else
        MemberIdsConcat([ms[0]], WithRole(ms[1..], aci, role));
        [ms[0]] + WithRole(ms[1..], aci, role)
  }

  datatype UpdateOutcome = NotCached | Stale | Evicted | Unendorsed | Applied

  /** The entry after a change has been applied to it. */
  function CacheUpdated(entry: Option<Group>, c: GroupChange, endorsed: bool): Option<Group> {
    if entry.None? || entry.value.revision >= c.revision then entry
    else if entry.value.revision + 1 < c.revision || !endorsed then None
    else Some(NextGroup(entry.value, c))
  }

  /** The entry after a group has been fetched. A newer one stays. */
  function CachePut(entry: Option<Group>, g: Group, endorsed: bool): Option<Group> {
    if !endorsed || (entry.Some? && entry.value.revision > g.revision) then entry else Some(g)
  }

  /** One group's entry in the bridge's group cache. */
  class CachedGroup {
    var entry: Option<Group>

    constructor (g: Option<Group>)
      ensures entry == g
    {
      entry := g;
    }

    /** Applies a decrypted change. A change that isn't the direct successor never touches the lists:
        old ones are ignored, and a gap drops the entry. So do endorsements that can't be received. */
    method ApplyUpdate(c: GroupChange, endorsed: bool) returns (outcome: UpdateOutcome)
      modifies this
      ensures old(entry).None? ==> outcome == NotCached && entry == None
      ensures old(entry).Some? && old(entry).value.revision >= c.revision ==> outcome == Stale && entry == old(entry)
      ensures old(entry).Some? && old(entry).value.revision + 1 < c.revision ==> outcome == Evicted && entry == None
      ensures old(entry).Some? && old(entry).value.revision + 1 == c.revision && !endorsed ==>
                outcome == Unendorsed && entry == None
      ensures old(entry).Some? && old(entry).value.revision + 1 == c.revision && endorsed ==>
                && outcome == Applied
                && entry == Some(NextGroup(old(entry).value, c))
                && SetsOf(map[], entry.value) == ApplySets(SetsOf(map[], old(entry).value), ChangeSetsOf(map[], c))
      ensures entry == CacheUpdated(old(entry), c, endorsed)
    {
      if entry.None? {
        return NotCached;
      }
      var g := entry.value;
      if g.revision >= c.revision {
        return Stale;
      }
      if g.revision < c.revision - 1 {
        entry := None;
        return Evicted;
      }
      var pending, members := PromoteAll(g.pending + c.addPending, g.members, c);
      pending := WithoutPending(pending, Sids(c.deletePending));

      var requesting := g.requesting + c.addRequesting;
      requesting, members := AdmitAll(requesting, members, c.promoteRequesting);
      requesting := WithoutAcis(requesting, Acis(c.deleteRequesting));

      members := members + c.addMembers;
      members := ChangeRoles(members, c.modifyMemberRoles);
      members := WithoutMembers(members, Acis(c.deleteMembers));

      var banned := WithoutSids(g.banned + c.addBanned, Sids(c.deleteBanned));
      entry := Some(Group(c.revision, members, pending, requesting, banned));
      if !endorsed {
        entry := None;
        return Unendorsed;
      }
      NextGroupSets(map[], g, c);
      return Applied;
    }

    method Put(g: Group, endorsed: bool)
      modifies this
      ensures entry == CachePut(old(entry), g, endorsed)
    {
      if !endorsed {
        return;
      }
      if entry.Some? && entry.value.revision > g.revision {
        return;
      }
      entry := Some(g);
    }

    method Delete()
      modifies this
      ensures entry == None
    {
      entry := None;
    }

    /** Gets the group at least at a revision, from the cache or else from the server. Whether the entry can be
        used is looked at each time, since it expires. A group that can't be put into the cache is no error. */
    method Retrieve(asked: nat, usable: bool, fetched: Option<Group>, endorsed: bool, usableAfter: bool)
      returns (g: Option<Group>)
      modifies this
      ensures g == Retrieved(old(entry), asked, usable, fetched, endorsed, usableAfter)
      ensures entry == if Served(old(entry), asked, usable) || fetched.None? then old(entry)
                       else CachePut(old(entry), fetched.value, endorsed)
    {
      if entry.Some? && usable && entry.value.revision >= asked {
        return entry;
      }
      if fetched.None? {
        return None;
      }
      Put(fetched.value, endorsed);
      if entry.None? || !usableAfter {
        return fetched;
      }
      return entry;
    }
  }

  /** The entry is there, can be used and is new enough. */
  predicate Served(entry: Option<Group>, asked: nat, usable: bool) {
    entry.Some? && usable && entry.value.revision >= asked
  }

  function Retrieved(entry: Option<Group>, asked: nat, usable: bool, fetched: Option<Group>, endorsed: bool,
                     usableAfter: bool): Option<Group> {
    if Served(entry, asked, usable) then entry
    else if fetched.None? then None
    else
      var after := CachePut(entry, fetched.value, endorsed);
      if after.Some? && usableAfter then after else fetched
  }

  /** Moves promoted invitees from the pending list to the member list, first by account, then by phone number. */
  method PromoteAll(ps: seq<PendingMember>, ms: seq<Member>, c: GroupChange)
    returns (pending: seq<PendingMember>, members: seq<Member>)
    ensures var first := PromotePending(ps, ms, c.promotePending);
            (pending, members) == PromotePniAci(first.0, first.1, c.promotePniAci)
  {
    pending, members := ps, ms;
    for i := 0 to |c.promotePending|
      invariant (pending, members) == PromotePending(ps, ms, c.promotePending[..i])
    {
      pending := WithoutPending(pending, {ACI(c.promotePending[i])});
      members := members + [Member(c.promotePending[i], Default)];
      assert c.promotePending[..i + 1][..i] == c.promotePending[..i];
    }
    assert c.promotePending[..|c.promotePending|] == c.promotePending;
    ghost var first := (pending, members);
    for i := 0 to |c.promotePniAci|
      invariant (pending, members) == PromotePniAci(first.0, first.1, c.promotePniAci[..i])
    {
      var promo := c.promotePniAci[i];
      pending := WithoutPending(pending, {PNI(promo.pni), ACI(promo.aci)});
      members := members + [Member(promo.aci, Default)];
      assert c.promotePniAci[..i + 1][..i] == c.promotePniAci[..i];
    }
    assert c.promotePniAci[..|c.promotePniAci|] == c.promotePniAci;
  }

  /** Moves admitted requesters to the member list. */
  method AdmitAll(acis: seq<nat>, ms: seq<Member>, promos: seq<Member>)
      returns (requesting: seq<nat>, members: seq<Member>)
    ensures requesting == WithoutEach(acis, promos)
    ensures members == ms + promos
  {
    requesting, members := acis, ms;
    for i := 0 to |promos|
      invariant requesting == WithoutEach(acis, promos[..i])
      invariant members == ms + promos[..i]
    {
      requesting := WithoutAcis(requesting, {ACI(promos[i].aci)});
      members := members + [Member(promos[i].aci, promos[i].role)];
      assert promos[..i + 1][..i] == promos[..i];
    }
    assert promos[..|promos|] == promos;
  }

  method ChangeRoles(ms: seq<Member>, changes: seq<Member>) returns (members: seq<Member>)
    ensures members == WithRoles(ms, changes)
  {
    members := ms;
    for i := 0 to |changes|
      invariant members == WithRoles(ms, changes[..i])
    {
      members := WithRole(members, changes[i].aci, changes[i].role);
      assert changes[..i + 1][..i] == changes[..i];
    }
    assert changes[..|changes|] == changes;
  }

  /******* What one update computes, as functions of the old entry *******/

  function PromotePending(ps: seq<PendingMember>, ms: seq<Member>,
                          acis: seq<nat>): (r: (seq<PendingMember>, seq<Member>))
    ensures PendingIds(r.0) == PendingIds(ps) - Acis(acis)
    ensures MemberIds(r.1) == MemberIds(ms) + Acis(acis)
  {
    if acis == [] then (ps, ms)
    else
      var r := PromotePending(ps, ms, acis[..|acis| - 1]);
      var a := acis[|acis| - 1];
      assert Acis(acis) == Acis(acis[..|acis| - 1]) + {ACI(a)} by { assert acis == acis[..|acis| - 1] + [a]; }
      MemberIdsConcat(r.1, [Member(a, Default)]);
      (WithoutPending(r.0, {ACI(a)}), r.1 + [Member(a, Default)])
  }

  function PromotePniAci(ps: seq<PendingMember>, ms: seq<Member>, promos: seq<PniAciMember>)
    : (r: (seq<PendingMember>, seq<Member>))
    ensures PendingIds(r.0) == PendingIds(ps) - PromotedPnis(promos) - PromotedAcis(promos)
    ensures MemberIds(r.1) == MemberIds(ms) + PromotedAcis(promos)
  {
    if promos == [] then (ps, ms)
    else
      var rest, p := promos[..|promos| - 1], promos[|promos| - 1];
      var r := PromotePniAci(ps, ms, rest);
      assert PromotedAcis(promos) == PromotedAcis(rest) + {ACI(p.aci)} by { assert promos == rest + [p]; }
      assert PromotedPnis(promos) == PromotedPnis(rest) + {PNI(p.pni)} by { assert promos == rest + [p]; }
      MemberIdsConcat(r.1, [Member(p.aci, Default)]);
      (WithoutPending(r.0, {PNI(p.pni), ACI(p.aci)}), r.1 + [Member(p.aci, Default)])
  }

  function WithoutEach(acis: seq<nat>, promos: seq<Member>): (r: seq<nat>)
    ensures Acis(r) == Acis(acis) - MemberIds(promos)
  {
    if promos == [] then acis
    else
      var rest, p := promos[..|promos| - 1], promos[|promos| - 1];
      assert MemberIds(promos) == MemberIds(rest) + {ACI(p.aci)} by { assert promos == rest + [p]; }
      WithoutAcis(WithoutEach(acis, rest), {ACI(p.aci)})
  }

  function WithRoles(ms: seq<Member>, changes: seq<Member>): (r: seq<Member>)
    ensures MemberIds(r) == MemberIds(ms)
  {
    if changes == [] then ms
    else
      var c := changes[|changes| - 1];
      WithRole(WithRoles(ms, changes[..|changes| - 1]), c.aci, c.role)
  }

  /** The group after a change, as the cache computes it. */
  function NextGroup(g: Group, c: GroupChange): Group {
    var promoted := PromotePending(g.pending + c.addPending, g.members, c.promotePending);
    var both := PromotePniAci(promoted.0, promoted.1, c.promotePniAci);
    Group(
      c.revision,
      WithoutMembers(WithRoles(both.1 + c.promoteRequesting + c.addMembers, c.modifyMemberRoles),
          Acis(c.deleteMembers)),
      WithoutPending(both.0, Sids(c.deletePending)),
      WithoutAcis(WithoutEach(g.requesting + c.addRequesting, c.promoteRequesting), Acis(c.deleteRequesting)),
      WithoutSids(g.banned + c.addBanned, Sids(c.deleteBanned)))
  }

  /** Phone number aliases are one to one, and a promoted phone number is promoted to its own account. */
  predicate ConsistentAliases(alias: Aliases, c: GroupChange) {
    && (forall p, q :: p in alias && q in alias && alias[p] == alias[q] ==> p == q)
    && (forall m :: m in c.promotePniAci && m.pni in alias ==> alias[m.pni] == m.aci)
  }

  /** Nobody is handled both as an account and through the phone number of that account in the
      lists that are removed from. */
  predicate SeparateAliases(alias: Aliases, g: Group, c: GroupChange) {
    && (forall p :: p in alias ==>
          && (PNI(p) in PendingIds(g.pending + c.addPending) ==>
                && ACI(alias[p]) !in Sids(c.deletePending) + Acis(c.promotePending)
                && (ACI(alias[p]) in PromotedAcis(c.promotePniAci) ==> PNI(p) in PromotedPnis(c.promotePniAci)))
          && (ACI(alias[p]) in PendingIds(g.pending + c.addPending) ==> PNI(p) !in Sids(c.deletePending))
          && (PNI(p) in Sids(g.banned + c.addBanned) ==> ACI(alias[p]) !in Sids(c.deleteBanned))
          && (ACI(alias[p]) in Sids(g.banned + c.addBanned) ==> PNI(p) !in Sids(c.deleteBanned)))
  }

  /** Reading the lists as sets commutes with applying a change. */
  lemma NextGroupSets(alias: Aliases, g: Group, c: GroupChange)
    requires ConsistentAliases(alias, c) && SeparateAliases(alias, g, c)
    ensures SetsOf(alias, NextGroup(g, c)) == ApplySets(SetsOf(alias, g), ChangeSetsOf(alias, c))
  {
    var n, e := NextGroup(g, c), ApplySets(SetsOf(alias, g), ChangeSetsOf(alias, c));
    PlainSets(g, c);
    ShownPending(alias, g, c);
    ShownBanned(alias, g, c);
    assert SetsOf(alias, n).members == e.members;
    assert SetsOf(alias, n).requesting == e.requesting;
  }

  lemma PlainSets(g: Group, c: GroupChange)
    ensures var n := NextGroup(g, c);
            && MemberIds(n.members) == MemberIds(g.members) + Acis(c.promotePending) + PromotedAcis(c.promotePniAci)
                 + MemberIds(c.promoteRequesting) + MemberIds(c.addMembers) - Acis(c.deleteMembers)
            && PendingIds(n.pending) == PendingIds(g.pending) + PendingIds(c.addPending) - Acis(c.promotePending)
                 - PromotedAcis(c.promotePniAci) - PromotedPnis(c.promotePniAci) - Sids(c.deletePending)
            && Acis(n.requesting) == Acis(g.requesting) + Acis(c.addRequesting) - MemberIds(c.promoteRequesting)
                 - Acis(c.deleteRequesting)
            && Sids(n.banned) == Sids(g.banned) + Sids(c.addBanned) - Sids(c.deleteBanned)
  {
    var promoted := PromotePending(g.pending + c.addPending, g.members, c.promotePending);
    var both := PromotePniAci(promoted.0, promoted.1, c.promotePniAci);
    MemberIdsConcat(both.1 + c.promoteRequesting, c.addMembers);
    MemberIdsConcat(both.1, c.promoteRequesting);
    PendingIdsConcat(g.pending, c.addPending);
    assert Acis(g.requesting + c.addRequesting) == Acis(g.requesting) + Acis(c.addRequesting);
    assert Sids(g.banned + c.addBanned) == Sids(g.banned) + Sids(c.addBanned);
  }

  lemma ShownMember(alias: Aliases, sids: set<ServiceID>, u: ServiceID)
    ensures u in ShownAll(alias, sids)
            <==> u in sids || (u.ACI? && exists p :: p in alias && alias[p] == u.id && PNI(p) in sids)
  {
    if u.ACI? && exists p :: p in alias && alias[p] == u.id && PNI(p) in sids {
      var p :| p in alias && alias[p] == u.id && PNI(p) in sids;
      assert u in Shown(alias, PNI(p));
    }
    if u in sids {
      assert u in Shown(alias, u);
    }
  }

  lemma ShownPending(alias: Aliases, g: Group, c: GroupChange)
    requires ConsistentAliases(alias, c) && SeparateAliases(alias, g, c)
    ensures SetsOf(alias, NextGroup(g, c)).pending == ApplySets(SetsOf(alias, g), ChangeSetsOf(alias, c)).pending
  {
    var n, e := NextGroup(g, c), ApplySets(SetsOf(alias, g), ChangeSetsOf(alias, c));
    PlainSets(g, c);
    PendingIdsConcat(g.pending, c.addPending);
    forall p | p in alias && PNI(p) in PromotedPnis(c.promotePniAci)
      ensures ACI(alias[p]) in PromotedAcis(c.promotePniAci)
    {
      var m :| m in c.promotePniAci && PNI(m.pni) == PNI(p);
      assert ACI(m.aci) in PromotedAcis(c.promotePniAci);
    }
    ShownRemoval(alias, PendingIds(g.pending) + PendingIds(c.addPending), Acis(c.promotePending),
      PromotedAcis(c.promotePniAci), PromotedPnis(c.promotePniAci), Sids(c.deletePending));
    ShownUnion(alias, PendingIds(g.pending), PendingIds(c.addPending));
  }

  lemma ShownUnion(alias: Aliases, a: set<ServiceID>, b: set<ServiceID>)
    ensures ShownAll(alias, a + b) == ShownAll(alias, a) + ShownAll(alias, b)
  {
  }

  /** Taking users out of a list before or after adding the accounts behind phone numbers is the same. */
  lemma ShownRemoval(alias: Aliases, from: set<ServiceID>, acis: set<ServiceID>, pairedAcis: set<ServiceID>,
                     pairedPnis: set<ServiceID>, deleted: set<ServiceID>)
    requires forall u :: u in acis + pairedAcis ==> u.ACI?
    requires forall u :: u in pairedPnis ==> u.PNI?
    requires forall p, q :: p in alias && q in alias && alias[p] == alias[q] ==> p == q
    requires forall p :: p in alias ==>
               && (PNI(p) in from ==>
                     && ACI(alias[p]) !in deleted + acis
                     && (ACI(alias[p]) in pairedAcis ==> PNI(p) in pairedPnis))
               && (ACI(alias[p]) in from ==> PNI(p) !in deleted)
               && (PNI(p) in pairedPnis ==> ACI(alias[p]) in pairedAcis)
    ensures ShownAll(alias, from - acis - pairedAcis - pairedPnis - deleted)
         == ShownAll(alias, from) - acis - pairedAcis - pairedPnis - ShownAll(alias, deleted)
  {
    var kept := from - acis - pairedAcis - pairedPnis - deleted;
    forall u: ServiceID
      ensures u in ShownAll(alias, kept)
         <==> u in ShownAll(alias, from) && u !in acis + pairedAcis + pairedPnis && u !in ShownAll(alias, deleted)
    {
      ShownMember(alias, kept, u);
      ShownMember(alias, from, u);
      ShownMember(alias, deleted, u);
      if u.ACI? && u in ShownAll(alias, kept) && u !in kept {
        var p :| p in alias && alias[p] == u.id && PNI(p) in kept;
      } else if u.ACI? && u in ShownAll(alias, from) && u !in from && u !in ShownAll(alias, deleted) {
        var p :| p in alias && alias[p] == u.id && PNI(p) in from;
      }
    }
  }

  lemma ShownBanned(alias: Aliases, g: Group, c: GroupChange)
    requires ConsistentAliases(alias, c) && SeparateAliases(alias, g, c)
    ensures SetsOf(alias, NextGroup(g, c)).banned == ApplySets(SetsOf(alias, g), ChangeSetsOf(alias, c)).banned
  {
    var n, e := NextGroup(g, c), ApplySets(SetsOf(alias, g), ChangeSetsOf(alias, c));
    PlainSets(g, c);
    assert Sids(g.banned + c.addBanned) == Sids(g.banned) + Sids(c.addBanned);
    ShownRemoval(alias, Sids(g.banned) + Sids(c.addBanned), {}, {}, {}, Sids(c.deleteBanned));
    ShownUnion(alias, Sids(g.banned), Sids(c.addBanned));
    assert forall s: set<ServiceID> :: s - {} == s;
  }
}
