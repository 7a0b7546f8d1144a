/**
 When replaying a group change leaves the same room as a full sync of the changed group.
 */
module GroupAgreement {
  import opened Options
  import opened GroupModel
  import opened GroupSync

  /******* User by user *******/

  /** The membership a full list gives a user: later lists win. */
  function View(g: GroupSets, u: ServiceID): Membership {
    if u in g.banned then Ban
    else if u in g.members then Join
    else if u in g.pending then Invite
    else if u in g.requesting then Knock
    else Leave
  }

  /** The last list of a change that names the user decides. */
  function ChangeEffect(c: ChangeSets, u: ServiceID): Option<Effect> {
    if u in c.modifyMemberRoles then Some(Effect(None, Join))
    else if u in c.addMembers then Some(Effect(None, Join))
    else if u in c.promoteRequesting then Some(Effect(Some(Knock), Join))
    else if u in c.promotedAcis then Some(Effect(None, Join))
    else if u in c.promotedPnis then Some(Effect(Some(Invite), Leave))
    else if u in c.promotePending then Some(Effect(Some(Invite), Join))
    else if u in c.addBanned then Some(Effect(None, Ban))
    else if u in c.deleteBanned then Some(Effect(Some(Ban), Leave))
    else if u in c.deleteMembers then Some(Effect(Some(Join), Leave))
    else if u in c.deleteRequesting then Some(Effect(Some(Knock), Leave))
    else if u in c.deletePending then Some(Effect(Some(Invite), Leave))
    else if u in c.addRequesting then Some(Effect(None, Knock))
    else if u in c.addPending then Some(Effect(Some(Leave), Invite))
    else None
  }

  function After(now: Membership, e: Option<Effect>): Membership {
    if e.None? then now else Updated(now, e.value.prev, e.value.next)
  }

  /** Nobody is in two lists at once. */
  ghost predicate WellFormed(g: GroupSets) {
    forall u :: InOneList(g, u)
  }

  ghost predicate InOneList(g: GroupSets, u: ServiceID) {
    && (u in g.members ==> u !in g.pending && u !in g.requesting && u !in g.banned)
    && (u in g.pending ==> u !in g.requesting && u !in g.banned)
    && (u in g.requesting ==> u !in g.banned)
  }

  /** A change that fits the group: removals, promotions and role changes are about users who are in
      the list in question, and nobody is added to and removed from the same list. */
  ghost predicate Fits(g: GroupSets, c: ChangeSets) {
    forall u :: FitsUser(g, c, u)
  }

  ghost predicate FitsUser(g: GroupSets, c: ChangeSets, u: ServiceID) {
    && (u in c.deleteMembers ==> u in g.members)
    && (u in c.deletePending || u in c.promotePending || u in c.promotedPnis ==> u in g.pending)
    && (u in c.deleteRequesting || u in c.promoteRequesting ==> u in g.requesting)
    && (u in c.deleteBanned ==> u in g.banned)
    && (u in c.modifyMemberRoles ==> u in ApplySets(g, c).members)
    && (u in c.addPending ==>
          u !in c.deletePending && u !in c.promotePending && u !in c.promotedAcis && u !in c.promotedPnis)
    && (u in c.addRequesting ==> u !in c.deleteRequesting && u !in c.promoteRequesting)
    && (u in c.deleteMembers ==>
          u !in c.promotePending && u !in c.promotedAcis && u !in c.promoteRequesting && u !in c.addMembers)
    && (u in c.addBanned ==> u !in c.deleteBanned)
  }

  /** Only accounts can be members or requesters, and the phone number half of a pair is a phone number. */
  ghost predicate Kinds(c: ChangeSets) {
    forall u :: KindOf(c, u)
  }

  ghost predicate KindOf(c: ChangeSets, u: ServiceID) {
    u in c.promotedPnis ==>
      && u !in c.addMembers && u !in c.deleteMembers && u !in c.modifyMemberRoles && u !in c.promotePending
      && u !in c.promotedAcis && u !in c.addRequesting && u !in c.deleteRequesting && u !in c.promoteRequesting
  }

  /** A user's entry is overwritten by a later list that forgets about it: they are removed from one
      list and put on the pending or requesting list, or their phone number is banned while they join. */
  predicate Overwritten(c: ChangeSets, u: ServiceID) {
    || ((u in c.deletePending || u in c.deleteRequesting || u in c.deleteMembers || u in c.deleteBanned)
        && (u in c.addPending || u in c.addRequesting))
    || (u in c.promotedPnis && u in c.addBanned)
  }

  ghost predicate AgreeOn(g: GroupSets, c: ChangeSets, u: ServiceID) {
    After(View(g, u), ChangeEffect(c, u)) == View(ApplySets(g, c), u)
  }

  /** For a change that fits, replay and full sync agree on a user exactly if the user isn't overwritten.
      An overwritten user wrongly leaves. */
  lemma AgreeExactly(g: GroupSets, c: ChangeSets, u: ServiceID)
    requires InOneList(g, u) && InOneList(ApplySets(g, c), u) && KindOf(c, u) && FitsUser(g, c, u)
    ensures AgreeOn(g, c, u) <==> !Overwritten(c, u)
    ensures Overwritten(c, u) ==> After(View(g, u), ChangeEffect(c, u)) == Leave
  {
    var n := ApplySets(g, c);
    assert u in n.members <==> (u in g.members || u in c.promotePending || u in c.promotedAcis
                                || u in c.promoteRequesting || u in c.addMembers) && u !in c.deleteMembers;
    assert u in n.pending <==> (u in g.pending || u in c.addPending) && u !in c.promotePending
                               && u !in c.promotedAcis && u !in c.promotedPnis && u !in c.deletePending;
    assert u in n.requesting <==> (u in g.requesting || u in c.addRequesting) && u !in c.promoteRequesting
                                  && u !in c.deleteRequesting;
    assert u in n.banned <==> (u in g.banned || u in c.addBanned) && u !in c.deleteBanned;
  }

  /** The guard of a user's entry matches, so that the entry isn't silently skipped, exactly if the user isn't
      invited while already being invited. */
  lemma GuardsMatch(g: GroupSets, c: ChangeSets, u: ServiceID)
    requires InOneList(g, u) && InOneList(ApplySets(g, c), u) && KindOf(c, u) && FitsUser(g, c, u)
    ensures var e := ChangeEffect(c, u);
            (e.Some? && e.value.prev.Some? ==> e.value.prev.value == View(g, u))
                <==> !(u in c.addPending && u in g.pending)
  {
  }
}
