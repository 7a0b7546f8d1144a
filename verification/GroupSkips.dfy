/**
 Changes that fail to be converted while a portal catches up. The portal goes on with the next change of the page,
 and its revision then says that it has seen the one it passed over.
 */
module GroupSkips {
  import opened Options
  import opened GroupModel
  import opened GroupSync
  import opened GroupAgreement
  import opened GroupReplay
  import opened GroupCatchUp
  import opened GroupRuns
  import opened MembershipActions

  /** The page after a revision, with which of its changes can be converted. */
  function PageWith(h: seq<GroupChange>, v: nat, flags: seq<bool>): (page: seq<PageEntry>)
    requires v + |flags| <= |h|
    ensures |page| == |flags| && forall i :: 0 <= i < |flags| ==> page[i] == PageEntry(h[v + i], flags[i])
  {
    seq(|flags|, i requires 0 <= i < |flags| => PageEntry(h[v + i], flags[i]))
  }

  /** A portal at revision v of a real history, asking for the page. */
  ghost predicate Asks(alias: Aliases, g0: Group, h: seq<GroupChange>, st: PortalState, v: nat, flags: seq<bool>) {
    Truth(alias, g0, h) && Synced(alias, g0, h, st) && st.revision == v && v + |flags| <= |h|
  }

  /** Among the first n changes, none that can't be converted comes before one that can. */
  predicate OnlyTailFails(flags: seq<bool>, n: nat)
    requires n <= |flags|
  {
    forall i, j :: 0 <= i < j < n && flags[j] ==> flags[i]
  }

  function Leading(flags: seq<bool>): (k: nat)
    ensures k <= |flags| && (forall i :: 0 <= i < k ==> flags[i]) && (k < |flags| ==> !flags[k])
  {
    if flags == [] || !flags[0] then 0 else 1 + Leading(flags[1..])
  }

  lemma LateFlags(flags: seq<bool>, n: nat, i: nat)
    requires n <= |flags| && OnlyTailFails(flags, n) && Leading(flags) <= i < |flags| && flags[i]
    ensures n <= i
  {
    var k := Leading(flags);
    assert !flags[k] && k < i;
  }

  lemma TailIsOrderly(h: seq<GroupChange>, v: nat, flags: seq<bool>, to: nat)
    requires v < to && v + |flags| <= |h| && OnlyTailFails(flags, Min(|flags|, to - v))
    requires forall i :: 0 <= i < |h| ==> h[i].revision == i + 1
    ensures Orderly(PageWith(h, v, flags), to, Leading(flags))
  {
    hide OnlyTailFails;
    var page, k, n := PageWith(h, v, flags), Leading(flags), Min(|flags|, to - v);
    forall i | k <= i < |page| && page[i].convertible
      ensures StoppedBefore(page, to, i)
    {
      LateFlags(flags, n, i);
      assert page[n - 1].change == h[v + n - 1];
    }
  }

  /** If only a tail of the page fails, catching up stops there and the room is right. */
  lemma TailIsHarmless(alias: Aliases, g0: Group, h: seq<GroupChange>, st: PortalState, v: nat, flags: seq<bool>,
                       to: nat)
    requires Asks(alias, g0, h, st, v, flags) && v < to && OnlyTailFails(flags, Min(|flags|, to - v))
    ensures var next := Replay(alias, st, PageWith(h, v, flags), to);
            Synced(alias, g0, h, next) && next.revision == Min(to, v + Leading(flags))
  {
    hide Replay;
    hide Synced;
    hide History;
    TailIsOrderly(h, v, flags, to);
    hide OnlyTailFails;
    hide Orderly;
    ReplayFollows(alias, g0, h, st, PageWith(h, v, flags), v + |flags|, to, Leading(flags));
  }

  /******* Anything else can go wrong *******/

  function Joins(revision: nat): GroupChange { EmptyChange(revision).(addMembers := [Member(1, Default)]) }

  /** A history in which one person joins with the change at p, and nothing else happens. */
  function Uneventful(n: nat, p: nat): (h: seq<GroupChange>)
    ensures |h| == n && forall i :: 0 <= i < n ==> h[i] == if i == p then Joins(i + 1) else EmptyChange(i + 1)
  {
    seq(n, i requires 0 <= i < n => if i == p then Joins(i + 1) else EmptyChange(i + 1))
  }

  const NOBODY := Group(0, [], [], [], [])

  function Joined(b: bool): GroupSets { GroupSets(if b then {ACI(1)} else {}, {}, {}, {}) }

  lemma EmptySets(revision: nat)
    ensures ChangeSetsOf(map[], EmptyChange(revision)) == ChangeSets({}, {}, {}, {}, {}, {}, {}, {}, {}, {}, {}, {}, {})
    ensures SetsOf(map[], NOBODY) == Joined(false)
  {
    Singletons(ACI(1), Default);
  }

  lemma EmptyStep(g: Group, b: bool, revision: nat)
    requires SetsOf(map[], g) == Joined(b)
    ensures Sound(map[], g, EmptyChange(revision)) && SetsOf(map[], NextGroup(g, EmptyChange(revision))) == Joined(b)
  {
    hide NextGroup;
    hide ChangeSetsOf;
    hide SetsOf;
    hide EmptyChange;
    EmptySets(revision);
    PlainReplayable(g, EmptyChange(revision));
    NextGroupSets(map[], g, EmptyChange(revision));
  }

  lemma JoinStep(g: Group)
    requires SetsOf(map[], g) == Joined(false)
    ensures Sound(map[], g, Joins(g.revision + 1)) && SetsOf(map[], NextGroup(g, Joins(g.revision + 1))) == Joined(true)
  {
    hide NextGroup;
    hide ChangeSetsOf;
    hide SetsOf;
    var c := ChangeFor(InviteUser, ACI(1), Default, g.revision + 1);
    assert c == Joins(g.revision + 1);
    ActionRoundTrip(InviteUser, ACI(1), Default, g);
    BuiltSets(InviteUser, ACI(1), Default, g.revision + 1);
    NextGroupSets(map[], g, c);
  }

  lemma {:induction false} UneventfulGroup(n: nat, p: nat, k: nat)
    requires k <= n
    ensures var g := GroupAfter(NOBODY, Uneventful(n, p)[..k]); SetsOf(map[], g) == Joined(p < k) && g.revision == k
  {
    if k == 0 {
      EmptySets(0);
    } else {
      hide SetsOf;
      hide Sound;
      hide NextGroup;
      hide EmptyChange;
      hide GroupAfter;
      var h := Uneventful(n, p);
      UneventfulGroup(n, p, k - 1);
      GroupStep(NOBODY, h, k - 1);
      var g := GroupAt(NOBODY, h, k - 1);
      NextRevision(g, h[k - 1]);
      ChangeRevision(k);
      if k - 1 == p { JoinStep(g); } else { EmptyStep(g, p < k - 1, k); }
    }
  }

  lemma UneventfulSound(n: nat, p: nat, k: nat)
    requires k < n
    ensures Sound(map[], GroupAfter(NOBODY, Uneventful(n, p)[..k]), Uneventful(n, p)[k])
  {
    hide SetsOf;
    hide Sound;
    hide GroupAfter;
    UneventfulGroup(n, p, k);
    var g := GroupAfter(NOBODY, Uneventful(n, p)[..k]);
    if k == p { JoinStep(g); } else { EmptyStep(g, p < k, k + 1); }
  }

  lemma NextRevision(g: Group, c: GroupChange)
    ensures NextGroup(g, c).revision == c.revision
  {
  }

  lemma ChangeRevision(revision: nat)
    ensures EmptyChange(revision).revision == Joins(revision).revision == revision
  {
  }

  lemma UneventfulTruth(n: nat, p: nat)
    requires n < U32_LIMIT
    ensures Truth(map[], NOBODY, Uneventful(n, p))
  {
    hide Sound;
    hide EmptyChange;
    var h := Uneventful(n, p);
    forall i | 0 <= i < n
      ensures h[i].revision == i + 1 && Sound(map[], GroupAfter(NOBODY, h[..i]), h[i])
    {
      UneventfulSound(n, p, i);
      ChangeRevision(i + 1);
    }
  }

  lemma NothingHappens(room: Room, revision: nat, u: ServiceID)
    ensures At(SyncChanges(room, ChangeMap(map[], EmptyChange(revision))), u) == At(room, u)
  {
    hide ChangeMap;
    hide ChangeSetsOf;
    hide EmptyChange;
    EmptySets(revision);
    NothingShadowed(EmptyChange(revision));
    UnshadowedEffects(map[], EmptyChange(revision), u);
  }

  predicate OnlyEmpty(page: seq<PageEntry>) {
    forall i :: 0 <= i < |page| && page[i].convertible ==> page[i].change == EmptyChange(page[i].change.revision)
  }

  lemma {:induction false} EmptyReplay(st: PortalState, page: seq<PageEntry>, to: nat, u: ServiceID)
    requires OnlyEmpty(page)
    ensures At(Replay(map[], st, page, to).room, u) == At(st.room, u)
    decreases |page|
  {
    hide SyncChanges;
    hide ChangeMap;
    hide EmptyChange;
    if page != [] {
      var next := ProcessEntry(map[], st, page[0]);
      NothingHappens(st.room, page[0].change.revision, u);
      EmptyReplay(next, page[1..], to, u);
    }
  }

  /** A change that is processed lifts the revision to its own. */
  lemma {:induction false} ReplayReaches(alias: Aliases, st: PortalState, page: seq<PageEntry>, to: nat, j: nat)
    requires j < |page| && page[j].convertible && !StoppedBefore(page, to, j)
    ensures Replay(alias, st, page, to).revision >= page[j].change.revision
    decreases |page|
  {
    hide SyncChanges;
    hide ChangeMap;
    var next := ProcessEntry(alias, st, page[0]);
    if j == 0 {
      ReplayKeepsRevision(alias, next, page[1..], to);
    } else {
      assert page[0].change.revision != to;
      forall i | 0 <= i < j - 1
        ensures page[1..][i].change.revision != to
      {
        assert page[i + 1].change.revision != to;
      }
      ReplayReaches(alias, next, page[1..], to, j - 1);
    }
  }

  /** Whenever a change that can't be converted comes before one that can, there is a history for which the room
      is wrong afterwards: the person who joined with the first is missing, and won't be caught up on. */
  lemma SkippedJoin(v: nat, flags: seq<bool>, to: nat, i: nat, j: nat) returns (h: seq<GroupChange>, st: PortalState)
    requires 0 < v < to && v + |flags| < U32_LIMIT && i < j < Min(|flags|, to - v) && !flags[i] && flags[j]
    ensures h == Uneventful(v + |flags|, v + i) && st == PortalState(v, map[], [])
            && Asks(map[], NOBODY, h, st, v, flags)
    ensures !Synced(map[], NOBODY, h, Replay(map[], st, PageWith(h, v, flags), to))
  {
    hide Replay;
    hide SetsOf;
    hide GroupAfter;
    hide Shows;
    hide Truth;
    var n, p := v + |flags|, v + i;
    h := Uneventful(n, p);
    st := PortalState(v, map[], []);
    UneventfulTruth(n, p);
    UneventfulGroup(n, p, v);
    EmptyRoomShows(GroupAt(NOBODY, h, v));
    var page := PageWith(h, v, flags);
    JoinIsMissed(h, st, page, n, p, v, to, j);
  }

  /** For example, at revision 1: somebody joins with revision 2, which can't be converted, and revision 3 can. */
  lemma SkippedJoinExample()
    ensures var h := [EmptyChange(1), Joins(2), EmptyChange(3)];
            var st := PortalState(1, map[], []);
            var page := [PageEntry(Joins(2), false), PageEntry(EmptyChange(3), true)];
            && Truth(map[], NOBODY, h) && Synced(map[], NOBODY, h, st) && PageOf(h, page, 1, 3)
            && !Synced(map[], NOBODY, h, Replay(map[], st, page, 3))
  {
    hide Truth;
    hide Synced;
    hide Replay;
    hide EmptyChange;
    var h, st := SkippedJoin(1, [false, true], 3, 0, 1);
    assert h == [EmptyChange(1), Joins(2), EmptyChange(3)];
    assert PageWith(h, 1, [false, true]) == [PageEntry(Joins(2), false), PageEntry(EmptyChange(3), true)];
  }

  lemma JoinIsMissed(h: seq<GroupChange>, st: PortalState, page: seq<PageEntry>, n: nat, p: nat, v: nat, to: nat,
                     j: nat)
    requires v <= p < v + j < n && h == Uneventful(n, p) && At(st.room, ACI(1)) == Leave && v + j < to
    requires |page| == n - v && (forall m :: 0 <= m < |page| ==> page[m].change == h[v + m])
    requires page[j].convertible && !page[p - v].convertible
    ensures !Synced(map[], NOBODY, h, Replay(map[], st, page, to))
  {
    hide Replay;
    hide SetsOf;
    var next := Replay(map[], st, page, to);
    forall m | 0 <= m < |page|
      ensures page[m].change.revision == v + m + 1
      ensures page[m].convertible ==> page[m].change == EmptyChange(page[m].change.revision)
    {
      ChangeRevision(v + m + 1);
    }
    EmptyReplay(st, page, to, ACI(1));
    ReplayReaches(map[], st, page, to, j);
    if next.revision <= n {
      UneventfulGroup(n, p, next.revision);
      FullMapView(map[], GroupAt(NOBODY, h, next.revision), ACI(1));
      assert At(FullRoom(map[], GroupAt(NOBODY, h, next.revision)), ACI(1)) == Join;
    }
  }

  /** Catching up through a page with these conversion results leaves the room right whatever the history was,
      exactly if the changes that fail are the last ones looked at. */
  lemma SkippingExactly(v: nat, flags: seq<bool>, to: nat)
    requires 0 < v < to && v + |flags| < U32_LIMIT
    ensures OnlyTailFails(flags, Min(|flags|, to - v))
            <==> forall alias, g0, h, st :: Asks(alias, g0, h, st, v, flags) ==>
                   Synced(alias, g0, h, Replay(alias, st, PageWith(h, v, flags), to))
  {
    hide Replay;
    hide Synced;
    hide Asks;
    if OnlyTailFails(flags, Min(|flags|, to - v)) {
      forall alias, g0, h, st | Asks(alias, g0, h, st, v, flags)
        ensures v + |flags| <= |h| && Synced(alias, g0, h, Replay(alias, st, PageWith(h, v, flags), to))
      {
        AsksLength(alias, g0, h, st, v, flags);
        TailIsHarmless(alias, g0, h, st, v, flags, to);
      }
    } else {
      var i, j :| 0 <= i < j < Min(|flags|, to - v) && flags[j] && !flags[i];
      var h, st := SkippedJoin(v, flags, to, i, j);
    }
  }

  /** The page as it is asked for starts with the change the portal is already at. */
  function PageRepeating(h: seq<GroupChange>, v: nat, first: bool, flags: seq<bool>): seq<PageEntry>
    requires 0 < v && v + |flags| <= |h|
  {
    [PageEntry(h[v - 1], first)] + PageWith(h, v, flags)
  }

  lemma RepeatingTailIsHarmless(alias: Aliases, g0: Group, h: seq<GroupChange>, st: PortalState,
                                v: nat, first: bool, flags: seq<bool>, to: nat)
    requires Asks(alias, g0, h, st, v, flags) && 0 < v < to && OnlyTailFails(flags, Min(|flags|, to - v))
    ensures Synced(alias, g0, h, Replay(alias, st, PageRepeating(h, v, first, flags), to))
  {
    hide Replay;
    hide Synced;
    hide History;
    TailIsOrderly(h, v, flags, to);
    var page := PageRepeating(h, v, first, flags);
    hide OnlyTailFails;
    hide Orderly;
    assert PageOf(h, page, v - 1, v + |flags|);
    assert NewPart(page, v) == PageWith(h, v, flags);
    ReplayFollowsOverlap(alias, g0, h, st, page, v + |flags|, to, Leading(flags));
  }

  lemma RepeatingSkippedJoin(v: nat, first: bool, flags: seq<bool>, to: nat, i: nat, j: nat)
      returns (h: seq<GroupChange>, st: PortalState)
    requires 0 < v < to && v + |flags| < U32_LIMIT && i < j < Min(|flags|, to - v) && !flags[i] && flags[j]
    ensures Asks(map[], NOBODY, h, st, v, flags)
    ensures !Synced(map[], NOBODY, h, Replay(map[], st, PageRepeating(h, v, first, flags), to))
  {
    hide Synced;
    hide Asks;
    h, st := SkippedJoin(v, flags, to, i, j);
    var page := PageRepeating(h, v, first, flags);
    var next := ProcessEntry(map[], st, page[0]);
    assert page[1..] == PageWith(h, v, flags) && h[v - 1] == EmptyChange(v);
    FirstReplayed(st, page, to, v);
    NothingHappens(st.room, v, ACI(1));
    JoinIsMissed(h, next, page[1..], v + |flags|, v + i, v, to, j);
  }

  lemma FirstReplayed(st: PortalState, page: seq<PageEntry>, to: nat, v: nat)
    requires page != [] && page[0].change == EmptyChange(v) && v < to
    ensures Replay(map[], st, page, to) == Replay(map[], ProcessEntry(map[], st, page[0]), page[1..], to)
  {
    hide Process;
    ChangeRevision(v);
  }

  /** The same for pages that repeat the portal's last change, whether that one can be converted or not. */
  lemma RepeatingSkippingExactly(v: nat, first: bool, flags: seq<bool>, to: nat)
    requires 0 < v < to && v + |flags| < U32_LIMIT
    ensures OnlyTailFails(flags, Min(|flags|, to - v))
            <==> forall alias, g0, h, st :: Asks(alias, g0, h, st, v, flags) ==>
                   Synced(alias, g0, h, Replay(alias, st, PageRepeating(h, v, first, flags), to))
  {
    hide Replay;
    hide Synced;
    hide Asks;
    if OnlyTailFails(flags, Min(|flags|, to - v)) {
      forall alias, g0, h, st | Asks(alias, g0, h, st, v, flags)
        ensures v + |flags| <= |h| && Synced(alias, g0, h, Replay(alias, st, PageRepeating(h, v, first, flags), to))
      {
        AsksLength(alias, g0, h, st, v, flags);
        RepeatingTailIsHarmless(alias, g0, h, st, v, first, flags, to);
      }
    } else {
      var i, j :| 0 <= i < j < Min(|flags|, to - v) && flags[j] && !flags[i];
      var h, st := RepeatingSkippedJoin(v, first, flags, to, i, j);
    }
  }

  lemma AsksLength(alias: Aliases, g0: Group, h: seq<GroupChange>, st: PortalState, v: nat, flags: seq<bool>)
    requires Asks(alias, g0, h, st, v, flags)
    ensures v + |flags| <= |h|
  {
  }
}
