/**
 The group cache over a whole run, and the snapshots it serves.
 */
module GroupCache {
  import opened Options
  import opened GroupModel
  import opened GroupSync
  import opened GroupAgreement
  import opened GroupReplay
  import opened GroupCatchUp
  import opened GroupRuns
  import opened GroupSkips

  /** The group is one the history really went through. */
  ghost predicate Real(g0: Group, h: seq<GroupChange>, entry: Option<Group>) {
    entry.Some? ==> entry.value.revision <= |h| && entry.value == GroupAt(g0, h, entry.value.revision)
  }

  datatype CacheEvent = Updated(c: GroupChange, endorsed: bool) | Fetched(g: Group, endorsed: bool) | Dropped

  function CacheStep(entry: Option<Group>, event: CacheEvent): Option<Group> {
    match event
    case Updated(c, endorsed) => CacheUpdated(entry, c, endorsed)
    case Fetched(g, endorsed) => CachePut(entry, g, endorsed)
    case Dropped => None
  }

  /** Changes and groups come from the history, in any order. */
  ghost predicate FromHistory(g0: Group, h: seq<GroupChange>, event: CacheEvent) {
    match event
    case Updated(c, _) => 1 <= c.revision <= |h| && c == h[c.revision - 1]
    case Fetched(g, _) => Real(g0, h, Some(g))
    case Dropped => true
  }

  function CacheRun(entry: Option<Group>, run: seq<CacheEvent>): Option<Group> {
    if run == [] then entry else CacheStep(CacheRun(entry, run[..|run| - 1]), run[|run| - 1])
  }

  lemma CacheStepIsReal(alias: Aliases, g0: Group, h: seq<GroupChange>, entry: Option<Group>, event: CacheEvent)
    requires Truth(alias, g0, h) && Real(g0, h, entry) && FromHistory(g0, h, event)
    ensures Real(g0, h, CacheStep(entry, event))
  {
    hide NextGroup;
    hide GroupAfter;
    hide History;
    if event.Updated? && entry.Some? && entry.value.revision + 1 == event.c.revision {
      GroupStep(g0, h, entry.value.revision);
      GroupRevision(alias, g0, h, event.c.revision);
    }
  }

  /** Whatever changes and groups arrive in whatever order, stale ones, gaps and failures included, the cache holds
      nothing or exactly the group of its entry's revision. */
  lemma {:induction false} CacheFollowsHistory(alias: Aliases, g0: Group, h: seq<GroupChange>, entry: Option<Group>,
                                               run: seq<CacheEvent>)
    requires Truth(alias, g0, h) && Real(g0, h, entry)
    requires forall i :: 0 <= i < |run| ==> FromHistory(g0, h, run[i])
    ensures Real(g0, h, CacheRun(entry, run))
  {
    hide Truth;
    hide Real;
    hide FromHistory;
    hide CacheStep;
    if run != [] {
      CacheFollowsHistory(alias, g0, h, entry, run[..|run| - 1]);
      CacheStepIsReal(alias, g0, h, CacheRun(entry, run[..|run| - 1]), run[|run| - 1]);
    }
  }

  /** An entry's revision only ever grows, and it is as new as the last group that was put into the cache. */
  lemma CacheNeverGoesBack(entry: Option<Group>, event: CacheEvent)
    ensures var after := CacheStep(entry, event);
            && (entry.Some? && after.Some? ==> after.value.revision >= entry.value.revision)
            && (event.Fetched? && event.endorsed ==>
                  after.Some? && after.value.revision >= event.g.revision && after in {Some(event.g), entry})
            && (event.Fetched? && !event.endorsed ==> after == entry)
            && (event.Updated? && after.Some? ==> after == entry || after.value.revision == event.c.revision)
  {
    hide NextGroup;
    if event.Updated? && entry.Some? {
      NextRevision(entry.value, event.c);
    }
  }

  /** A group that is retrieved is always a real one. It is as new as asked for exactly if it isn't an old entry that
      the fetched group couldn't replace. */
  lemma RetrieveExactly(g0: Group, h: seq<GroupChange>, entry: Option<Group>, asked: nat, usable: bool,
                        fetched: Option<Group>, endorsed: bool, usableAfter: bool)
    requires Real(g0, h, entry) && Real(g0, h, fetched) && (fetched.Some? ==> fetched.value.revision >= asked)
    ensures var g := Retrieved(entry, asked, usable, fetched, endorsed, usableAfter);
            && Real(g0, h, g)
            && (g.None? <==> fetched.None? && !(entry.Some? && usable && entry.value.revision >= asked))
            && (g.Some? ==>
                  (g.value.revision >= asked
                   <==> !(entry.Some? && entry.value.revision < asked && !endorsed && usableAfter)))
  {
  }

  /** A portal at revision 2, whose page request fails, asks for revision 3 of a group with one member since
      revision 2. The cache still has revision 1 and can't take the fetched group, so revision 1 is served, and the
      member disappears from the room. */
  lemma StaleSnapshotEmptiesRoom()
    ensures var h := Uneventful(3, 1);
            var old1, new3 := GroupAt(NOBODY, h, 1), GroupAt(NOBODY, h, 3);
            var st := PortalState(2, map[ACI(1) := Join], []);
            var served := Retrieved(Some(old1), 3, true, Some(new3), false, true);
            && Truth(map[], NOBODY, h) && Synced(map[], NOBODY, h, st) && served == Some(old1)
            && !Synced(map[], NOBODY, h, CatchUp(map[], st, 2, 3, Answers(None, served)))
  {
    hide GroupAfter;
    hide SetsOf;
    hide FullMap;
    hide Truth;
    hide Uneventful;
    var h := Uneventful(3, 1);
    UneventfulTruth(3, 1);
    UneventfulGroup(3, 1, 1);
    UneventfulGroup(3, 1, 2);
    forall u
      ensures At(FullRoom(map[], GroupAt(NOBODY, h, 2)), u) == if u == ACI(1) then Join else Leave
      ensures At(FullRoom(map[], GroupAt(NOBODY, h, 1)), u) == Leave
    {
      FullMapView(map[], GroupAt(NOBODY, h, 1), u);
      FullMapView(map[], GroupAt(NOBODY, h, 2), u);
    }
    assert At(FullRoom(map[], GroupAt(NOBODY, h, 1)), ACI(1)) != At(FullRoom(map[], GroupAt(NOBODY, h, 2)), ACI(1));
    SnapshotExactly(map[], NOBODY, h, PortalState(2, map[ACI(1) := Join], []), 1);
  }
}
