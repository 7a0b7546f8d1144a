/**
 A portal that follows a group over a whole run: with a truthful server its room always shows the
 group at the portal's revision.
 */
module GroupRuns {
  import opened Options
  import opened GroupModel
  import opened GroupSync
  import opened GroupReplay
  import opened GroupCatchUp

  /** The changes a group really went through, numbered from one. Each fits the group it was made to. */
  ghost predicate Truth(alias: Aliases, g0: Group, h: seq<GroupChange>) {
    && g0.revision == 0 && |h| < U32_LIMIT
    && (forall i :: 0 <= i < |h| ==> h[i].revision == i + 1)
    && History(alias, g0, h)
  }

  function GroupAt(g0: Group, h: seq<GroupChange>, k: nat): Group
    requires k <= |h|
  {
    GroupAfter(g0, h[..k])
  }

  /** The room shows the group as it was at the portal's revision. */
  ghost predicate Synced(alias: Aliases, g0: Group, h: seq<GroupChange>, st: PortalState) {
    st.revision <= |h| && Shows(alias, st.room, GroupAt(g0, h, st.revision))
  }

  lemma GroupStep(g0: Group, h: seq<GroupChange>, k: nat)
    requires k < |h|
    ensures GroupAt(g0, h, k + 1) == NextGroup(GroupAt(g0, h, k), h[k])
  {
    assert h[..k + 1][..k] == h[..k];
  }

  lemma GroupRevision(alias: Aliases, g0: Group, h: seq<GroupChange>, k: nat)
    requires Truth(alias, g0, h) && k <= |h|
    ensures GroupAt(g0, h, k).revision == k
  {
    if k > 0 {
      GroupStep(g0, h, k - 1);
    }
  }

  /******* Single changes *******/

  lemma ApplyNext(alias: Aliases, g0: Group, h: seq<GroupChange>, st: PortalState)
    requires Truth(alias, g0, h) && Synced(alias, g0, h, st) && st.revision < |h|
    ensures var next := Process(alias, st, st.revision + 1, h[st.revision]);
            Synced(alias, g0, h, next) && next.revision == st.revision + 1
  {
    hide SyncChanges;
    hide ChangeMap;
    hide Shows;
    hide Sound;
    hide NextGroup;
    var k := st.revision;
    GroupStep(g0, h, k);
    assert Sound(alias, GroupAt(g0, h, k), h[k]);
    HistoryStep(alias, GroupAt(g0, h, k), h[k], st.room);
  }

  lemma SyncSameRoom(a: Room, b: Room, mc: MemberMap)
    requires SameRoom(a, b)
    ensures SameRoom(SyncChanges(a, mc), SyncChanges(b, mc))
  {
    forall u
      ensures At(SyncChanges(a, mc), u) == At(SyncChanges(b, mc), u)
    {
      assert At(a, u) == At(b, u);
    }
  }

  /** Processing the change that led to the current group once more is harmless. */
  lemma Reapply(alias: Aliases, g: Group, c: GroupChange, room: Room)
    requires Sound(alias, g, c) && Shows(alias, room, NextGroup(g, c))
    ensures Shows(alias, SyncChanges(room, ChangeMap(alias, c)), NextGroup(g, c))
  {
    hide ChangeMap;
    hide NextGroup;
    hide FullRoom;
    hide SyncChanges;
    hide Sound;
    var full, mc := FullRoom(alias, g), ChangeMap(alias, c);
    HistoryStep(alias, g, c, full);
    SyncSameRoom(room, SyncChanges(full, mc), mc);
    SyncTwice(full, mc);
  }

  lemma ApplyLastAgain(alias: Aliases, g0: Group, h: seq<GroupChange>, st: PortalState)
    requires Truth(alias, g0, h) && Synced(alias, g0, h, st) && st.revision > 0
    ensures var next := Process(alias, st, st.revision, h[st.revision - 1]);
            Synced(alias, g0, h, next) && next.revision == st.revision
  {
    hide SyncChanges;
    hide ChangeMap;
    hide Shows;
    hide Sound;
    hide NextGroup;
    var k := st.revision - 1;
    GroupStep(g0, h, k);
    assert Sound(alias, GroupAt(g0, h, k), h[k]);
    Reapply(alias, GroupAt(g0, h, k), h[k], st.room);
  }

  /******* Catching up *******/

  /** A page of the real history. Any of its changes may fail to be converted. */
  ghost predicate PageOf(h: seq<GroupChange>, page: seq<PageEntry>, lo: nat, hi: nat) {
    && lo <= hi <= |h| && |page| == hi - lo
    && forall i :: 0 <= i < |page| ==> page[i].change == h[lo + i]
  }

  /** The replay has come to its target before this entry. */
  predicate StoppedBefore(page: seq<PageEntry>, to: nat, i: nat)
    requires i <= |page|
  {
    exists j :: 0 <= j < i && page[j].change.revision == to
  }

  /** The first k changes can be converted, and none of the others that are looked at. So no change is passed
      over for a later one. */
  predicate Orderly(page: seq<PageEntry>, to: nat, k: nat) {
    && k <= |page| && (forall i :: 0 <= i < k ==> page[i].convertible)
    && (forall i :: k <= i < |page| && page[i].convertible ==> StoppedBefore(page, to, i))
  }

  /** Changes that can't be converted at the end of a page are as good as missing. */
  lemma {:induction false} ReplayPrefix(alias: Aliases, st: PortalState, page: seq<PageEntry>, to: nat, k: nat)
    requires k <= |page| && forall i :: k <= i < |page| && page[i].convertible ==> StoppedBefore(page, to, i)
    ensures Replay(alias, st, page, to) == Replay(alias, st, page[..k], to)
    decreases |page|
  {
    hide Process;
    if page != [] && page[0].change.revision != to {
      var next := ProcessEntry(alias, st, page[0]);
      var rest, k' := page[1..], if k == 0 then 0 else k - 1;
      forall i | k' <= i < |rest| && rest[i].convertible
        ensures StoppedBefore(rest, to, i)
      {
        assert page[i + 1].convertible && StoppedBefore(page, to, i + 1);
        var j :| 0 <= j < i + 1 && page[j].change.revision == to;
        assert rest[j - 1].change.revision == to;
      }
      ReplayPrefix(alias, next, rest, to, k');
      if k > 0 {
        assert page[..k][1..] == rest[..k'];
      }
    }
  }

  function Min(a: nat, b: nat): nat { if a < b then a else b }

  /** The changes after one revision up to another. */
  function Missed(h: seq<GroupChange>, from: nat, to: nat): seq<GroupChange> {
    if from <= to <= |h| then h[from..to] else []
  }

  lemma {:induction false} ConvertibleFollows(alias: Aliases, g0: Group, h: seq<GroupChange>, st: PortalState,
                                              page: seq<PageEntry>, hi: nat, to: nat)
    requires Truth(alias, g0, h) && Synced(alias, g0, h, st)
    requires st.revision < to && PageOf(h, page, st.revision, hi)
    requires forall i :: 0 <= i < |page| ==> page[i].convertible
    ensures var next := Replay(alias, st, page, to);
            && Synced(alias, g0, h, next) && next.revision == Min(to, hi)
            && next.processed == st.processed + Missed(h, st.revision, Min(to, hi))
    decreases |page|
  {
    hide SyncChanges;
    hide ChangeMap;
    hide Synced;
    hide Truth;
    var k := st.revision;
    if page != [] {
      assert page[0] == PageEntry(h[k], true) && h[k].revision == k + 1 by { PageRevision(alias, g0, h, k); }
      ApplyNext(alias, g0, h, st);
      var next := Process(alias, st, k + 1, h[k]);
      if k + 1 == to {
        assert h[k..k + 1] == [h[k]];
      } else {
        ConvertibleFollows(alias, g0, h, next, page[1..], hi, to);
        assert [h[k]] + h[k + 1..Min(to, hi)] == h[k..Min(to, hi)];
        Appended(st.processed, [h[k]], h[k + 1..Min(to, hi)]);
      }
    }
  }

  /** A page that starts right after the portal's revision is applied in order up to the target, or to its first
      change that can't be converted, or to its end. */
  lemma ReplayFollows(alias: Aliases, g0: Group, h: seq<GroupChange>, st: PortalState,
                      page: seq<PageEntry>, hi: nat, to: nat, k: nat)
    requires Truth(alias, g0, h) && Synced(alias, g0, h, st)
    requires st.revision < to && PageOf(h, page, st.revision, hi) && Orderly(page, to, k)
    ensures var next := Replay(alias, st, page, to);
            && Synced(alias, g0, h, next) && next.revision == Min(to, st.revision + k)
            && next.processed == st.processed + Missed(h, st.revision, Min(to, st.revision + k))
  {
    hide Synced;
    hide Truth;
    hide Replay;
    ReplayPrefix(alias, st, page, to, k);
    ConvertibleFollows(alias, g0, h, st, page[..k], st.revision + k, to);
  }

  lemma PageRevision(alias: Aliases, g0: Group, h: seq<GroupChange>, k: nat)
    requires Truth(alias, g0, h) && k < |h|
    ensures h[k].revision == k + 1
  {
  }

  /** The part of a page that is new to a portal at a revision, and what the page repeats if it can be converted. */
  function NewPart(page: seq<PageEntry>, from: nat): seq<PageEntry> {
    if page != [] && page[0].change.revision <= from then page[1..] else page
  }

  function Repeated(page: seq<PageEntry>, from: nat): seq<GroupChange> {
    if page != [] && page[0].change.revision <= from && page[0].convertible then [page[0].change] else []
  }

  /** The same for a page that may repeat the change the portal is already at. That change is then processed
      again if it can be converted, and it doesn't matter if it can't. */
  lemma ReplayFollowsOverlap(alias: Aliases, g0: Group, h: seq<GroupChange>, st: PortalState,
                             page: seq<PageEntry>, hi: nat, to: nat, k: nat)
    requires Truth(alias, g0, h) && Synced(alias, g0, h, st)
    requires 0 < st.revision < to && st.revision <= hi && PageFrom(h, page, st.revision, hi)
    requires Orderly(NewPart(page, st.revision), to, k)
    ensures var next := Replay(alias, st, page, to);
            && Synced(alias, g0, h, next) && next.revision == Min(to, st.revision + k)
            && next.processed
               == st.processed + Repeated(page, st.revision) + Missed(h, st.revision, Min(to, st.revision + k))
  {
    hide SyncChanges;
    hide ChangeMap;
    hide Synced;
    hide Truth;
    hide Orderly;
    var v := st.revision;
    PageStart(alias, g0, h, page, v, hi);
    if PageOf(h, page, v, hi) {
      ReplayFollows(alias, g0, h, st, page, hi, to, k);
      assert st.processed + [] == st.processed;
    } else {
      ApplyLastAgain(alias, g0, h, st);
      ReplayFollows(alias, g0, h, ProcessEntry(alias, st, page[0]), page[1..], hi, to, k);
      assert st.processed + [] == st.processed;
    }
  }

  lemma PageStart(alias: Aliases, g0: Group, h: seq<GroupChange>, page: seq<PageEntry>, from: nat, hi: nat)
    requires Truth(alias, g0, h) && 0 < from <= hi && PageFrom(h, page, from, hi)
    ensures PageOf(h, page, from, hi) ==> NewPart(page, from) == page && Repeated(page, from) == []
    ensures !PageOf(h, page, from, hi) ==>
              && page != [] && page[0].change == h[from - 1] && h[from - 1].revision == from
              && PageOf(h, page[1..], from, hi)
  {
    hide History;
    if PageOf(h, page, from, hi) {
      assert page != [] ==> page[0].change.revision == from + 1;
    }
  }

  ghost predicate PageFrom(h: seq<GroupChange>, page: seq<PageEntry>, from: nat, hi: nat)
    requires from > 0
  {
    PageOf(h, page, from, hi) || PageOf(h, page, from - 1, hi)
  }

  /** Truthful answers: a history page from the asked revision on, which may stop early and may repeat
      the asked revision, and full info that isn't older than what the portal is at. Requests may also fail. */
  ghost predicate Truthful(g0: Group, h: seq<GroupChange>, at: nat, from: nat, ans: Answers) {
    && (ans.page.Some? && from > 0 ==>
          exists hi :: from <= hi && PageFrom(h, ans.page.value, from, hi))
    && (ans.full.Some? ==> exists k :: at <= k <= |h| && ans.full.value == GroupAt(g0, h, k))
  }

  /** No change of the answered page is passed over for a later one. */
  ghost predicate NothingSkipped(from: nat, to: nat, ans: Answers) {
    ans.page.Some? ==> exists k :: Orderly(NewPart(ans.page.value, from), to, k)
  }

  lemma ResyncFollows(alias: Aliases, g0: Group, h: seq<GroupChange>, st: PortalState, k: nat)
    requires Truth(alias, g0, h) && st.revision <= k <= |h|
    ensures var next := Resync(alias, st, GroupAt(g0, h, k)); Synced(alias, g0, h, next) && next.revision == k
  {
    GroupRevision(alias, g0, h, k);
  }

  /** A snapshot of the real history leaves the portal synced exactly if it isn't older than what the portal is at,
      or makes no difference to the room. */
  lemma SnapshotExactly(alias: Aliases, g0: Group, h: seq<GroupChange>, st: PortalState, k: nat)
    requires Truth(alias, g0, h) && st.revision <= |h| && k <= |h|
    ensures Synced(alias, g0, h, Resync(alias, st, GroupAt(g0, h, k)))
            <==> k >= st.revision || Shows(alias, FullRoom(alias, GroupAt(g0, h, k)), GroupAt(g0, h, st.revision))
  {
    hide FullRoom;
    GroupRevision(alias, g0, h, k);
  }

  lemma {:induction false} CatchUpFollows(alias: Aliases, g0: Group, h: seq<GroupChange>, st: PortalState,
                                          from: nat, to: nat, ans: Answers)
    requires Truth(alias, g0, h) && Synced(alias, g0, h, st)
    requires from == st.revision || from == 0
    requires st.revision <= to && Truthful(g0, h, st.revision, from, ans)
    requires (from > 0 ==> NothingSkipped(from, to, ans))
    ensures Synced(alias, g0, h, CatchUp(alias, st, from, to, ans))
    decreases from
  {
    hide Shows;
    hide Truth;
    hide Replay;
    hide Resync;
    if 0 == from < to {
      if ans.full.Some? {
        var k :| st.revision <= k <= |h| && ans.full.value == GroupAt(g0, h, k);
        ResyncFollows(alias, g0, h, st, k);
      }
    } else if 0 < from < to {
      if ans.page.None? {
        CatchUpFollows(alias, g0, h, st, 0, to, ans);
      } else {
        hide Orderly;
        var hi :| from <= hi && PageFrom(h, ans.page.value, from, hi);
        var k :| Orderly(NewPart(ans.page.value, from), to, k);
        ReplayFollowsOverlap(alias, g0, h, st, ans.page.value, hi, to, k);
      }
    }
  }

  /******* Events *******/

  /** An event about a revision the group has reached, whose change, if it has one, is the real one. */
  ghost predicate Genuine(h: seq<GroupChange>, evt: GroupEvent) {
    && evt.revision <= |h|
    && (evt.decrypted.Some? ==>
          var c := evt.decrypted.value; 1 <= c.revision <= |h| && c == h[c.revision - 1])
  }

  /** A genuine event with truthful answers, where nothing is skipped when the portal catches up. */
  ghost predicate Trusted(g0: Group, h: seq<GroupChange>, st: PortalState, evt: GroupEvent, ans: Answers) {
    && Genuine(h, evt)
    && (evt.revision > st.revision ==>
          && Truthful(g0, h, st.revision, st.revision, ans)
          && (st.revision > 0 ==> NothingSkipped(st.revision, CatchUpTarget(evt), ans)))
  }

  lemma PreHandleKeepsSync(alias: Aliases, g0: Group, h: seq<GroupChange>, st: PortalState, evt: GroupEvent,
                           ans: Answers)
    requires Truth(alias, g0, h) && Synced(alias, g0, h, st) && Trusted(g0, h, st, evt, ans)
    ensures Synced(alias, g0, h, PreHandle(alias, st, evt, ans))
  {
    hide Synced;
    hide Truth;
    hide CatchUp;
    if evt.revision > st.revision {
      CatchUpFollows(alias, g0, h, st, st.revision, CatchUpTarget(evt), ans);
    }
  }

  lemma OwnChangeKeepsSync(alias: Aliases, g0: Group, h: seq<GroupChange>, st: PortalState, evt: GroupEvent)
    requires Truth(alias, g0, h) && Synced(alias, g0, h, st) && Genuine(h, evt)
    ensures var c := OwnChange(st, evt);
            c.Some? ==> && st.revision < |h| && c.value == h[st.revision] && evt.envelopeRevision == st.revision + 1
                        && Synced(alias, g0, h, Process(alias, st, evt.envelopeRevision, c.value))
  {
    hide Shows;
    hide Process;
    hide History;
    hide GroupAt;
    if OwnChange(st, evt).Some? {
      assert st.revision + 1 <= U32_LIMIT;
      assert OwnChange(st, evt).value == h[st.revision];
      ApplyNext(alias, g0, h, st);
    }
  }

  /** Handling an event keeps the room in step with the portal's revision. */
  lemma EventKeepsSync(alias: Aliases, g0: Group, h: seq<GroupChange>, st: PortalState, evt: GroupEvent, ans: Answers)
    requires Truth(alias, g0, h) && Synced(alias, g0, h, st) && Trusted(g0, h, st, evt, ans)
    ensures Synced(alias, g0, h, HandleEvent(alias, st, evt, ans))
  {
    hide Synced;
    hide Truth;
    hide Process;
    hide PreHandle;
    PreHandleKeepsSync(alias, g0, h, st, evt, ans);
    OwnChangeKeepsSync(alias, g0, h, PreHandle(alias, st, evt, ans), evt);
  }

  /** The event has a change of its own that is the one after this revision, and nothing keeps it from being
      applied. */
  ghost predicate Lands(evt: GroupEvent, revision: nat) {
    && evt.isInfoChange && evt.carriesChange && evt.convertible && evt.decrypted.Some?
    && evt.envelopeRevision == evt.decrypted.value.revision == revision + 1
  }

  lemma PreHandleCatchesUp(alias: Aliases, g0: Group, h: seq<GroupChange>, st: PortalState,
                           evt: GroupEvent, ans: Answers, hi: nat, k: nat)
    requires Truth(alias, g0, h) && Synced(alias, g0, h, st)
    requires 0 < st.revision < evt.revision <= |h| && st.revision <= hi
    requires ans.page.Some? && PageFrom(h, ans.page.value, st.revision, hi)
    requires Orderly(NewPart(ans.page.value, st.revision), CatchUpTarget(evt), k)
    ensures var mid, v, to := PreHandle(alias, st, evt, ans), st.revision, CatchUpTarget(evt);
            && Synced(alias, g0, h, mid) && mid.revision == Min(to, v + k)
            && mid.processed
               == st.processed + (if v < to then Repeated(ans.page.value, v) else []) + Missed(h, v, Min(to, v + k))
  {
    hide Synced;
    hide Truth;
    hide Replay;
    hide Orderly;
    hide PageFrom;
    var v, to := st.revision, CatchUpTarget(evt);
    if v < to {
      ReplayFollowsOverlap(alias, g0, h, st, ans.page.value, hi, to, k);
    } else {
      assert v == to && h[v..v] == [];
      assert st.processed + [] + [] == st.processed;
    }
  }

  /** An event at a newer revision applies exactly the missed changes, once each and in order, up to its own
      revision, or up to the one before if it has change bytes. If the page is too short, or its end can't be
      converted, it applies what comes before that. The event's own change is then applied exactly if it lands on
      its direct predecessor: an event whose change can't be used leaves the portal one short. A page that
      repeats the portal's last change has it processed once more first. */
  lemma EventCatchesUp(alias: Aliases, g0: Group, h: seq<GroupChange>, st: PortalState,
                       evt: GroupEvent, ans: Answers, hi: nat, k: nat)
    requires Truth(alias, g0, h) && Synced(alias, g0, h, st) && Genuine(h, evt)
    requires 0 < st.revision < evt.revision && st.revision <= hi
    requires ans.page.Some? && PageFrom(h, ans.page.value, st.revision, hi)
    requires Orderly(NewPart(ans.page.value, st.revision), CatchUpTarget(evt), k)
    ensures var next, v := HandleEvent(alias, st, evt, ans), st.revision;
            var to := if evt.carriesChange then evt.revision - 1 else evt.revision;
            var reached := Min(to, v + k);
            var last := if Lands(evt, reached) then reached + 1 else reached;
            var again := if v < to then Repeated(ans.page.value, v) else [];
            && Synced(alias, g0, h, next) && next.revision == last
            && next.processed == st.processed + again + Missed(h, v, last)
  {
    hide PreHandle;
    hide Synced;
    hide Truth;
    hide OwnChange;
    hide PageFrom;
    hide Orderly;
    hide SyncChanges;
    hide ChangeMap;
    PreHandleCatchesUp(alias, g0, h, st, evt, ans, hi, k);
    var mid, v := PreHandle(alias, st, evt, ans), st.revision;
    OwnChangeKeepsSync(alias, g0, h, mid, evt);
    LandsExactly(alias, g0, h, mid, evt);
    if Lands(evt, mid.revision) {
      var again := if v < CatchUpTarget(evt) then Repeated(ans.page.value, v) else [];
      MissedNext(h, v, mid.revision);
      Appended(st.processed + again, Missed(h, v, mid.revision), [h[mid.revision]]);
    }
  }

  lemma MissedNext(h: seq<GroupChange>, from: nat, to: nat)
    requires from <= to < |h|
    ensures Missed(h, from, to + 1) == Missed(h, from, to) + [h[to]]
  {
  }

  /** The portal asks for a snapshot: it is behind the revision to catch up to, and has no revision yet or can't get
      a history page. */
  predicate AsksForSnapshot(st: PortalState, evt: GroupEvent, ans: Answers) {
    && st.revision < (if evt.carriesChange then evt.revision - 1 else evt.revision)
    && (st.revision == 0 || ans.page.None?)
  }

  lemma SnapshotAnswered(alias: Aliases, st: PortalState, evt: GroupEvent, ans: Answers)
    requires AsksForSnapshot(st, evt, ans)
    ensures PreHandle(alias, st, evt, ans) == if ans.full.None? then st else Resync(alias, st, ans.full.value)
  {
    hide Resync;
    var to := CatchUpTarget(evt);
    assert CatchUp(alias, st, 0, to, ans) == if ans.full.None? then st else Resync(alias, st, ans.full.value);
  }

  /** An event that makes a portal ask for a snapshot brings it to the snapshot's revision, whatever its room was
      before, without processing any change. Then its own change is applied exactly if it lands there. */
  lemma EventTakesSnapshot(alias: Aliases, g0: Group, h: seq<GroupChange>, st: PortalState,
                           evt: GroupEvent, ans: Answers, k: nat)
    requires Truth(alias, g0, h) && Genuine(h, evt) && AsksForSnapshot(st, evt, ans)
    requires st.revision <= k <= |h| && ans.full == Some(GroupAt(g0, h, k))
    ensures var next := HandleEvent(alias, st, evt, ans);
            && Synced(alias, g0, h, next) && next.revision == (if Lands(evt, k) then k + 1 else k)
            && next.processed == st.processed + Missed(h, k, if Lands(evt, k) then k + 1 else k)
  {
    hide Synced;
    hide OwnChange;
    hide SyncChanges;
    hide ChangeMap;
    hide History;
    hide GroupAt;
    ResyncFollows(alias, g0, h, st, k);
    var mid := Resync(alias, st, GroupAt(g0, h, k));
    SnapshotAnswered(alias, st, evt, ans);
    hide PreHandle;
    OwnChangeKeepsSync(alias, g0, h, mid, evt);
    LandsExactly(alias, g0, h, mid, evt);
    assert h[k..k] == [] && st.processed + [] == st.processed;
    if Lands(evt, k) {
      assert h[k..k + 1] == [h[k]];
    }
  }

  /** If there is no snapshot either, the portal stays where it is, unless the event's own change lands there. */
  lemma EventWithoutAnswers(alias: Aliases, st: PortalState, evt: GroupEvent, ans: Answers)
    requires AsksForSnapshot(st, evt, ans) && ans.full.None?
    ensures HandleEvent(alias, st, evt, ans)
            == if OwnChange(st, evt).Some? then Process(alias, st, evt.envelopeRevision, OwnChange(st, evt).value)
                else st
  {
    hide OwnChange;
    hide Process;
    SnapshotAnswered(alias, st, evt, ans);
  }

  lemma LandsExactly(alias: Aliases, g0: Group, h: seq<GroupChange>, mid: PortalState, evt: GroupEvent)
    requires Truth(alias, g0, h) && mid.revision <= |h| && Genuine(h, evt)
    ensures OwnChange(mid, evt).Some? <==> Lands(evt, mid.revision)
  {
    hide History;
  }

  /** An event whose change can't be decrypted, one revision ahead of the portal: nothing is caught up on. */
  lemma UnreadableChangeStopsShort(alias: Aliases, g0: Group, h: seq<GroupChange>, st: PortalState, ans: Answers)
    requires Truth(alias, g0, h) && Synced(alias, g0, h, st) && 0 < st.revision < |h|
    ensures HandleEvent(alias, st, GroupEvent(st.revision + 1, st.revision + 1, true, None, true, true), ans) == st
  {
  }

  /******* Runs *******/

  datatype Handled = Handled(evt: GroupEvent, ans: Answers)

  function Run(alias: Aliases, st: PortalState, run: seq<Handled>): PortalState {
    if run == [] then st
    else
      var last := run[|run| - 1];
      HandleEvent(alias, Run(alias, st, run[..|run| - 1]), last.evt, last.ans)
  }

  ghost predicate TrustedRun(alias: Aliases, g0: Group, h: seq<GroupChange>, st: PortalState, run: seq<Handled>) {
    forall i :: 0 <= i < |run| ==> Trusted(g0, h, Run(alias, st, run[..i]), run[i].evt, run[i].ans)
  }

  /** In any order of events, duplicates and stragglers included, with pages of any length and failing
      requests, the room always shows the group at the portal's revision, and that never drops. */
  lemma {:induction false} RunKeepsSync(alias: Aliases, g0: Group, h: seq<GroupChange>, st: PortalState,
                                        run: seq<Handled>)
    requires Truth(alias, g0, h) && Synced(alias, g0, h, st) && TrustedRun(alias, g0, h, st, run)
    ensures Synced(alias, g0, h, Run(alias, st, run))
    ensures Run(alias, st, run).revision >= st.revision
  {
    hide Synced;
    hide Truth;
    hide HandleEvent;
    if run != [] {
      var k := |run| - 1;
      forall i | 0 <= i < k
        ensures Trusted(g0, h, Run(alias, st, run[..k][..i]), run[..k][i].evt, run[..k][i].ans)
      {
        assert run[..k][..i] == run[..i];
      }
      RunKeepsSync(alias, g0, h, st, run[..k]);
      EventKeepsSync(alias, g0, h, Run(alias, st, run[..k]), run[k].evt, run[k].ans);
      RevisionNeverDrops(alias, Run(alias, st, run[..k]), run[k].evt, run[k].ans);
    }
  }
}
