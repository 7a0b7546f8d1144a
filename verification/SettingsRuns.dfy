/**
 Chat settings over runs that mix snapshots from Signal, resyncs of the room, and changes made in Matrix.
 */
module SettingsRuns {
  import opened Options
  import opened ChatSettings
  import opened SettingsSync

  /** Something that happens to a portal's settings, with the cached settings where they are looked at. A change
      made in Matrix that Signal refuses stores as little as one to a chat that the cache doesn't know. */
  datatype Event =
    | Snapped(settings: Settings, queued: bool, unreadQueued: bool)
    | Resynced(cached: Option<Settings>)
    | Muted(mute: int, cached: Option<Settings>, landed: Landed)
    | MarkedUnread(unread: bool, cached: Option<Settings>, landed: Landed)
    | Tagged(prev: Option<set<string>>, cur: Option<set<string>>, cached: Option<Settings>, landed: Landed)

  function Step(config: Config, view: View, event: Event, now: int): View {
    match event
    case Snapped(settings, queued, unreadQueued) => Bridge(config, view, settings, now, queued, unreadQueued)
    case Resynced(cached) => Resync(config, view, cached, now)
    case Muted(mute, cached, landed) => Written(view.(mute := mute), cached, MuteChange(config, mute, now), landed)
    case MarkedUnread(unread, cached, landed) =>
      Written(view.(unread := unread), cached, Change(None, None, Some(unread), None), landed)
    case Tagged(prev, cur, cached, landed) =>
      var change := TagChange(config.tags, prev, cur);
      if change.None? then view else Written(view.(tag := TagIn(config.tags, cur)), cached, change.value, landed)
  }

  /** Mutes have an end that Matrix can tell from none. */
  predicate Regular(config: Config, view: View, event: Event, now: int) {
    && Sensible(config.times, now)
    && match event
       case Snapped(settings, _, _) => !Clashes(config.times, settings)
       case Resynced(cached) => cached.Some? ==> !Clashes(config.times, cached.value)
       case Muted(mute, _, _) => Plain(config.times, mute, now)
       case MarkedUnread(_, _, _) => true
       case Tagged(_, _, _, _) => true
  }

  /** What mustn't be lost: an unread flag that isn't queued, a mute or tag that a resync would have to take
      away, another difference in the cache that a change made in Matrix covers up, or the change itself if it
      hasn't come to the cache. */
  predicate Harmless(config: Config, view: View, event: Event, now: int) {
    var was, tags := Seen(view.stored), config.tags;
    match event
    case Snapped(settings, queued, unreadQueued) => queued && was.markedUnread != settings.markedUnread ==> unreadQueued
    case Resynced(cached) =>
      cached.Some? ==>
        && (EffectiveMute(cached.value, now) == 0 ==> EffectiveMute(was, now) == 0)
        && (TagFor(tags, cached.value) == "" ==> TagFor(tags, was) == "")
    case Muted(mute, cached, landed) => HarmlessMute(config, was, mute, cached, landed, now)
    case MarkedUnread(unread, cached, landed) => HarmlessUnread(config, was, unread, cached, landed, now)
    case Tagged(prev, cur, cached, landed) =>
      var change := TagChange(tags, prev, cur);
      change.Some? ==> HarmlessTags(config, was, cur, change.value, cached, landed, now)
  }

  /** Matrix shows everything that is stored. */
  predicate AllInSync(config: Config, view: View, now: int) { InSync(config, view, now) && UnreadInSync(view) }

  /** One event keeps everything in sync exactly if it is harmless. */
  lemma StepExactly(config: Config, view: View, event: Event, now: int)
    requires AllInSync(config, view, now) && Regular(config, view, event, now)
    ensures AllInSync(config, Step(config, view, event, now), now) <==> Harmless(config, view, event, now)
  {
    hide InSync;
    hide Bridge;
    hide Resync;
    match event
    case Snapped(settings, queued, unreadQueued) =>
      BridgeKeepsSync(config, view, settings, now, queued, unreadQueued);
      UnreadExactly(config, view, settings, now, queued, unreadQueued);
    case Resynced(cached) =>
      ResyncKeepsUnread(config, view, cached, now);
      if cached.Some? {
        ResyncExactly(config, view, cached.value, now);
      } else {
        UnknownChat(config, view, now);
      }
    case Muted(mute, cached, landed) => MuteWriteExactly(config, view, mute, cached, landed, now);
    case MarkedUnread(unread, cached, landed) => UnreadWriteExactly(config, view, unread, cached, landed, now);
    case Tagged(prev, cur, cached, landed) =>
      if TagChange(config.tags, prev, cur).Some? {
        TagWriteExactly(config, view, prev, cur, cached, landed, now);
      }
  }

  lemma UnknownChat(config: Config, view: View, now: int)
    ensures Resync(config, view, None, now) == view
  {
  }

  datatype Timed = Timed(event: Event, now: int)

  function Run(config: Config, view: View, run: seq<Timed>): View {
    if run == [] then view
    else Step(config, Run(config, view, run[..|run| - 1]), run[|run| - 1].event, run[|run| - 1].now)
  }

  /** The time a run has come to. */
  function Now(start: int, run: seq<Timed>): int { if run == [] then start else run[|run| - 1].now }

  /** The clock doesn't go backwards, and every event is a regular one. */
  predicate RegularRun(config: Config, view: View, start: int, run: seq<Timed>) {
    forall i :: 0 <= i < |run| ==> RegularAt(config, view, start, run, i)
  }

  predicate RegularAt(config: Config, view: View, start: int, run: seq<Timed>, i: nat)
    requires i < |run|
  {
    Now(start, run[..i]) <= run[i].now && Regular(config, Run(config, view, run[..i]), run[i].event, run[i].now)
  }

  predicate HarmlessAt(config: Config, view: View, run: seq<Timed>, i: nat)
    requires i < |run|
  {
    Harmless(config, Run(config, view, run[..i]), run[i].event, run[i].now)
  }

  predicate SyncAt(config: Config, view: View, start: int, run: seq<Timed>, k: nat)
    requires k <= |run|
  {
    AllInSync(config, Run(config, view, run[..k]), Now(start, run[..k]))
  }

  lemma SyncNext(config: Config, view: View, start: int, run: seq<Timed>, k: nat)
    requires k < |run| && RegularAt(config, view, start, run, k) && SyncAt(config, view, start, run, k)
    ensures SyncAt(config, view, start, run, k + 1) <==> HarmlessAt(config, view, run, k)
  {
    hide InSync;
    hide Step;
    hide Regular;
    hide Harmless;
    assert run[..k + 1][..k] == run[..k];
    var mid := Run(config, view, run[..k]);
    SyncStays(config, mid, Now(start, run[..k]), run[k].now);
    StepExactly(config, mid, run[k].event, run[k].now);
  }

  lemma {:induction false} HarmlessUpTo(config: Config, view: View, start: int, run: seq<Timed>, k: nat)
    requires k <= |run| && AllInSync(config, view, start) && RegularRun(config, view, start, run)
    requires forall i :: 0 <= i < |run| ==> HarmlessAt(config, view, run, i)
    ensures SyncAt(config, view, start, run, k)
  {
    hide RegularAt;
    hide HarmlessAt;
    if k > 0 {
      HarmlessUpTo(config, view, start, run, k - 1);
      SyncNext(config, view, start, run, k - 1);
    }
  }

  /** Over any such run, Matrix shows what is stored at every point exactly if every event is harmless. */
  lemma InSyncThroughoutExactly(config: Config, view: View, start: int, run: seq<Timed>)
    requires AllInSync(config, view, start) && RegularRun(config, view, start, run)
    ensures (forall k :: 0 <= k <= |run| ==> SyncAt(config, view, start, run, k))
            <==> forall i :: 0 <= i < |run| ==> HarmlessAt(config, view, run, i)
  {
    hide RegularAt;
    hide HarmlessAt;
    hide SyncAt;
    if forall i :: 0 <= i < |run| ==> HarmlessAt(config, view, run, i) {
      forall k | 0 <= k <= |run|
        ensures SyncAt(config, view, start, run, k)
      {
        HarmlessUpTo(config, view, start, run, k);
      }
    } else {
      var i :| 0 <= i < |run| && !HarmlessAt(config, view, run, i);
      if SyncAt(config, view, start, run, i) {
        SyncNext(config, view, start, run, i);
        assert !SyncAt(config, view, start, run, i + 1);
      }
    }
  }

  /******* What can go wrong *******/

  const ALL := Landed(true, true)
  const NOTHING_LANDED := Landed(false, false)

  /** A chat that was pinned in Signal, which the cache knows and Matrix doesn't: any of these changes made in
      Matrix stores the pin as if it had been shown. */
  lemma WritesHideTags(config: Config, now: int)
    requires Sensible(config.times, now) && config.tags.pinned != ""
    ensures var view, pinned := View(None, config.times.unmuted, "", false), Some(DEFAULTS.(pinned := true));
            && AllInSync(config, view, now)
            && !InSync(config, Step(config, view, Muted(config.times.forever, pinned, ALL), now), now)
            && !InSync(config, Step(config, view, MarkedUnread(true, pinned, ALL), now), now)
  {
  }

  /** A chat is unpinned in Matrix after it was also archived in Signal: the tag that goes isn't replaced. */
  lemma UnpinningHidesArchive(config: Config, now: int)
    requires Sensible(config.times, now) && DistinctTags(config.tags)
    ensures var pinned := DEFAULTS.(pinned := true);
            var view := View(Some(pinned), config.times.unmuted, config.tags.pinned, false);
            var unpinned := Tagged(Some({config.tags.pinned}), Some({}), Some(pinned.(archived := true)), ALL);
            && AllInSync(config, view, now) && Regular(config, view, unpinned, now)
            && !InSync(config, Step(config, view, unpinned, now), now)
  {
  }

  /** A chat is muted in Matrix just after it was muted on the phone. Signal has nothing to change, and the cache,
      which hasn't heard of the mute yet, makes the unmuted settings the stored ones. */
  lemma StaleCacheIsStored(config: Config, now: int)
    requires Sensible(config.times, now)
    ensures var view := View(Some(DEFAULTS), config.times.unmuted, "", false);
            var muted := Muted(config.times.forever, Some(DEFAULTS), NOTHING_LANDED);
            && AllInSync(config, view, now) && Regular(config, view, muted, now)
            && !InSync(config, Step(config, view, muted, now), now)
  {
  }

  /** A chat is marked unread in Signal, and only the event for the flag can't be queued. */
  lemma UnreadFlagLost(config: Config, now: int)
    requires Sensible(config.times, now)
    ensures var view := View(None, config.times.unmuted, "", false);
            var unread := DEFAULTS.(markedUnread := true);
            var after := Step(config, view, Snapped(unread, true, false), now);
            && AllInSync(config, view, now) && !UnreadInSync(after)
            && PlanChatSettings(config, after.stored, unread, now) == Plan(None, None)
  {
  }
}
