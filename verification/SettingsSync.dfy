/**
 Keeping Matrix in line with Signal's chat settings. Only differences from the settings seen last are sent,
 and what isn't sent isn't stored either.
 */
module SettingsSync {
  import opened Options
  import opened ChatSettings

  /** What a portal has stored, and what Matrix shows for it. */
  datatype View = View(stored: Option<Settings>, mute: int, tag: string, unread: bool)

  datatype Config = Config(tags: Tags, times: MuteTimes)

  datatype UserLocal = UserLocal(mutedUntil: Option<int>, tag: Option<string>)

  datatype Plan = Plan(local: Option<UserLocal>, markUnread: Option<bool>)

  /** No stored settings count as defaults. */
  function Seen(stored: Option<Settings>): Settings { if stored.Some? then stored.value else DEFAULTS }

  function MakeLocal(mutedUntil: Option<int>, tag: Option<string>): Option<UserLocal> {
    if mutedUntil.None? && tag.None? then None else Some(UserLocal(mutedUntil, tag))
  }

  function PlanChatSettings(config: Config, prev: Option<Settings>, cur: Settings, now: int): Plan {
    var was := Seen(prev);
    Plan(
      MakeLocal(
        if EffectiveMute(was, now) != EffectiveMute(cur, now) then Some(MuteTime(config.times, cur, now)) else None,
        if TagFor(config.tags, was) != TagFor(config.tags, cur) then Some(TagFor(config.tags, cur)) else None),
      if was.markedUnread != cur.markedUnread then Some(cur.markedUnread) else None)
  }

  /** Default values aren't sent, which leaves alone whatever the user chose in Matrix for a new room. */
  function InitialUserLocal(config: Config, cur: Settings, now: int): Option<UserLocal> {
    MakeLocal(
      if EffectiveMute(cur, now) != 0 then Some(MuteTime(config.times, cur, now)) else None,
      if TagFor(config.tags, cur) != "" then Some(TagFor(config.tags, cur)) else None)
  }

  function ShowLocal(view: View, local: Option<UserLocal>): View {
    if local.None? then view
    else view.(mute := Applied(view.mute, local.value.mutedUntil), tag := Applied(view.tag, local.value.tag))
  }

  /** Settings from the storage service. Either event may fail to be queued; only the first failure matters
      to the code. */
  function Bridge(config: Config, view: View, cur: Settings, now: int, queued: bool, unreadQueued: bool): View {
    var plan := PlanChatSettings(config, view.stored, cur, now);
    if plan == Plan(None, None) || !queued then view
    else
      ShowLocal(view, plan.local).(stored := Some(cur),
        unread := if unreadQueued then Applied(view.unread, plan.markUnread) else view.unread)
  }

  /** A resync shows the cached settings unless they are defaults, and stores them with the old unread flag. */
  function Resync(config: Config, view: View, cached: Option<Settings>, now: int): View {
    if cached.None? then view
    else
      ShowLocal(view, InitialUserLocal(config, cached.value, now))
        .(stored := Some(cached.value.(markedUnread := Seen(view.stored).markedUnread)))
  }

  /** Which parts of a change made in Matrix have come to the cache when it is looked at afterwards: those in the
      chat's own record, and the list of pinned chats. A part that Signal had already, or whose processing
      failed, hasn't. */
  datatype Landed = Landed(chat: bool, pins: bool)

  function LandedPart(change: Change, landed: Landed): Change {
    Change(if landed.chat then change.mutedUntil else None, if landed.chat then change.archived else None,
      if landed.chat then change.markedUnread else None, if landed.pins then change.pinned else None)
  }

  /** After a change made in Matrix the cached settings become the stored ones, whatever they are. cached is what
      the cache has apart from the change. Nothing is stored if it has nothing or if Signal refused the change. */
  function Written(view: View, cached: Option<Settings>, change: Change, landed: Landed): View {
    if cached.None? then view else view.(stored := Some(ApplyChange(cached.value, LandedPart(change, landed))))
  }

  class PortalSettings {
    const config: Config
    var stored: Option<Settings>
    var mute: int
    var tag: string
    var unread: bool

    function Value(): View
      reads this
    {
      View(stored, mute, tag, unread)
    }

    constructor (config: Config, view: View)
      ensures this.config == config && Value() == view
    {
      this.config := config;
      stored, mute, tag, unread := view.stored, view.mute, view.tag, view.unread;
    }

    method ShowUserLocal(local: UserLocal)
      modifies this
      ensures Value() == ShowLocal(old(Value()), Some(local))
    {
      if local.mutedUntil.Some? {
        mute := local.mutedUntil.value;
      }
      if local.tag.Some? {
        tag := local.tag.value;
      }
    }

    method UpdateSettings(settings: Settings)
      modifies this
      ensures Value() == old(Value()).(stored := Some(settings))
    {
      if stored.Some? && stored.value == settings {
        return;
      }
      stored := Some(settings);
    }

    method BridgeChatSettings(cur: Settings, now: int, queued: bool, unreadQueued: bool)
      modifies this
      ensures Value() == Bridge(config, old(Value()), cur, now, queued, unreadQueued)
    {
      var plan := PlanChatSettings(config, stored, cur, now);
      if plan.local.None? && plan.markUnread.None? {
        return;
      }
      if !queued {
        return;
      }
      if plan.local.Some? {
        ShowUserLocal(plan.local.value);
      }
      UpdateSettings(cur);
      if plan.markUnread.Some? && unreadQueued {
        unread := plan.markUnread.value;
      }
    }

    method AddChatSettings(cached: Option<Settings>, now: int)
      modifies this
      ensures Value() == Resync(config, old(Value()), cached, now)
    {
      if cached.None? {
        return;
      }
      var local := InitialUserLocal(config, cached.value, now);
      if local.Some? {
        ShowUserLocal(local.value);
      }
      var settings := cached.value.(markedUnread := false);
      if stored.Some? {
        settings := settings.(markedUnread := stored.value.markedUnread);
      }
      UpdateSettings(settings);
    }

    /** Stores what the cache says after a write, unless Signal refused it. */
    method UpdateChatSettings(change: Change, accepted: bool, cached: Option<Settings>, landed: Landed)
      modifies this
      ensures Value() == Written(old(Value()), if accepted then cached else None, change, landed)
    {
      if !accepted {
        return;
      }
      if cached.Some? {
        UpdateSettings(ApplyChange(cached.value, LandedPart(change, landed)));
      }
    }
  }

  /******* Mute and tag *******/

  /** A mute time in Matrix is over, has no end, or ends at a whole millisecond that Signal can hold. */
  predicate Plain(times: MuteTimes, mute: int, now: int) {
    mute <= now || mute == times.forever
        || (mute % NANOS_PER_MILLI == 0 && 0 < mute / NANOS_PER_MILLI < MAX_SAFE_DATE_MILLIS)
  }

  /** Matrix shows the mute and tag of these settings. */
  predicate ShowsLocal(config: Config, view: View, settings: Settings, now: int) {
    && Plain(config.times, view.mute, now)
    && ShownMute(config.times, view.mute, now) == EffectiveMute(settings, now)
    && view.tag == TagFor(config.tags, settings)
  }

  /** Matrix shows the mute and tag that are stored. */
  predicate InSync(config: Config, view: View, now: int) {
    ShowsLocal(config, view, Seen(view.stored), now)
  }

  /** As time passes, what is shown and what is stored expire together. */
  lemma ShownStaysShown(config: Config, view: View, settings: Settings, now: int, later: int)
    requires ShowsLocal(config, view, settings, now) && now <= later
    ensures ShowsLocal(config, view, settings, later)
  {
  }

  lemma MuteTimeShown(times: MuteTimes, settings: Settings, now: int)
    requires Sensible(times, now) && !Clashes(times, settings)
    ensures Plain(times, MuteTime(times, settings, now), now)
    ensures ShownMute(times, MuteTime(times, settings, now), now) == EffectiveMute(settings, now)
  {
    SentMuteExactly(times, settings, now);
  }

  /** One snapshot: if it was queued or had nothing to send, Matrix shows it, and in any case Matrix and what
      is stored stay in sync. */
  lemma BridgeKeepsSync(config: Config, view: View, cur: Settings, now: int, queued: bool, unreadQueued: bool)
    requires InSync(config, view, now) && Sensible(config.times, now) && !Clashes(config.times, cur)
    ensures var after := Bridge(config, view, cur, now, queued, unreadQueued);
            && InSync(config, after, now)
            && (queued || PlanChatSettings(config, view.stored, cur, now) == Plan(None, None) ==>
                  ShowsLocal(config, after, cur, now))
  {
    hide ShownMute;
    hide EffectiveMute;
    hide MuteTime;
    hide TagFor;
    hide Plain;
    MuteTimeShown(config.times, cur, now);
  }

  /** A snapshot touches nothing at all if it can't be queued or differs in nothing that is shown, and is stored
      otherwise. What doesn't differ isn't sent again. */
  lemma OnlyDifferencesAreSent(config: Config, view: View, cur: Settings, now: int, queued: bool, unreadQueued: bool)
    ensures var was, after := Seen(view.stored), Bridge(config, view, cur, now, queued, unreadQueued);
            var sameMute := EffectiveMute(was, now) == EffectiveMute(cur, now);
            var sameTag := TagFor(config.tags, was) == TagFor(config.tags, cur);
            var sameUnread := was.markedUnread == cur.markedUnread;
            && (!queued || (sameMute && sameTag && sameUnread) ==> after == view)
            && (queued && !(sameMute && sameTag && sameUnread) ==> after.stored == Some(cur))
            && (sameMute ==> after.mute == view.mute) && (sameTag ==> after.tag == view.tag)
            && (sameUnread || !unreadQueued ==> after.unread == view.unread)
  {
  }

  /** A resync leaves a mute or tag in Matrix alone if Signal has none, and never shows an unread flag. */
  lemma ResyncLeavesDefaults(config: Config, view: View, cached: Settings, now: int)
    ensures var after := Resync(config, view, Some(cached), now);
            && (EffectiveMute(cached, now) == 0 ==> after.mute == view.mute)
            && (TagFor(config.tags, cached) == "" ==> after.tag == view.tag)
            && after.unread == view.unread
            && after.stored == Some(cached.(markedUnread := Seen(view.stored).markedUnread))
  {
  }

  /** A resync keeps Matrix in sync exactly if it doesn't have to take a mute or a tag away. */
  lemma ResyncExactly(config: Config, view: View, cached: Settings, now: int)
    requires InSync(config, view, now) && Sensible(config.times, now) && !Clashes(config.times, cached)
    ensures var was := Seen(view.stored);
            InSync(config, Resync(config, view, Some(cached), now), now)
            <==> (EffectiveMute(cached, now) == 0 ==> EffectiveMute(was, now) == 0)
                 && (TagFor(config.tags, cached) == "" ==> TagFor(config.tags, was) == "")
  {
    MuteTimeShown(config.times, cached, now);
    var stored := cached.(markedUnread := Seen(view.stored).markedUnread);
    assert EffectiveMute(stored, now) == EffectiveMute(cached, now)
        && TagFor(config.tags, stored) == TagFor(config.tags, cached);
    hide ShownMute;
    hide EffectiveMute;
    hide MuteTime;
    hide TagFor;
    hide Plain;
  }

  /** And after a resync that had to, the same settings from the storage service don't repair it. */
  lemma ResyncHides(config: Config, view: View, cached: Settings, now: int, later: int)
    ensures var after := Resync(config, view, Some(cached), now);
            PlanChatSettings(config, after.stored, cached, later).local == None
  {
  }

  /** A muted chat is unmuted while the bridge isn't looking, and the room is resynced: the mute stays. */
  lemma ResyncKeepsOldMute(config: Config, now: int)
    requires Sensible(config.times, now)
    ensures var muted := Settings(MUTE_FOREVER_PROTO, false, false, false);
            var view := View(Some(muted), config.times.forever, "", false);
            && InSync(config, view, now)
            && !InSync(config, Resync(config, view, Some(DEFAULTS), now), now)
  {
  }

  /******* The unread flag *******/

  predicate UnreadInSync(view: View) { view.unread == Seen(view.stored).markedUnread }

  /** The result of queueing the unread flag is not looked at, so a flag that had to be sent and couldn't be
      flips whether it is in sync. Nothing else loses it. */
  lemma UnreadExactly(config: Config, view: View, cur: Settings, now: int, queued: bool, unreadQueued: bool)
    ensures var after := Bridge(config, view, cur, now, queued, unreadQueued);
            var sending := queued && Seen(view.stored).markedUnread != cur.markedUnread;
            UnreadInSync(after) <==> if sending then unreadQueued || !UnreadInSync(view) else UnreadInSync(view)
  {
  }

  lemma ResyncKeepsUnread(config: Config, view: View, cached: Option<Settings>, now: int)
    ensures UnreadInSync(Resync(config, view, cached, now)) <==> UnreadInSync(view)
  {
  }

  /******* Changes made in Matrix *******/

  function MuteChange(config: Config, mute: int, now: int): Change {
    Change(Some(MuteToStorage(config.times, mute, now)), None, None, None)
  }

  /** Nothing else in the cache differs from what was stored, and the new mute has come to it or is there anyway. */
  predicate HarmlessMute(config: Config, was: Settings, mute: int, cached: Option<Settings>, landed: Landed, now: int) {
    if cached.None? then ShownMute(config.times, mute, now) == EffectiveMute(was, now)
    else
      && TagFor(config.tags, cached.value) == TagFor(config.tags, was) && cached.value.markedUnread == was.markedUnread
      && (landed.chat || EffectiveMute(cached.value, now) == ShownMute(config.times, mute, now))
  }

  /** Muting in Matrix keeps everything in sync exactly under that condition. */
  lemma MuteWriteExactly(config: Config, view: View, mute: int, cached: Option<Settings>, landed: Landed, now: int)
    requires InSync(config, view, now) && UnreadInSync(view) && Plain(config.times, mute, now)
    ensures var after := Written(view.(mute := mute), cached, MuteChange(config, mute, now), landed);
            && (cached.Some? && landed.chat ==>
                  ShownMute(config.times, mute, now) == EffectiveMute(Seen(after.stored), now))
            && (InSync(config, after, now) && UnreadInSync(after)
                <==> HarmlessMute(config, Seen(view.stored), mute, cached, landed, now))
  {
  }

  predicate HarmlessUnread(config: Config, was: Settings, unread: bool, cached: Option<Settings>, landed: Landed,
                           now: int) {
    if cached.None? then unread == was.markedUnread
    else
      && TagFor(config.tags, cached.value) == TagFor(config.tags, was)
      && EffectiveMute(cached.value, now) == EffectiveMute(was, now)
      && (landed.chat || cached.value.markedUnread == unread)
  }

  /** The same for marking a chat read or unread. */
  lemma UnreadWriteExactly(config: Config, view: View, unread: bool, cached: Option<Settings>, landed: Landed, now: int)
    requires InSync(config, view, now)
    ensures var after := Written(view.(unread := unread), cached, Change(None, None, Some(unread), None), landed);
            && (cached.Some? && landed.chat ==> UnreadInSync(after))
            && (InSync(config, after, now) && UnreadInSync(after)
                <==> HarmlessUnread(config, Seen(view.stored), unread, cached, landed, now))
  {
  }

  predicate Wanted(tag: string, content: Option<set<string>>) { tag != "" && Has(content, tag) }

  /** The tag a room has. One that has both tags counts as pinned. */
  function TagIn(tags: Tags, content: Option<set<string>>): string {
    if Wanted(tags.pinned, content) then tags.pinned else if Wanted(tags.archive, content) then tags.archive else ""
  }

  /** The flags ask for exactly the tag that is set. A flag whose tag isn't in use doesn't matter. */
  predicate FlagsAskFor(tags: Tags, cur: Option<set<string>>, pinned: bool, archived: bool) {
    if tags.pinned == tags.archive then tags.pinned == "" || (pinned || archived) == Has(cur, tags.pinned)
    else if Wanted(tags.pinned, cur) then pinned
    else (tags.pinned == "" || !pinned) && (tags.archive == "" || archived == Has(cur, tags.archive))
  }

  predicate HarmlessTags(config: Config, was: Settings, cur: Option<set<string>>, change: Change,
                         cached: Option<Settings>, landed: Landed, now: int) {
    if cached.None? then FlagsAskFor(config.tags, cur, was.pinned, was.archived)
    else
      && EffectiveMute(cached.value, now) == EffectiveMute(was, now) && cached.value.markedUnread == was.markedUnread
      && FlagsAskFor(config.tags, cur,
           if landed.pins then Applied(cached.value.pinned, change.pinned) else cached.value.pinned,
           if landed.chat then Applied(cached.value.archived, change.archived) else cached.value.archived)
  }

  /** The same for changing tags, whichever tags are in use. */
  lemma TagWriteExactly(config: Config, view: View, prev: Option<set<string>>, cur: Option<set<string>>,
                        cached: Option<Settings>, landed: Landed, now: int)
    requires InSync(config, view, now) && UnreadInSync(view) && TagChange(config.tags, prev, cur).Some?
    ensures var was, change := Seen(view.stored), TagChange(config.tags, prev, cur).value;
            var after := Written(view.(tag := TagIn(config.tags, cur)), cached, change, landed);
            InSync(config, after, now) && UnreadInSync(after)
            <==> HarmlessTags(config, was, cur, change, cached, landed, now)
  {
  }

  predicate DistinctTags(tags: Tags) { tags.pinned != "" && tags.archive != "" && tags.pinned != tags.archive }

  /** If all of a change has come to the cache, a single tag is always right afterwards. With two tags, setting one
      decides both flags, but removing one leaves the other flag to the cache. */
  lemma LandedTagsExactly(tags: Tags, prev: Option<set<string>>, cur: Option<set<string>>, cached: Settings)
    requires TagChange(tags, prev, cur).Some? && (tags.pinned == "" || tags.archive == "" || DistinctTags(tags))
    requires !(Wanted(tags.pinned, prev) && Wanted(tags.archive, prev))
    requires !(Wanted(tags.pinned, cur) && Wanted(tags.archive, cur))
    ensures var after := ApplyChange(cached, TagChange(tags, prev, cur).value);
            FlagsAskFor(tags, cur, after.pinned, after.archived)
            <==> (DistinctTags(tags) && TagIn(tags, cur) == "" ==>
                    !(if Has(prev, tags.pinned) then cached.archived else cached.pinned))
  {
  }

  /******* Whole runs *******/

  datatype Snapshot = Snapshot(settings: Settings, now: int, queued: bool, unreadQueued: bool)

  function After(config: Config, view: View, run: seq<Snapshot>): View {
    if run == [] then view
    else
      var last := run[|run| - 1];
      Bridge(config, After(config, view, run[..|run| - 1]), last.settings, last.now, last.queued, last.unreadQueued)
  }

  /** The clock doesn't go backwards, and no mute ends at the time that stands for no end. */
  predicate Steady(config: Config, start: int, run: seq<Snapshot>) {
    && Sensible(config.times, start)
    && (forall i :: 0 <= i < |run| ==> start <= run[i].now && !Clashes(config.times, run[i].settings))
    && (forall i, j :: 0 <= i < j < |run| ==> run[i].now <= run[j].now)
  }

  lemma {:induction false} RunKeepsSync(config: Config, view: View, start: int, run: seq<Snapshot>, now: int)
    requires InSync(config, view, start) && Steady(config, start, run) && start <= now
    requires run != [] ==> run[|run| - 1].now <= now
    ensures InSync(config, After(config, view, run), now)
  {
    hide InSync;
    if run == [] {
      SyncStays(config, view, start, now);
    } else {
      var init, last := run[..|run| - 1], run[|run| - 1];
      var before := After(config, view, init);
      RunKeepsSync(config, view, start, init, last.now);
      BridgeKeepsSync(config, before, last.settings, last.now, last.queued, last.unreadQueued);
      SyncStays(config, After(config, view, run), last.now, now);
    }
  }

  lemma SyncStays(config: Config, view: View, now: int, later: int)
    requires InSync(config, view, now) && now <= later
    ensures InSync(config, view, later)
  {
    ShownStaysShown(config, view, Seen(view.stored), now, later);
  }

  /** After any sequence of snapshots, whichever of them failed to be queued, if the last one was queued or
      had nothing to send then Matrix shows its mute and tag at every later time. */
  lemma Converges(config: Config, view: View, start: int, run: seq<Snapshot>, later: int)
    requires InSync(config, view, start) && Steady(config, start, run) && run != [] && run[|run| - 1].now <= later
    requires var last := run[|run| - 1];
             last.queued
                 || PlanChatSettings(config, After(config, view, run[..|run| - 1]).stored, last.settings, last.now)
                     == Plan(None, None)
    ensures ShowsLocal(config, After(config, view, run), run[|run| - 1].settings, later)
  {
    hide ShowsLocal;
    var init, last := run[..|run| - 1], run[|run| - 1];
    RunKeepsSync(config, view, start, init, last.now);
    BridgeKeepsSync(config, After(config, view, init), last.settings, last.now, last.queued, last.unreadQueued);
    ShownStaysShown(config, After(config, view, run), last.settings, last.now, later);
  }

  /** The unread flag converges too if it is never lost. */
  lemma {:induction false} UnreadConverges(config: Config, view: View, run: seq<Snapshot>)
    requires UnreadInSync(view)
    requires forall i :: 0 <= i < |run| && run[i].queued ==> run[i].unreadQueued
    ensures UnreadInSync(After(config, view, run))
    ensures run != [] && run[|run| - 1].queued ==>
            After(config, view, run).unread == run[|run| - 1].settings.markedUnread
  {
    if run != [] {
      var init, last := run[..|run| - 1], run[|run| - 1];
      UnreadConverges(config, view, init);
      UnreadExactly(config, After(config, view, init), last.settings, last.now, last.queued, last.unreadQueued);
    }
  }
}
