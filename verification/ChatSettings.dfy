/**
 Per-chat settings: mute, pinned or archived tag and unread flag, from Signal's storage service to Matrix
 and back. Times are in nanoseconds, stored mutes in milliseconds.
 */
module ChatSettings {
  import opened Options

  const NANOS_PER_MILLI := 1_000_000
  const MAX_UINT64 := 0xFFFF_FFFF_FFFF_FFFF
  const MUTE_FOREVER_PROTO := 0x7FFF_FFFF_FFFF_FFFF
  const MAX_SAFE_DATE_MILLIS := 8_640_000_000_000_000

  type uint64 = x: int | 0 <= x <= MAX_UINT64

  datatype Settings = Settings(mutedUntil: uint64, archived: bool, markedUnread: bool, pinned: bool)

  const DEFAULTS := Settings(0, false, false, false)

  /** The room tags for pinned and archived chats. An empty one isn't bridged. */
  datatype Tags = Tags(pinned: string, archive: string)

  /** The times that stand for a mute without end and for no mute in Matrix. */
  datatype MuteTimes = MuteTimes(forever: int, unmuted: int)

  predicate Sensible(times: MuteTimes, now: int) { times.unmuted <= now && times.unmuted != times.forever }

  function TagFor(tags: Tags, settings: Settings): string {
    if settings.pinned && tags.pinned != "" then tags.pinned
    else if settings.archived && tags.archive != "" then tags.archive
    else ""
  }

  predicate MutedForever(settings: Settings) { settings.mutedUntil >= MAX_SAFE_DATE_MILLIS }

  /** The time the mute ends, if it hasn't yet. */
  function MuteExpiry(settings: Settings, now: int): Option<int> {
    var until := settings.mutedUntil * NANOS_PER_MILLI;
    if settings.mutedUntil == 0 || MutedForever(settings) || until <= now then None else Some(until)
  }

  function EffectiveMute(settings: Settings, now: int): uint64 {
    if MutedForever(settings) then MAX_UINT64
    else if MuteExpiry(settings, now).None? then 0
    else settings.mutedUntil
  }

  function MuteTime(times: MuteTimes, settings: Settings, now: int): int {
    if MutedForever(settings) then times.forever
    else if MuteExpiry(settings, now).Some? then MuteExpiry(settings, now).value
    else times.unmuted
  }

  /** A Matrix mute as Signal's timestamp, as an unsigned 64-bit number of milliseconds. */
  function MuteToStorage(times: MuteTimes, mutedUntil: int, now: int): uint64 {
    if mutedUntil == times.forever then MUTE_FOREVER_PROTO
    else if mutedUntil > now then mutedUntil / NANOS_PER_MILLI % (MAX_UINT64 + 1)
    else 0
  }

  /** What a mute time set in Matrix amounts to at a given time. */
  function ShownMute(times: MuteTimes, mutedUntil: int, now: int): int {
    if mutedUntil == times.forever then MAX_UINT64
    else if mutedUntil > now then mutedUntil / NANOS_PER_MILLI
    else 0
  }

  /** A mute that ends at the very time that stands for no end in Matrix. */
  predicate Clashes(times: MuteTimes, settings: Settings) {
    !MutedForever(settings) && settings.mutedUntil != 0 && settings.mutedUntil * NANOS_PER_MILLI == times.forever
  }

  /** Mutes that are equal now stay equal, since they expire together. */
  lemma EqualMutesStayEqual(a: Settings, b: Settings, now: int, later: int)
    requires now <= later && EffectiveMute(a, now) == EffectiveMute(b, now)
    ensures EffectiveMute(a, later) == EffectiveMute(b, later)
  {
  }

  /** A mute that was sent to Matrix looks like the one in Signal from then on, exactly if it doesn't clash. */
  lemma SentMuteExactly(times: MuteTimes, settings: Settings, now: int)
    requires Sensible(times, now)
    ensures (forall later :: now <= later ==>
            ShownMute(times, MuteTime(times, settings, now), later) == EffectiveMute(settings, later))
            <==> !(Clashes(times, settings) && now < times.forever)
  {
    if Clashes(times, settings) && now < times.forever {
      assert ShownMute(times, MuteTime(times, settings, now), now) != EffectiveMute(settings, now);
    }
  }

  /** To Matrix and back keeps the effective mute, from then on, exactly under the same condition. */
  lemma MuteRoundTripExactly(times: MuteTimes, settings: Settings, now: int)
    requires Sensible(times, now)
    ensures var back := settings.(mutedUntil := MuteToStorage(times, MuteTime(times, settings, now), now));
            (forall later :: now <= later ==> EffectiveMute(back, later) == EffectiveMute(settings, later))
            <==> !(Clashes(times, settings) && now < times.forever)
  {
    var back := settings.(mutedUntil := MuteToStorage(times, MuteTime(times, settings, now), now));
    if Clashes(times, settings) && now < times.forever {
      assert EffectiveMute(back, now) != EffectiveMute(settings, now);
    }
  }

  /******* Tags *******/

  datatype Change = Change(mutedUntil: Option<uint64>, archived: Option<bool>, markedUnread: Option<bool>,
      pinned: Option<bool>)

  function Applied<T>(was: T, change: Option<T>): T { if change.Some? then change.value else was }

  function ApplyChange(settings: Settings, change: Change): Settings {
    Settings(Applied(settings.mutedUntil, change.mutedUntil), Applied(settings.archived, change.archived),
      Applied(settings.markedUnread, change.markedUnread), Applied(settings.pinned, change.pinned))
  }

  predicate Has(content: Option<set<string>>, tag: string) { content.Some? && tag in content.value }

  /** Tags that stay as they are don't matter. Pinning wins over archiving. */
  method TagsToSettingsChange(tags: Tags, prev: Option<set<string>>, cur: Option<set<string>>)
      returns (change: Option<Change>)
    ensures change == TagChange(tags, prev, cur)
  {
    var pinned, archived := None, None;
    if tags.pinned != "" && Has(prev, tags.pinned) != Has(cur, tags.pinned) {
      pinned := Some(Has(cur, tags.pinned));
    }
    if tags.archive != "" && tags.archive != tags.pinned && Has(prev, tags.archive) != Has(cur, tags.archive) {
      archived := Some(Has(cur, tags.archive));
    }
    if pinned == Some(true) && tags.archive != "" {
      archived := Some(false);
    } else if archived == Some(true) && tags.pinned != "" {
      pinned := Some(false);
    }
    change := if pinned.None? && archived.None? then None else Some(Change(None, archived, None, pinned));
  }

  function Toggled(tag: string, prev: Option<set<string>>, cur: Option<set<string>>): Option<bool> {
    if tag == "" || Has(prev, tag) == Has(cur, tag) then None else Some(Has(cur, tag))
  }

  function TagChange(tags: Tags, prev: Option<set<string>>, cur: Option<set<string>>): Option<Change> {
    var pin := Toggled(tags.pinned, prev, cur);
    var archive := if tags.archive == tags.pinned then None else Toggled(tags.archive, prev, cur);
    var archived := if pin == Some(true) && tags.archive != "" then Some(false) else archive;
    var pinned := if archive == Some(true) && pin != Some(true) && tags.pinned != "" then Some(false) else pin;
    if pinned.None? && archived.None? then None else Some(Change(None, archived, None, pinned))
  }

  /** With both tags in use, no tag change leaves a chat pinned and archived, and nothing else is touched. */
  lemma NeverPinnedAndArchived(tags: Tags, prev: Option<set<string>>, cur: Option<set<string>>, settings: Settings)
    requires tags.pinned != "" && tags.archive != "" && TagChange(tags, prev, cur).Some?
    ensures var after := ApplyChange(settings, TagChange(tags, prev, cur).value);
            !(after.pinned && after.archived) && after == settings.(pinned := after.pinned, archived := after.archived)
  {
  }

  function AfterTags(settings: Settings, change: Option<Change>): Settings {
    if change.Some? then ApplyChange(settings, change.value) else settings
  }

  predicate Added(tag: string, prev: Option<set<string>>, cur: Option<set<string>>) { Has(cur, tag) && !Has(prev, tag) }

  /** With two tags, a tag that was added decides both flags, the pinned tag before the other one. Otherwise exactly
      the flags of removed tags are taken away. */
  lemma TwoTagsExactly(tags: Tags, prev: Option<set<string>>, cur: Option<set<string>>, settings: Settings)
    requires tags.pinned != "" && tags.archive != "" && tags.pinned != tags.archive
    ensures var after := AfterTags(settings, TagChange(tags, prev, cur));
            after == if Added(tags.pinned, prev, cur) then settings.(pinned := true, archived := false)
                     else if Added(tags.archive, prev, cur) then settings.(pinned := false, archived := true)
                     else settings.(
                       pinned := settings.pinned && !Added(tags.pinned, cur, prev),
                       archived := settings.archived && !Added(tags.archive, cur, prev))
  {
  }

  /** With only one tag in use its flag follows the tag, and nothing else changes. */
  lemma OneTagExactly(tags: Tags, prev: Option<set<string>>, cur: Option<set<string>>, settings: Settings)
    requires tags.pinned == "" || tags.archive == ""
    ensures var after := AfterTags(settings, TagChange(tags, prev, cur));
            && (tags.pinned != "" && settings.pinned == Has(prev, tags.pinned) ==>
                  after == settings.(pinned := Has(cur, tags.pinned)))
            && (tags.archive != "" && settings.archived == Has(prev, tags.archive) ==>
                  after == settings.(archived := Has(cur, tags.archive)))
            && (tags.pinned == "" && tags.archive == "" ==> TagChange(tags, prev, cur) == None)
  {
  }

  /** If both are the same tag it stands for pinned chats, and setting it takes a chat out of the archive. */
  lemma SameTagExactly(tags: Tags, prev: Option<set<string>>, cur: Option<set<string>>, settings: Settings)
    requires tags.pinned == tags.archive != "" && settings.pinned == Has(prev, tags.pinned)
    ensures AfterTags(settings, TagChange(tags, prev, cur))
            == settings.(pinned := Has(cur, tags.pinned),
                         archived := settings.archived && !Added(tags.pinned, prev, cur))
  {
  }

  predicate TagsMatch(tags: Tags, content: Option<set<string>>, settings: Settings) {
    settings.pinned == Has(content, tags.pinned) && settings.archived == Has(content, tags.archive)
  }

  /** If the tags matched the settings before, then afterwards the settings ask for the tag that is now set,
      and they match again. */
  lemma TagChangeMatches(tags: Tags, prev: Option<set<string>>, cur: Option<set<string>>, settings: Settings)
    requires tags.pinned != "" && tags.archive != "" && tags.pinned != tags.archive
    requires TagsMatch(tags, prev, settings) && !(settings.pinned && settings.archived)
    requires !(Has(cur, tags.pinned) && Has(cur, tags.archive))
    ensures var change := TagChange(tags, prev, cur);
            var after := if change.Some? then ApplyChange(settings, change.value) else settings;
            && TagsMatch(tags, cur, after)
            && TagFor(tags, after)
               == if Has(cur, tags.pinned) then tags.pinned else if Has(cur, tags.archive) then tags.archive else ""
  {
  }
}
