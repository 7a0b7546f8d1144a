/**
 How a portal follows a group's revisions: catching up before an event is handled, then applying a
 change that came with the event.
 */
module GroupCatchUp {
  import opened Options
  import opened GroupModel
  import opened GroupSync
  import opened GroupReplay

  const U32_LIMIT := 0x1_0000_0000

  type uint32 = x: nat | x < U32_LIMIT

  /** What the bridge keeps about a group room, and the changes it has processed. */
  datatype PortalState = PortalState(revision: nat, room: Room, processed: seq<GroupChange>)

  /** One entry of a history page. Converting the change to a chat info change can fail. */
  datatype PageEntry = PageEntry(change: GroupChange, convertible: bool)

  /** What the server answers to the requests made while handling an event. */
  datatype Answers = Answers(page: Option<seq<PageEntry>>, full: Option<Group>)

  /** A Signal message in a group. carriesChange is whether it has group change bytes, decrypted what they
      decrypt to. */
  datatype GroupEvent = GroupEvent(
    revision: uint32,
    envelopeRevision: uint32,
    carriesChange: bool,
    decrypted: Option<GroupChange>,
    isInfoChange: bool,
    convertible: bool)

  function Max(a: nat, b: nat): nat { if a < b then b else a }

  /** A chat info change: its revision is stored if it is newer. */
  function Process(alias: Aliases, st: PortalState, revision: nat, c: GroupChange): PortalState {
    PortalState(Max(st.revision, revision), SyncChanges(st.room, ChangeMap(alias, c)), st.processed + [c])
  }

  /** Full chat info: the room is overwritten, the revision only if it is newer. */
  function Resync(alias: Aliases, st: PortalState, g: Group): PortalState {
    PortalState(Max(st.revision, g.revision), FullRoom(alias, g), st.processed)
  }

  /** A change that can't be converted is passed over. */
  function ProcessEntry(alias: Aliases, st: PortalState, entry: PageEntry): PortalState {
    if entry.convertible then Process(alias, st, entry.change.revision, entry.change) else st
  }

  function Replay(alias: Aliases, st: PortalState, page: seq<PageEntry>, to: nat): PortalState
    decreases |page|
  {
    if page == [] then st
    else
      var next := ProcessEntry(alias, st, page[0]);
      if page[0].change.revision == to then next else Replay(alias, next, page[1..], to)
  }

  function CatchUp(alias: Aliases, st: PortalState, from: nat, to: nat, ans: Answers): PortalState
    decreases from
  {
    if from >= to then st
    else if from == 0 then
      if ans.full.None? then st else Resync(alias, st, ans.full.value)
    else if ans.page.None? then CatchUp(alias, st, 0, to, ans)
    else Replay(alias, st, ans.page.value, to)
  }

  /** The revision to catch up to: one less if the event brings the last change itself. */
  function CatchUpTarget(evt: GroupEvent): (to: int)
    requires evt.revision > 0
    ensures 0 <= to <= evt.revision
  {
    if evt.carriesChange then evt.revision - 1 else evt.revision
  }

  function PreHandle(alias: Aliases, st: PortalState, evt: GroupEvent, ans: Answers): PortalState {
    if evt.revision > st.revision then CatchUp(alias, st, st.revision, CatchUpTarget(evt), ans) else st
  }

  /** The change an event applies itself, if any: only one that directly follows the portal's revision. */
  function OwnChange(st: PortalState, evt: GroupEvent): Option<GroupChange> {
    if !evt.isInfoChange || !evt.carriesChange || evt.decrypted.None? || !evt.convertible then None
    else if evt.decrypted.value.revision != evt.envelopeRevision then None
    else if evt.decrypted.value.revision != (st.revision + 1) % U32_LIMIT then None
    else evt.decrypted
  }

  function HandleEvent(alias: Aliases, st: PortalState, evt: GroupEvent, ans: Answers): PortalState {
    var caughtUp := PreHandle(alias, st, evt, ans);
    match OwnChange(caughtUp, evt)
    case None => caughtUp
    case Some(c) => Process(alias, caughtUp, evt.envelopeRevision, c)
  }

  /******* The portal object *******/

  class Portal {
    var revision: nat
    var room: Room
    ghost var processed: seq<GroupChange>

    ghost function State(): PortalState
      reads this
    {
      PortalState(revision, room, processed)
    }

    constructor (revision: nat, room: Room)
      ensures State() == PortalState(revision, room, [])
    {
      this.revision := revision;
      this.room := room;
      this.processed := [];
    }

    method ProcessChatInfoChange(alias: Aliases, rev: nat, c: GroupChange)
      modifies this
      ensures State() == Process(alias, old(State()), rev, c)
    {
      var mc := GroupChangeToMemberChanges(alias, c);
      room := SyncChanges(room, mc);
      if revision < rev {
        revision := rev;
      }
      processed := processed + [c];
    }

    method UpdateInfo(alias: Aliases, g: Group)
      modifies this
      ensures State() == Resync(alias, old(State()), g)
    {
      var mc := WrapGroupInfo(alias, g);
      room := SyncFull(mc);
      if revision < g.revision {
        revision := g.revision;
      }
    }

    method CatchUpGroup(alias: Aliases, from: nat, to: nat, ans: Answers)
      modifies this
      ensures State() == CatchUp(alias, old(State()), from, to, ans)
      decreases from
    {
      if from >= to {
        return;
      }
      if from == 0 {
        if ans.full.Some? {
          UpdateInfo(alias, ans.full.value);
        }
      } else {
        if ans.page.None? {
          CatchUpGroup(alias, 0, to, ans);
          return;
        }
        var page := ans.page.value;
        var i := 0;
        while i < |page|
          invariant 0 <= i <= |page|
          invariant Replay(alias, State(), page[i..], to) == Replay(alias, old(State()), page, to)
        {
          if page[i].convertible {
            ProcessChatInfoChange(alias, page[i].change.revision, page[i].change);
          }
          if page[i].change.revision == to {
            return;
          }
          i := i + 1;
        }
      }
    }

    method Handle(alias: Aliases, evt: GroupEvent, ans: Answers)
      modifies this
      ensures State() == HandleEvent(alias, old(State()), evt, ans)
    {
      hide CatchUp;
      hide Process;
      if evt.revision > revision {
        var to := evt.revision;
        if evt.carriesChange {
          to := to - 1;
        }
        CatchUpGroup(alias, revision, to, ans);
      }
      if evt.isInfoChange && evt.carriesChange && evt.decrypted.Some? {
        var c := evt.decrypted.value;
        if c.revision == evt.envelopeRevision && c.revision == (revision + 1) % U32_LIMIT && evt.convertible {
          ProcessChatInfoChange(alias, evt.envelopeRevision, c);
        }
      }
    }
  }

  /******* What holds of every event *******/

  lemma {:induction false} ReplayKeepsRevision(alias: Aliases, st: PortalState, page: seq<PageEntry>, to: nat)
    ensures Replay(alias, st, page, to).revision >= st.revision
    ensures st.processed <= Replay(alias, st, page, to).processed
    decreases |page|
  {
    hide SyncChanges;
    hide ChangeMap;
    if page != [] {
      var next := ProcessEntry(alias, st, page[0]);
      ReplayKeepsRevision(alias, next, page[1..], to);
    }
  }

  lemma {:induction false} CatchUpKeepsRevision(alias: Aliases, st: PortalState, from: nat, to: nat, ans: Answers)
    ensures CatchUp(alias, st, from, to, ans).revision >= st.revision
    ensures st.processed <= CatchUp(alias, st, from, to, ans).processed
    decreases from
  {
    hide Replay;
    if 0 < from < to && ans.page.None? {
      CatchUpKeepsRevision(alias, st, 0, to, ans);
    } else if 0 < from < to {
      ReplayKeepsRevision(alias, st, ans.page.value, to);
    }
  }

  /** The revision never drops, whatever the event says and whatever the server answers. */
  lemma RevisionNeverDrops(alias: Aliases, st: PortalState, evt: GroupEvent, ans: Answers)
    ensures HandleEvent(alias, st, evt, ans).revision >= st.revision
    ensures st.processed <= HandleEvent(alias, st, evt, ans).processed
  {
    hide CatchUp;
    if evt.revision > st.revision {
      CatchUpKeepsRevision(alias, st, st.revision, CatchUpTarget(evt), ans);
    }
  }

  /** The part of a page that is looked at. */
  function UpTo(page: seq<PageEntry>, to: nat): seq<PageEntry> {
    if page == [] || page[0].change.revision == to then page[..if page == [] then 0 else 1]
    else [page[0]] + UpTo(page[1..], to)
  }

  function Converted(page: seq<PageEntry>): seq<GroupChange> {
    if page == [] then [] else (if page[0].convertible then [page[0].change] else []) + Converted(page[1..])
  }

  lemma ConvertedFirst(page: seq<PageEntry>, to: nat)
    requires page != []
    ensures Converted(UpTo(page, to)) == (if page[0].convertible then [page[0].change] else [])
              + if page[0].change.revision == to then [] else Converted(UpTo(page[1..], to))
  {
    if page[0].change.revision == to {
      assert UpTo(page, to) == [page[0]] && [page[0]][1..] == [];
    } else {
      assert UpTo(page, to)[1..] == UpTo(page[1..], to);
    }
  }

  lemma {:induction false} ReplayProcesses(alias: Aliases, st: PortalState, page: seq<PageEntry>, to: nat)
    ensures Replay(alias, st, page, to).processed == st.processed + Converted(UpTo(page, to))
    decreases |page|
  {
    hide SyncChanges;
    hide ChangeMap;
    if page != [] {
      hide UpTo;
      hide Converted;
      ConvertedFirst(page, to);
      var first := if page[0].convertible then [page[0].change] else [];
      var rest := if page[0].change.revision == to then [] else Converted(UpTo(page[1..], to));
      Appended(st.processed, first, rest);
      ProcessedEntry(alias, st, page[0]);
      hide ProcessEntry;
      if page[0].change.revision != to {
        ReplayProcesses(alias, ProcessEntry(alias, st, page[0]), page[1..], to);
      }
    }
  }

  lemma ProcessedEntry(alias: Aliases, st: PortalState, entry: PageEntry)
    ensures ProcessEntry(alias, st, entry).processed == st.processed + if entry.convertible then [entry.change] else []
  {
    assert st.processed + [] == st.processed;
  }

  lemma Appended<T>(a: seq<T>, b: seq<T>, c: seq<T>)
    ensures (a + b) + c == a + (b + c) && (a + b) + [] == a + b
  {
  }

  lemma {:induction false} ReplayedRoom(alias: Aliases, st: PortalState, page: seq<PageEntry>, to: nat)
    ensures Replay(alias, st, page, to).room == ReplayAll(alias, st.room, Converted(UpTo(page, to)))
    decreases |page|
  {
    hide SyncChanges;
    hide ChangeMap;
    if page != [] {
      hide UpTo;
      hide Converted;
      ConvertedFirst(page, to);
      var next := ProcessEntry(alias, st, page[0]);
      var rest := if page[0].change.revision == to then [] else Converted(UpTo(page[1..], to));
      FirstRoom(alias, st, page[0], rest);
      if page[0].change.revision != to {
        hide ReplayAll;
        ReplayedRoom(alias, next, page[1..], to);
      }
    }
  }

  lemma FirstRoom(alias: Aliases, st: PortalState, entry: PageEntry, rest: seq<GroupChange>)
    ensures ReplayAll(alias, st.room, (if entry.convertible then [entry.change] else []) + rest)
            == ReplayAll(alias, ProcessEntry(alias, st, entry).room, rest)
  {
    hide SyncChanges;
    hide ChangeMap;
    if entry.convertible {
      ReplayAllCons(alias, st.room, entry.change, rest);
    } else {
      assert [] + rest == rest;
    }
  }

  /** Exactly the convertible changes of the page up to the target are processed, once each and in
      order. A change that can't be converted is skipped for good once a later one is processed. */
  lemma ReplayProcessesInOrder(alias: Aliases, st: PortalState, page: seq<PageEntry>, to: nat)
    ensures Replay(alias, st, page, to).processed == st.processed + Converted(UpTo(page, to))
    ensures Replay(alias, st, page, to).room == ReplayAll(alias, st.room, Converted(UpTo(page, to)))
  {
    hide Replay;
    hide ReplayAll;
    ReplayProcesses(alias, st, page, to);
    ReplayedRoom(alias, st, page, to);
  }

  lemma {:induction false} ReplayAllCons(alias: Aliases, room: Room, c: GroupChange, h: seq<GroupChange>)
    ensures ReplayAll(alias, room, [c] + h) == ReplayAll(alias, SyncChanges(room, ChangeMap(alias, c)), h)
  {
    hide SyncChanges;
    hide ChangeMap;
    if h == [] {
      assert [c] + h == [c] && [c][..0] == [];
    } else {
      assert ([c] + h)[..|h|] == [c] + h[..|h| - 1];
      ReplayAllCons(alias, room, c, h[..|h| - 1]);
    }
  }
}
