/**
 Edit chains: the message table after any mix of messages and edits is the rendering of one chain of IDs
 for every message.
 */
module EditChains {
  import opened Options
  import opened EditTable

  /** The IDs a message has had, oldest first. */
  datatype Chain = Chain(ids: seq<MessageID>, viewOnce: bool)

  function Current(chain: Chain): MessageID
    requires chain.ids != []
  {
    chain.ids[|chain.ids| - 1]
  }

  predicate WellFormed(chains: seq<Chain>) {
    && (forall k :: 0 <= k < |chains| ==> chains[k].ids != [])
    && (forall k, i, l, j ::
          0 <= k < |chains| && 0 <= l < |chains| && 0 <= i < |chains[k].ids| && 0 <= j < |chains[l].ids| ==>
          (chains[k].ids[i] == chains[l].ids[j] ==> k == l && i == j))
  }

  /** Exactly one live row, at the latest ID, whose edit count is the number of superseded IDs; a stub at
      each of those. */
  predicate RendersAt(table: Table, chain: Chain, i: nat)
    requires i < |chain.ids|
  {
    && chain.ids[i] in table
    && table[chain.ids[i]] == [if i == |chain.ids| - 1 then Row(false, i, chain.viewOnce) else STUB]
  }

  predicate Renders(table: Table, chains: seq<Chain>) {
    && WellFormed(chains)
    && (forall k, i :: 0 <= k < |chains| && 0 <= i < |chains[k].ids| ==> RendersAt(table, chains[k], i))
    && (forall id :: id in table ==> Listed(chains, id))
  }

  predicate Listed(chains: seq<Chain>, id: MessageID) {
    exists k, i :: 0 <= k < |chains| && 0 <= i < |chains[k].ids| && chains[k].ids[i] == id
  }

  /** The chain that currently ends in this ID. */
  function Find(chains: seq<Chain>, id: MessageID): (found: Option<nat>)
    ensures found.Some? ==>
            found.value < |chains| && chains[found.value].ids != [] && Current(chains[found.value]) == id
    ensures found.None? ==> forall k :: 0 <= k < |chains| && chains[k].ids != [] ==> Current(chains[k]) != id
  {
    if chains == [] then None
    else if chains[|chains| - 1].ids != [] && Current(chains[|chains| - 1]) == id then Some(|chains| - 1)
    else Find(chains[..|chains| - 1], id)
  }

  /** What happens to the table: a new message with one part, or an edit. */
  datatype Event = Sent(id: MessageID, viewOnce: bool) | Edited(edit: Edit)

  function ApplyEvent(own: nat, table: Table, event: Event): Table {
    match event
    case Sent(id, viewOnce) => table[id := [Row(false, 0, viewOnce)]]
    case Edited(edit) => Apply(own, table, edit)
  }

  /** An edit extends a chain if it names the chain's current ID, isn't about view-once media, and is allowed. */
  predicate Allowed(own: nat, chain: Chain, edit: Edit) {
    && !chain.viewOnce
    && match edit
       case FromSignal(_, _, _, viewOnce) => !viewOnce
       case FromMatrix(id, part, _, viewLimited, sent) => part == 0 && id.sender == own && !viewLimited && sent
  }

  function Aim(edit: Edit): MessageID {
    match edit
    case FromSignal(sender, target, _, _) => MessageID(sender, target)
    case FromMatrix(id, _, _, _, _) => id
  }

  function NewID(edit: Edit): MessageID { MessageID(Aim(edit).sender, edit.timestamp) }

  function Extend(own: nat, chains: seq<Chain>, event: Event): seq<Chain> {
    match event
    case Sent(id, viewOnce) => chains + [Chain([id], viewOnce)]
    case Edited(edit) =>
      var k := Find(chains, Aim(edit));
      if k.None? || !Allowed(own, chains[k.value], edit) then chains
      else chains[k.value := chains[k.value].(ids := chains[k.value].ids + [NewID(edit)])]
  }

  /** New messages have new IDs, and so do edits that are going to be applied. */
  predicate Fresh(own: nat, table: Table, event: Event) {
    match event
    case Sent(id, _) => id !in table
    case Edited(edit) => Target(own, table, edit).Some? ==> NewID(edit) !in table
  }

  /******* One event *******/

  lemma SingleRow(row: Row)
    ensures LastLive([row]) == if row.stub then None else Some(0)
    ensures AnyViewOnce([row]) == row.viewOnce
  {
    assert [row][..0] == [];
    assert [row][0] == row;
  }

  /** The table and the chains agree on whether an edit is applied. */
  lemma TargetExactly(own: nat, table: Table, chains: seq<Chain>, edit: Edit)
    requires Renders(table, chains)
    ensures var k := Find(chains, Aim(edit));
            Target(own, table, edit)
            == if k.Some? && Allowed(own, chains[k.value], edit) then Some((Aim(edit), 0, NewID(edit))) else None
  {
    var id, k := Aim(edit), Find(chains, Aim(edit));
    if k.Some? {
      var last := |chains[k.value].ids| - 1;
      assert RendersAt(table, chains[k.value], last);
      SingleRow(table[id][0]);
    } else if id in table {
      assert Listed(chains, id);
      var l, i :| 0 <= l < |chains| && 0 <= i < |chains[l].ids| && chains[l].ids[i] == id;
      assert RendersAt(table, chains[l], i);
      SingleRow(STUB);
    }
  }

  lemma SentRenders(own: nat, table: Table, chains: seq<Chain>, id: MessageID, viewOnce: bool)
    requires Renders(table, chains) && id !in table
    ensures Renders(ApplyEvent(own, table, Sent(id, viewOnce)), Extend(own, chains, Sent(id, viewOnce)))
  {
    var table' := ApplyEvent(own, table, Sent(id, viewOnce));
    var chains' := Extend(own, chains, Sent(id, viewOnce));
    NotListed(table, chains, id);
    forall k, i | 0 <= k < |chains'| && 0 <= i < |chains'[k].ids|
      ensures RendersAt(table', chains'[k], i)
    {
      if k < |chains| {
        assert RendersAt(table, chains[k], i);
      }
    }
    forall x | x in table'
      ensures Listed(chains', x)
    {
      if x == id {
        assert chains'[|chains|].ids[0] == id;
      } else {
        ListedStays(chains, chains', x);
      }
    }
  }

  lemma ListedStays(chains: seq<Chain>, chains': seq<Chain>, id: MessageID)
    requires Listed(chains, id) && |chains| <= |chains'|
    requires forall k :: 0 <= k < |chains| ==> chains[k].ids <= chains'[k].ids
    ensures Listed(chains', id)
  {
    var k, i :| 0 <= k < |chains| && 0 <= i < |chains[k].ids| && chains[k].ids[i] == id;
    assert chains'[k].ids[i] == id;
  }

  lemma EditRenders(own: nat, table: Table, chains: seq<Chain>, edit: Edit)
    requires Renders(table, chains) && Fresh(own, table, Edited(edit))
    ensures Renders(Apply(own, table, edit), Extend(own, chains, Edited(edit)))
  {
    TargetExactly(own, table, chains, edit);
    var k := Find(chains, Aim(edit));
    if k.Some? && Allowed(own, chains[k.value], edit) {
      ExtendedRenders(table, chains, k.value, Aim(edit), NewID(edit));
    }
  }

  lemma ExtendedRenders(table: Table, chains: seq<Chain>, k: nat, from: MessageID, to: MessageID)
    requires Renders(table, chains) && k < |chains| && Current(chains[k]) == from && to !in table && !chains[k].viewOnce
    ensures |RowsAt(table, from)| == 1
    ensures Renders(Renamed(table, from, 0, to), chains[k := chains[k].(ids := chains[k].ids + [to])])
  {
    var chain := chains[k];
    var n := |chain.ids|;
    assert RendersAt(table, chain, n - 1);
    var table' := Renamed(table, from, 0, to);
    var chains' := chains[k := chain.(ids := chain.ids + [to])];
    var row := Row(false, n, false);
    assert table[from][..0] + table[from][1..] == [] && WithStub([]) == [STUB] && RowsAt(table, to) + [row] == [row];
    assert table' == table[from := [STUB]][to := [row]];
    NotListed(table, chains, to);
    forall l, i | 0 <= l < |chains'| && 0 <= i < |chains'[l].ids|
      ensures RendersAt(table', chains'[l], i)
    {
      if l != k || i < n {
        assert RendersAt(table, chains[l], i);
      }
    }
    forall x | x in table'
      ensures Listed(chains', x)
    {
      if x == to {
        assert chains'[k].ids[n] == to;
      } else {
        ListedStays(chains, chains', x);
      }
    }
  }

  lemma NotListed(table: Table, chains: seq<Chain>, id: MessageID)
    requires Renders(table, chains) && id !in table
    ensures forall k, i :: 0 <= k < |chains| && 0 <= i < |chains[k].ids| ==> chains[k].ids[i] != id
  {
    forall k, i | 0 <= k < |chains| && 0 <= i < |chains[k].ids|
      ensures chains[k].ids[i] != id
    {
      assert RendersAt(table, chains[k], i);
    }
  }

  /******* Whole runs *******/

  function TableAfter(own: nat, run: seq<Event>): Table {
    if run == [] then map[] else ApplyEvent(own, TableAfter(own, run[..|run| - 1]), run[|run| - 1])
  }

  function ChainsAfter(own: nat, run: seq<Event>): seq<Chain> {
    if run == [] then [] else Extend(own, ChainsAfter(own, run[..|run| - 1]), run[|run| - 1])
  }

  predicate FreshRun(own: nat, run: seq<Event>) {
    forall i :: 0 <= i < |run| ==> Fresh(own, TableAfter(own, run[..i]), run[i])
  }

  lemma FreshPrefix(own: nat, run: seq<Event>, n: nat)
    requires FreshRun(own, run) && n <= |run|
    ensures FreshRun(own, run[..n])
  {
    forall i | 0 <= i < n
      ensures Fresh(own, TableAfter(own, run[..n][..i]), run[..n][i])
    {
      assert run[..n][..i] == run[..i];
    }
  }

  /** The table always renders the chains. */
  lemma {:induction false} TableRendersChains(own: nat, run: seq<Event>)
    requires FreshRun(own, run)
    ensures Renders(TableAfter(own, run), ChainsAfter(own, run))
  {
    hide Renders;
    hide Fresh;
    if run == [] {
      EmptyRenders();
    } else {
      var init, event := run[..|run| - 1], run[|run| - 1];
      FreshPrefix(own, run, |run| - 1);
      TableRendersChains(own, init);
      OneEvent(own, TableAfter(own, init), ChainsAfter(own, init), event);
    }
  }

  lemma EmptyRenders()
    ensures Renders(map[], [])
  {
  }

  lemma OneEvent(own: nat, table: Table, chains: seq<Chain>, event: Event)
    requires Renders(table, chains) && Fresh(own, table, event)
    ensures Renders(ApplyEvent(own, table, event), Extend(own, chains, event))
  {
    hide Renders;
    match event
    case Sent(id, viewOnce) => SentRenders(own, table, chains, id, viewOnce);
    case Edited(edit) => EditRenders(own, table, chains, edit);
  }

  /** An ID that has been superseded. */
  predicate Superseded(chains: seq<Chain>, id: MessageID) {
    exists k, i :: 0 <= k < |chains| && 0 <= i < |chains[k].ids| - 1 && chains[k].ids[i] == id
  }

  lemma SupersededStays(own: nat, chains: seq<Chain>, event: Event, id: MessageID)
    requires Superseded(chains, id)
    ensures Superseded(Extend(own, chains, event), id)
  {
    var k, i :| 0 <= k < |chains| && 0 <= i < |chains[k].ids| - 1 && chains[k].ids[i] == id;
    var chains' := Extend(own, chains, event);
    assert chains'[k].ids[i] == id;
  }

  lemma {:induction false} SupersededForever(own: nat, run: seq<Event>, n: nat, id: MessageID)
    requires n <= |run| && Superseded(ChainsAfter(own, run[..n]), id)
    ensures Superseded(ChainsAfter(own, run), id)
    decreases |run|
  {
    if n == |run| {
      assert run[..n] == run;
    } else {
      var init := run[..|run| - 1];
      assert init[..n] == run[..n];
      SupersededForever(own, init, n, id);
      SupersededStays(own, ChainsAfter(own, init), run[|run| - 1], id);
    }
  }

  /** An edit aimed at a superseded ID changes nothing, from either side. */
  lemma SupersededIgnored(own: nat, table: Table, chains: seq<Chain>, edit: Edit)
    requires Renders(table, chains) && Superseded(chains, Aim(edit))
    ensures Apply(own, table, edit) == table
  {
    TargetExactly(own, table, chains, edit);
    var k, i :| 0 <= k < |chains| && 0 <= i < |chains[k].ids| - 1 && chains[k].ids[i] == Aim(edit);
  }

  /** An edit that was applied at any time can be received again at any later time without any effect. */
  lemma ReplayIgnored(own: nat, run: seq<Event>, n: nat)
    requires FreshRun(own, run) && n < |run| && run[n].Edited?
    requires Target(own, TableAfter(own, run[..n]), run[n].edit).Some?
    ensures Apply(own, TableAfter(own, run), run[n].edit) == TableAfter(own, run)
  {
    hide Renders;
    var edit, table, chains := run[n].edit, TableAfter(own, run[..n]), ChainsAfter(own, run[..n]);
    FreshPrefix(own, run, n);
    TableRendersChains(own, run[..n]);
    TargetExactly(own, table, chains, edit);
    var k := Find(chains, Aim(edit)).value;
    assert run[..n + 1][..n] == run[..n];
    var next := ChainsAfter(own, run[..n + 1]);
    assert next == Extend(own, chains, run[n]);
    assert next[k].ids[|chains[k].ids| - 1] == Aim(edit);
    assert Superseded(next, Aim(edit));
    SupersededForever(own, run, n + 1, Aim(edit));
    TableRendersChains(own, run);
    SupersededIgnored(own, TableAfter(own, run), ChainsAfter(own, run), edit);
  }
}
