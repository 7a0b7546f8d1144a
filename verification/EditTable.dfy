/**
 The message table under edits. An edit renames the edited row to the edit's own ID and leaves a stub row
 behind at the old one.
 */
module EditTable {
  import opened Options

  datatype MessageID = MessageID(sender: nat, timestamp: nat)

  datatype Row = Row(stub: bool, editCount: nat, viewOnce: bool)

  const STUB := Row(true, 0, false)

  /** The rows of a message's parts, in part order. */
  type Table = map<MessageID, seq<Row>>

  /** An edit from Signal names its target by timestamp; one from Matrix edits the row of a known part. */
  datatype Edit =
    | FromSignal(sender: nat, target: nat, timestamp: nat, viewOnce: bool)
    | FromMatrix(id: MessageID, part: nat, timestamp: nat, viewLimited: bool, sent: bool)

  function RowsAt(table: Table, id: MessageID): seq<Row> { if id in table then table[id] else [] }

  predicate AnyViewOnce(rows: seq<Row>) { exists i :: 0 <= i < |rows| && rows[i].viewOnce }

  /** The last part that isn't a stub. */
  function LastLive(rows: seq<Row>): (last: Option<nat>)
    ensures last.Some? ==> last.value < |rows| && !rows[last.value].stub
    ensures last.Some? ==> forall i :: last.value < i < |rows| ==> rows[i].stub
    ensures last.None? ==> forall i :: 0 <= i < |rows| ==> rows[i].stub
  {
    if rows == [] then None
    else if !rows[|rows| - 1].stub then Some(|rows| - 1)
    else LastLive(rows[..|rows| - 1])
  }

  function LiveCount(rows: seq<Row>): nat {
    if rows == [] then 0 else LiveCount(rows[..|rows| - 1]) + if rows[|rows| - 1].stub then 0 else 1
  }

  /** Stub rows are keyed by ID and part, so there is at most one for each ID. */
  function WithStub(rows: seq<Row>): seq<Row> { if STUB in rows then rows else rows + [STUB] }

  /** One row gets a new ID and an increased edit count. */
  function Renamed(table: Table, from: MessageID, part: nat, to: MessageID): Table
    requires part < |RowsAt(table, from)|
  {
    var rows := table[from];
    var row := rows[part].(editCount := rows[part].editCount + 1, viewOnce := false);
    if from == to then table[from := rows[part := row]]
    else table[from := WithStub(rows[..part] + rows[part + 1..])][to := RowsAt(table, to) + [row]]
  }

  /** The row an edit changes and its new ID, or nothing if the edit is ignored or refused. Only the user's
      own messages can be edited from Matrix, and a stub has no Matrix event that could be edited. */
  function Target(own: nat, table: Table, edit: Edit): (target: Option<(MessageID, nat, MessageID)>)
    ensures target.Some? ==>
              var (from, part, to) := target.value;
              && part < |RowsAt(table, from)| && from.sender == to.sender
              && !table[from][part].stub && !table[from][part].viewOnce && to.timestamp == edit.timestamp
  {
    match edit
    case FromSignal(sender, target, timestamp, viewOnce) =>
      var rows := RowsAt(table, MessageID(sender, target));
      if viewOnce || AnyViewOnce(rows) || LastLive(rows).None? then None
      else Some((MessageID(sender, target), LastLive(rows).value, MessageID(sender, timestamp)))
    case FromMatrix(id, part, timestamp, viewLimited, sent) =>
      var rows := RowsAt(table, id);
      if part >= |rows| || rows[part].stub || viewLimited || rows[part].viewOnce || id.sender != own || !sent then None
      else Some((id, part, MessageID(own, timestamp)))
  }

  function Apply(own: nat, table: Table, edit: Edit): Table {
    var target := Target(own, table, edit);
    if target.None? then table else Renamed(table, target.value.0, target.value.1, target.value.2)
  }

  class Messages {
    const own: nat
    var rows: Table

    constructor (own: nat, rows: Table)
      ensures this.own == own && this.rows == rows
    {
      this.own, this.rows := own, rows;
    }

    /** The parts are looked through for view-once media, then stubs are passed over. */
    method FindEditPart(existing: seq<Row>, viewOnce: bool) returns (part: Option<nat>)
      ensures part == if viewOnce || AnyViewOnce(existing) then None else LastLive(existing)
    {
      if viewOnce {
        return None;
      }
      for i := 0 to |existing|
        invariant forall j :: 0 <= j < i ==> !existing[j].viewOnce
      {
        if existing[i].viewOnce {
          return None;
        }
      }
      part := None;
      for i := 0 to |existing|
        invariant part == LastLive(existing[..i])
      {
        assert existing[..i + 1][..i] == existing[..i];
        if !existing[i].stub {
          part := Some(i);
        }
      }
      assert existing[..|existing|] == existing;
    }

    method Rename(from: MessageID, part: nat, to: MessageID)
      requires part < |RowsAt(rows, from)|
      modifies this
      ensures rows == Renamed(old(rows), from, part, to)
    {
      var existing := rows[from];
      var row := existing[part].(editCount := existing[part].editCount + 1, viewOnce := false);
      if from == to {
        rows := rows[from := existing[part := row]];
      } else {
        var moved := RowsAt(rows, to) + [row];
        rows := rows[from := WithStub(existing[..part] + existing[part + 1..])];
        rows := rows[to := moved];
      }
    }

    method HandleSignalEdit(sender: nat, target: nat, timestamp: nat, viewOnce: bool) returns (edited: bool)
      modifies this
      ensures rows == Apply(own, old(rows), FromSignal(sender, target, timestamp, viewOnce))
      ensures edited == Target(own, old(rows), FromSignal(sender, target, timestamp, viewOnce)).Some?
    {
      var id := MessageID(sender, target);
      var part := FindEditPart(RowsAt(rows, id), viewOnce);
      if part.None? {
        return false;
      }
      Rename(id, part.value, MessageID(sender, timestamp));
      edited := true;
    }

    method HandleMatrixEdit(id: MessageID, part: nat, timestamp: nat, viewLimited: bool, sent: bool)
        returns (edited: bool)
      modifies this
      ensures rows == Apply(own, old(rows), FromMatrix(id, part, timestamp, viewLimited, sent))
      ensures edited == Target(own, old(rows), FromMatrix(id, part, timestamp, viewLimited, sent)).Some?
    {
      if part >= |RowsAt(rows, id)| || rows[id][part].stub {
        return false;
      }
      if viewLimited || rows[id][part].viewOnce {
        return false;
      }
      if id.sender != own {
        return false;
      }
      if !sent {
        return false;
      }
      Rename(id, part, MessageID(own, timestamp));
      edited := true;
    }
  }

  /******* Replays *******/

  lemma {:induction false} LiveCountConcat(a: seq<Row>, b: seq<Row>)
    ensures LiveCount(a + b) == LiveCount(a) + LiveCount(b)
  {
    if b == [] {
      assert a + b == a;
    } else {
      assert (a + b)[..|a + b| - 1] == a + b[..|b| - 1];
      LiveCountConcat(a, b[..|b| - 1]);
    }
  }

  lemma {:induction false} LiveExists(rows: seq<Row>)
    ensures LastLive(rows).Some? <==> LiveCount(rows) > 0
  {
    if rows != [] {
      LiveExists(rows[..|rows| - 1]);
    }
  }

  lemma LiveAfterRemoval(rows: seq<Row>, part: nat)
    requires part < |rows| && !rows[part].stub
    ensures LiveCount(WithStub(rows[..part] + rows[part + 1..])) == LiveCount(rows) - 1
  {
    assert rows == rows[..part] + [rows[part]] + rows[part + 1..];
    LiveCountConcat(rows[..part], [rows[part]]);
    LiveCountConcat(rows[..part] + [rows[part]], rows[part + 1..]);
    LiveCountConcat(rows[..part], rows[part + 1..]);
    LiveCountConcat(rows[..part] + rows[part + 1..], [STUB]);
    assert LiveCount([STUB]) == 0 && LiveCount([rows[part]]) == 1 by {
      assert [STUB][..0] == [] && [rows[part]][..0] == [];
    }
  }

  lemma {:induction false} LastLiveIs(rows: seq<Row>, part: nat)
    requires part < |rows| && !rows[part].stub && forall i :: part < i < |rows| ==> rows[i].stub
    ensures LastLive(rows) == Some(part)
  {
    if part < |rows| - 1 {
      LastLiveIs(rows[..|rows| - 1], part);
    }
  }

  /** Receiving the same Signal edit twice changes nothing the second time exactly if it has a timestamp of its
      own and its target had one live part. With several parts the replay renames another one, and an edit with
      its target's timestamp is counted again. */
  lemma ReplayExactly(own: nat, table: Table, edit: Edit)
    requires edit.FromSignal? && Target(own, table, edit).Some?
    ensures var once := Apply(own, table, edit);
            Apply(own, once, edit) == once
            <==> edit.target != edit.timestamp && LiveCount(table[MessageID(edit.sender, edit.target)]) == 1
  {
    if edit.target == edit.timestamp {
      CountedAgain(own, table, edit);
    } else {
      RenamedAgain(own, table, edit);
    }
  }

  lemma CountedAgain(own: nat, table: Table, edit: Edit)
    requires edit.FromSignal? && edit.target == edit.timestamp && Target(own, table, edit).Some?
    ensures var once := Apply(own, table, edit); Apply(own, once, edit) != once
  {
    var (from, part, to) := Target(own, table, edit).value;
    var once := Apply(own, table, edit);
    LastLiveIs(once[from], part);
    assert !AnyViewOnce(once[from]);
    assert Apply(own, once, edit)[from][part].editCount == once[from][part].editCount + 1;
  }

  lemma RenamedAgain(own: nat, table: Table, edit: Edit)
    requires edit.FromSignal? && edit.target != edit.timestamp && Target(own, table, edit).Some?
    ensures var once := Apply(own, table, edit);
            Apply(own, once, edit) == once <==> LiveCount(table[MessageID(edit.sender, edit.target)]) == 1
  {
    var (from, part, to) := Target(own, table, edit).value;
    var once := Apply(own, table, edit);
    LiveAfterRemoval(table[from], part);
    assert once[from] == WithStub(table[from][..part] + table[from][part + 1..]);
    LiveExists(once[from]);
    LiveExists(table[from]);
    if Target(own, once, edit).Some? {
      var part2 := Target(own, once, edit).value.1;
      assert |Apply(own, once, edit)[to]| == |once[to]| + 1;
    }
    assert !AnyViewOnce(once[from]);
  }

  /** A message with two parts: the edit renames the second, and its replay the first. */
  lemma ReplayHitsAnotherPart(own: nat)
    ensures var row, from, to := Row(false, 0, false), MessageID(1, 1), MessageID(1, 2);
            var edit := FromSignal(1, 1, 2, false);
            var once := Apply(own, map[from := [row, row]], edit);
            && once == map[from := [row, STUB], to := [row.(editCount := 1)]]
            && Apply(own, once, edit) == map[from := [STUB], to := [row.(editCount := 1), row.(editCount := 1)]]
  {
    var row, edited, from, to := Row(false, 0, false), Row(false, 1, false), MessageID(1, 1), MessageID(1, 2);
    var edit := FromSignal(1, 1, 2, false);
    var table := map[from := [row, row]];
    LastLiveIs([row, row], 1);
    assert Target(own, table, edit) == Some((from, 1, to));
    assert [row, row][..1] + [row, row][2..] == [row] && WithStub([row]) == [row, STUB];
    var once := map[from := [row, STUB], to := [edited]];
    assert RowsAt(table, to) + [edited] == [edited] && table[from := [row, STUB]][to := [edited]] == once;
    assert Apply(own, table, edit) == Renamed(table, from, 1, to) == once;
    LastLiveIs([row, STUB], 0);
    assert Target(own, once, edit) == Some((from, 0, to));
    assert [row, STUB][..0] + [row, STUB][1..] == [STUB] && WithStub([STUB]) == [STUB];
    assert [edited] + [edited] == [edited, edited];
    assert once[from := [STUB]][to := [edited, edited]] == map[from := [STUB], to := [edited, edited]];
    assert Apply(own, once, edit) == Renamed(once, from, 0, to);
  }

  /** An edit with the timestamp of its target is counted every time it is received. */
  lemma ReplayCountsAgain(own: nat)
    ensures var row, id := Row(false, 0, false), MessageID(1, 1);
            var edit := FromSignal(1, 1, 1, false);
            var once := Apply(own, map[id := [row]], edit);
            once == map[id := [row.(editCount := 1)]] && Apply(own, once, edit) == map[id := [row.(editCount := 2)]]
  {
    var id, edit := MessageID(1, 1), FromSignal(1, 1, 1, false);
    var rows0, rows1, rows2 := [Row(false, 0, false)], [Row(false, 1, false)], [Row(false, 2, false)];
    LastLiveIs(rows0, 0);
    assert Target(own, map[id := rows0], edit) == Some((id, 0, id));
    assert rows0[0 := Row(false, 1, false)] == rows1 && Apply(own, map[id := rows0], edit) == map[id := rows1];
    LastLiveIs(rows1, 0);
    assert Target(own, map[id := rows1], edit) == Some((id, 0, id));
    assert rows1[0 := Row(false, 2, false)] == rows2 && Apply(own, map[id := rows1], edit) == map[id := rows2];
  }
}
