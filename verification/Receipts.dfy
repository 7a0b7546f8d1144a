/**
 Grouping receipts by room.
 */
module Receipts {
  import opened Options

  datatype Message = Message(room: nat, id: nat, timestamp: int)

  /** Looking a message up can fail, and it can find nothing. */
  datatype Lookup = Failed | Unknown | Found(message: Message)

  /** The zero time, in nanoseconds. */
  const ZERO_TIME := -62_135_596_800_000_000_000

  datatype Receipt = Receipt(ids: seq<nat>, lastTS: int, lastID: Option<nat>)

  /** The messages found in a room, in input order. */
  function InRoom(lookups: seq<Lookup>, room: nat): (messages: seq<Message>)
    ensures forall i :: 0 <= i < |messages| ==> messages[i].room == room
  {
    if lookups == [] then []
    else
      var before, last := InRoom(lookups[..|lookups| - 1], room), lookups[|lookups| - 1];
      if last.Found? && last.message.room == room then before + [last.message] else before
  }

  /** The receipt lists exactly these messages, and its last one is the first that is as late as any of them. */
  ghost predicate Covers(receipt: Receipt, messages: seq<Message>) {
    && |receipt.ids| == |messages| && (forall i :: 0 <= i < |messages| ==> receipt.ids[i] == messages[i].id)
    && (forall i :: 0 <= i < |messages| ==> messages[i].timestamp <= receipt.lastTS)
    && (if receipt.lastID.None? then receipt.lastTS == ZERO_TIME
        else receipt.lastTS > ZERO_TIME && exists k :: IsLast(receipt, messages, k))
  }

  predicate IsLast(receipt: Receipt, messages: seq<Message>, k: int) {
    && 0 <= k < |messages| && receipt.lastID == Some(messages[k].id) && receipt.lastTS == messages[k].timestamp
    && forall i :: 0 <= i < k ==> messages[i].timestamp < messages[k].timestamp
  }

  lemma Added(receipt: Receipt, messages: seq<Message>, message: Message)
    requires Covers(receipt, messages)
    ensures var listed := receipt.(ids := receipt.ids + [message.id]);
            Covers(if receipt.lastTS < message.timestamp
                then listed.(lastTS := message.timestamp, lastID := Some(message.id)) else listed,
              messages + [message])
  {
    var more := messages + [message];
    var listed := receipt.(ids := receipt.ids + [message.id]);
    if receipt.lastTS < message.timestamp {
      assert IsLast(listed.(lastTS := message.timestamp, lastID := Some(message.id)), more, |messages|);
    } else if receipt.lastID.Some? {
      var k :| IsLast(receipt, messages, k);
      assert IsLast(listed, more, k);
    }
  }

  /** The rooms partition the messages that were found: each room with any has a receipt that covers exactly
      its own, in input order. */
  method ConvertReceipts(lookups: seq<Lookup>) returns (receipts: map<nat, Receipt>)
    ensures forall room :: room in receipts <==> InRoom(lookups, room) != []
    ensures forall room :: room in receipts ==> Covers(receipts[room], InRoom(lookups, room))
  {
    receipts := map[];
    for n := 0 to |lookups|
      invariant forall room :: room in receipts <==> InRoom(lookups[..n], room) != []
      invariant forall room :: room in receipts ==> Covers(receipts[room], InRoom(lookups[..n], room))
    {
      assert lookups[..n + 1][..n] == lookups[..n];
      if lookups[n].Found? {
        var message := lookups[n].message;
        var receipt := if message.room in receipts then receipts[message.room] else Receipt([], ZERO_TIME, None);
        Added(receipt, InRoom(lookups[..n], message.room), message);
        receipt := receipt.(ids := receipt.ids + [message.id]);
        if receipt.lastTS < message.timestamp {
          receipt := receipt.(lastTS := message.timestamp, lastID := Some(message.id));
        }
        receipts := receipts[message.room := receipt];
      }
    }
    assert lookups[..|lookups|] == lookups;
  }

  /** The messages of a room are found at increasing places of the input, and nothing of the room is elsewhere. */
  lemma {:induction false} InInputOrder(lookups: seq<Lookup>, room: nat) returns (at: seq<nat>)
    ensures |at| == |InRoom(lookups, room)|
    ensures forall k :: 0 <= k < |at| ==> at[k] < |lookups| && lookups[at[k]] == Found(InRoom(lookups, room)[k])
    ensures forall k, l :: 0 <= k < l < |at| ==> at[k] < at[l]
    ensures forall i :: 0 <= i < |lookups| && lookups[i].Found? && lookups[i].message.room == room ==> i in at
  {
    if lookups == [] {
      at := [];
    } else {
      var n := |lookups| - 1;
      at := InInputOrder(lookups[..n], room);
      if lookups[n].Found? && lookups[n].message.room == room {
        at := at + [n];
      }
    }
  }

  lemma {:induction false} EveryMessageOnce(lookups: seq<Lookup>, message: Message)
    ensures multiset(InRoom(lookups, message.room))[message] == multiset(lookups)[Found(message)]
  {
    if lookups != [] {
      EveryMessageOnce(lookups[..|lookups| - 1], message);
      assert lookups == lookups[..|lookups| - 1] + [lookups[|lookups| - 1]];
    }
  }
}
