/**
 Stream orders in backfill: incoming messages are ordered by their server time, and outgoing ones, which have
 none, are squeezed between the incoming messages around them.
 */
module StreamOrder {
  import opened Options

  datatype Item = Incoming(serverSent: int) | Outgoing(dateSent: int) | Other

  function Min(a: int, b: int): int { if a <= b then a else b }

  function Max(a: int, b: int): int { if a >= b then a else b }

  /** The server time of the closest incoming item before i, or zero. */
  function Previous(items: seq<Item>, i: nat): int
    requires i <= |items|
  {
    if i == 0 then 0 else if items[i - 1].Incoming? then items[i - 1].serverSent else Previous(items, i - 1)
  }

  /** The server time of the closest incoming item from i on, or the current time. */
  function Next(items: seq<Item>, i: nat, now: int): int
    requires i <= |items|
    decreases |items| - i
  {
    if i == |items| then now else if items[i].Incoming? then items[i].serverSent else Next(items, i + 1, now)
  }

  /** The clock is read for each item on its own. */
  function Order(items: seq<Item>, clock: seq<int>, i: nat): int
    requires i < |items| == |clock|
  {
    match items[i]
    case Incoming(serverSent) => serverSent
    case Outgoing(dateSent) => Max(Min(dateSent, Next(items, i + 1, clock[i]) - 1), Previous(items, i) + 1)
    case Other => 0
  }

  method FindNextStreamOrder(items: seq<Item>, start: nat, now: int) returns (next: int)
    requires start <= |items|
    ensures next == Next(items, start, now)
  {
    for i := start to |items|
      invariant Next(items, start, now) == Next(items, i, now)
    {
      if items[i].Incoming? {
        return items[i].serverSent;
      }
    }
    next := now;
  }

  method StreamOrders(items: seq<Item>, clock: seq<int>) returns (orders: seq<int>)
    requires |items| == |clock|
    ensures |orders| == |items| && forall i :: 0 <= i < |items| ==> orders[i] == Order(items, clock, i)
  {
    orders := [];
    var prevStreamOrder := 0;
    for i := 0 to |items|
      invariant |orders| == i && forall j :: 0 <= j < i ==> orders[j] == Order(items, clock, j)
      invariant prevStreamOrder == Previous(items, i)
    {
      var streamOrder := 0;
      match items[i] {
        case Incoming(serverSent) =>
          streamOrder := serverSent;
          prevStreamOrder := streamOrder;
        case Outgoing(dateSent) =>
          streamOrder := dateSent;
          var next := FindNextStreamOrder(items, i + 1, clock[i]);
          streamOrder := Min(streamOrder, next - 1);
          streamOrder := Max(streamOrder, prevStreamOrder + 1);
        case Other =>
      }
      orders := orders + [streamOrder];
    }
  }

  /** An outgoing item always comes after the previous incoming one, and before the next one exactly if there
      is room between the two. */
  lemma SqueezedExactly(items: seq<Item>, clock: seq<int>, i: nat)
    requires i < |items| == |clock| && items[i].Outgoing?
    ensures Order(items, clock, i) > Previous(items, i)
    ensures Order(items, clock, i) < Next(items, i + 1, clock[i])
            <==> Next(items, i + 1, clock[i]) >= Previous(items, i) + 2
  {
  }

  /** An item keeps its own time if it can: an outgoing one exactly if it was sent strictly between the incoming
      items around it. One that was sent too early or too late comes right after or right before them. */
  lemma OrderExactly(items: seq<Item>, clock: seq<int>, i: nat)
    requires i < |items| == |clock|
    ensures items[i].Incoming? ==> Order(items, clock, i) == items[i].serverSent
    ensures items[i].Other? ==> Order(items, clock, i) == 0
    ensures items[i].Outgoing? ==>
              var sent, prev, next := items[i].dateSent, Previous(items, i), Next(items, i + 1, clock[i]);
              && (prev < sent < next <==> Order(items, clock, i) == sent && sent < next)
              && (sent <= prev ==> Order(items, clock, i) == prev + 1)
              && (sent >= next >= prev + 2 ==> Order(items, clock, i) == next - 1)
              && (next < prev + 2 ==> Order(items, clock, i) == prev + 1)
  {
  }

  lemma {:induction false} PreviousIs(items: seq<Item>, i: nat, k: nat)
    requires k < i <= |items| && items[k].Incoming? && forall j :: k < j < i ==> !items[j].Incoming?
    ensures Previous(items, i) == items[k].serverSent
  {
    if k < i - 1 {
      PreviousIs(items, i - 1, k);
    }
  }

  lemma {:induction false} NextIs(items: seq<Item>, i: nat, k: nat, now: int)
    requires i <= k < |items| && items[k].Incoming? && forall j :: i <= j < k ==> !items[j].Incoming?
    ensures Next(items, i, now) == items[k].serverSent
    decreases k - i
  {
    if i < k {
      NextIs(items, i + 1, k, now);
    }
  }

  /** Before the first incoming item the previous time is zero, and after the last one the next is the current time. */
  lemma {:induction false} Ends(items: seq<Item>, i: nat, now: int)
    requires i <= |items|
    ensures NoIncoming(items, 0, i) ==> Previous(items, i) == 0
    ensures NoIncoming(items, i, |items|) ==> Next(items, i, now) == now
  {
    if i > 0 {
      EndsBefore(items, i);
    }
    EndsAfter(items, i, now);
  }

  lemma {:induction false} EndsBefore(items: seq<Item>, i: nat)
    requires i <= |items|
    ensures NoIncoming(items, 0, i) ==> Previous(items, i) == 0
  {
    if i > 0 {
      EndsBefore(items, i - 1);
    }
  }

  lemma {:induction false} EndsAfter(items: seq<Item>, i: nat, now: int)
    requires i <= |items|
    ensures NoIncoming(items, i, |items|) ==> Next(items, i, now) == now
    decreases |items| - i
  {
    if i < |items| {
      EndsAfter(items, i + 1, now);
    }
  }

  /** Between incoming items one millisecond apart an outgoing one gets the order of the second. */
  lemma NoRoomToSqueeze()
    ensures var items, clock := [Incoming(5), Outgoing(5), Incoming(6)], [9, 9, 9];
            Order(items, clock, 1) == 6 == Order(items, clock, 2)
  {
  }

  /** Items are in order of time, and consecutive incoming ones leave room for what was sent in between. */
  predicate Chronological(items: seq<Item>, clock: seq<int>)
    requires |items| == |clock|
  {
    && (forall i :: 0 <= i < |items| && items[i].Incoming? ==> items[i].serverSent >= 2)
    && (forall i, j :: 0 <= i < j < |items| && items[i].Incoming? && items[j].Incoming? ==>
          items[j].serverSent >= items[i].serverSent + 2)
    && (forall i, j :: 0 <= i < j < |items| && items[i].Outgoing? && items[j].Outgoing? ==>
          items[i].dateSent <= items[j].dateSent)
    && (forall i, j :: 0 <= i < j < |clock| ==> clock[i] <= clock[j])
  }

  lemma {:induction false} PreviousAtLeast(items: seq<Item>, clock: seq<int>, i: nat, j: nat)
    requires |items| == |clock| && Chronological(items, clock) && i < j <= |items| && items[i].Incoming?
    ensures Previous(items, j) >= items[i].serverSent
  {
    if !items[j - 1].Incoming? {
      PreviousAtLeast(items, clock, i, j - 1);
    }
  }

  lemma {:induction false} NextAtMost(items: seq<Item>, clock: seq<int>, i: nat, j: nat, now: int)
    requires |items| == |clock| && Chronological(items, clock) && i <= j < |items| && items[j].Incoming?
    ensures Next(items, i, now) <= items[j].serverSent
    decreases j - i
  {
    if !items[i].Incoming? {
      NextAtMost(items, clock, i + 1, j, now);
    }
  }

  /** If there is an incoming item from i on, there is room before it. */
  lemma {:induction false} Room(items: seq<Item>, clock: seq<int>, i: nat, j: nat, now: int)
    requires |items| == |clock| && Chronological(items, clock) && i <= j < |items| && items[j].Incoming?
    ensures Next(items, i, now) >= Previous(items, i) + 2
    decreases j - i
  {
    if items[i].Incoming? {
      Before(items, clock, i, i);
    } else {
      Room(items, clock, i + 1, j, now);
    }
  }

  lemma {:induction false} Before(items: seq<Item>, clock: seq<int>, i: nat, j: nat)
    requires |items| == |clock| && Chronological(items, clock) && i <= j < |items| && items[j].Incoming?
    ensures Previous(items, i) + 2 <= items[j].serverSent
  {
    if i > 0 && !items[i - 1].Incoming? {
      Before(items, clock, i - 1, j);
    }
  }

  predicate NoIncoming(items: seq<Item>, i: nat, j: nat)
    requires j <= |items|
  {
    forall k :: i <= k < j ==> !items[k].Incoming?
  }

  lemma {:induction false} SameGap(items: seq<Item>, i: nat, j: nat, now: int, later: int)
    requires i < j < |items| && NoIncoming(items, i, j + 1) && now <= later
    ensures Previous(items, i) == Previous(items, j) && Next(items, i + 1, now) <= Next(items, j + 1, later)
    decreases j - i
  {
    if i + 1 < j {
      SameGap(items, i + 1, j, now, later);
    } else {
      LaterEnd(items, j + 1, now, later);
    }
  }

  lemma {:induction false} LaterEnd(items: seq<Item>, i: nat, now: int, later: int)
    requires i <= |items| && now <= later
    ensures Next(items, i, now) <= Next(items, i, later)
    decreases |items| - i
  {
    if i < |items| && !items[i].Incoming? {
      LaterEnd(items, i + 1, now, later);
    }
  }

  /** Of two items with a direction, the later one never has a smaller stream order, and it has a greater one
      unless both are outgoing. */
  lemma OrdersSorted(items: seq<Item>, clock: seq<int>, i: nat, j: nat)
    requires |items| == |clock| && Chronological(items, clock) && i < j < |items| && !items[i].Other?
    requires !items[j].Other?
    ensures Order(items, clock, i) <= Order(items, clock, j)
    ensures !(items[i].Outgoing? && items[j].Outgoing?) ==> Order(items, clock, i) < Order(items, clock, j)
  {
    if items[i].Incoming? {
      if items[j].Outgoing? {
        PreviousAtLeast(items, clock, i, j);
        SqueezedExactly(items, clock, j);
      }
    } else if NoIncoming(items, i, j + 1) {
      SameGap(items, i, j, clock[i], clock[j]);
    } else {
      var k :| i < k <= j && items[k].Incoming?;
      Room(items, clock, i + 1, k, clock[i]);
      NextAtMost(items, clock, i + 1, k, clock[i]);
      SqueezedExactly(items, clock, i);
      if k < j {
        PreviousAtLeast(items, clock, k, j);
        if items[j].Outgoing? { SqueezedExactly(items, clock, j); }
      }
    }
  }
}
