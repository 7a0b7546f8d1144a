/**
 Transaction IDs are millisecond timestamps that never repeat, and they become the timestamps of the Signal
 messages sent for them.
 */
module Transactions {
  import opened Options

  const UINT64_RANGE := 0x1_0000_0000_0000_0000

  /******* Decimal numbers *******/

  function Digit(d: nat): (c: char)
    requires d < 10
  {
    '0' + d as char
  }

  function FormatInt(n: nat): (s: string)
    ensures s != [] && forall i :: 0 <= i < |s| ==> '0' <= s[i] <= '9'
  {
    if n < 10 then [Digit(n)] else FormatInt(n / 10) + [Digit(n % 10)]
  }

  /** The value of an unsigned 64-bit decimal number, or nothing if it isn't one. */
  function ParseUint(s: string): Option<nat> {
    if s == [] then None else ParseDigits(s)
  }

  function ParseDigits(s: string): (n: Option<nat>)
    ensures n.Some? ==> n.value < UINT64_RANGE
  {
    if s == [] then Some(0)
    else
      var c, high := s[|s| - 1], ParseDigits(s[..|s| - 1]);
      if high.None? || !('0' <= c <= '9') then None
      else
        var n := high.value * 10 + (c as int - '0' as int);
        if n < UINT64_RANGE then Some(n) else None
  }

  /** The number that a string of digits stands for, however large. */
  function Value(s: string): nat
    requires forall i :: 0 <= i < |s| ==> '0' <= s[i] <= '9'
  {
    if s == [] then 0 else Value(s[..|s| - 1]) * 10 + (s[|s| - 1] as int - '0' as int)
  }

  /** Exactly the non-empty strings of digits that stand for a 64-bit number are parsed, as that number. */
  lemma {:induction false} ParseExactly(s: string)
    ensures ParseDigits(s).Some?
            <==> (forall i :: 0 <= i < |s| ==> '0' <= s[i] <= '9') && Value(s) < UINT64_RANGE
    ensures ParseDigits(s).Some? ==> ParseDigits(s) == Some(Value(s))
    ensures ParseUint(s) == if s == [] then None else ParseDigits(s)
  {
    if s != [] {
      var init := s[..|s| - 1];
      ParseExactly(init);
      if forall i :: 0 <= i < |s| ==> '0' <= s[i] <= '9' {
        assert forall i :: 0 <= i < |init| ==> init[i] == s[i];
      } else if ParseDigits(init).Some? {
        var i :| 0 <= i < |s| && !('0' <= s[i] <= '9');
        assert i < |init| ==> init[i] == s[i];
      }
    }
  }

  lemma {:induction false} DecimalRoundTrip(n: nat)
    requires n < UINT64_RANGE
    ensures ParseUint(FormatInt(n)) == Some(n)
  {
    if n < 10 {
      assert [Digit(n)][..0] == [] && Digit(n) as int == '0' as int + n;
      assert ParseDigits([Digit(n)]) == Some(n);
    } else {
      assert FormatInt(n)[..|FormatInt(n)| - 1] == FormatInt(n / 10);
      DecimalRoundTrip(n / 10);
    }
  }

  /******* Generating IDs *******/

  /** The current time, or one more than last time if the clock hasn't advanced. */
  function NextTimestamp(last: nat, now: nat): nat { if now > last then now else last + 1 }

  /** The last timestamp after these clock readings, starting from the given one. */
  function LastAfter(last: nat, readings: seq<nat>): nat {
    if readings == [] then last
    else NextTimestamp(LastAfter(last, readings[..|readings| - 1]), readings[|readings| - 1])
  }

  class Connector {
    var lastTxnTS: nat

    constructor ()
      ensures lastTxnTS == 0
    {
      lastTxnTS := 0;
    }

    method GenerateTransactionID(now: nat) returns (id: string)
      modifies this
      ensures lastTxnTS == NextTimestamp(old(lastTxnTS), now) && id == FormatInt(lastTxnTS)
    {
      lastTxnTS := if now >= lastTxnTS + 1 then now else lastTxnTS + 1;
      id := FormatInt(lastTxnTS);
    }
  }

  function Ids(readings: seq<nat>): (ids: seq<nat>)
    ensures |ids| == |readings|
  {
    seq(|readings|, k requires 0 <= k < |readings| => LastAfter(0, readings[..k + 1]))
  }

  lemma {:induction false} LastGrows(last: nat, readings: seq<nat>, i: nat, j: nat)
    requires i < j <= |readings|
    ensures LastAfter(last, readings[..i]) < LastAfter(last, readings[..j])
  {
    assert readings[..j][..j - 1] == readings[..j - 1];
    if i < j - 1 {
      LastGrows(last, readings, i, j - 1);
    }
  }

  /** Whatever the clock does, IDs are strictly increasing. */
  lemma IdsIncrease(readings: seq<nat>, i: nat, j: nat)
    requires i < j < |readings|
    ensures Ids(readings)[i] < Ids(readings)[j]
  {
    LastGrows(0, readings, i + 1, j + 1);
  }

  function Highest(readings: seq<nat>): (h: nat)
    ensures forall i :: 0 <= i < |readings| ==> readings[i] <= h
    ensures readings != [] ==> h in readings
  {
    if readings == [] then 0
    else
      var h := Highest(readings[..|readings| - 1]);
      assert forall i :: 0 <= i < |readings| - 1 ==> readings[..|readings| - 1][i] == readings[i];
      if |readings| > 1 && h >= readings[|readings| - 1] then h else readings[|readings| - 1]
  }

  /** After k calls the last ID is ahead of the highest reading by less than k exactly if some reading was not
      zero, and in any case by at most k. It is never behind the last reading. */
  lemma {:induction false} LeadBounded(readings: seq<nat>)
    requires readings != []
    ensures LastAfter(0, readings) - Highest(readings) < |readings| <==> Highest(readings) >= 1
    ensures LastAfter(0, readings) - Highest(readings) <= |readings|
    ensures LastAfter(0, readings) >= readings[|readings| - 1]
  {
    var init := readings[..|readings| - 1];
    if init == [] {
      assert LastAfter(0, init) == 0;
    } else {
      LeadBounded(init);
      assert Highest(init) in init;
      var i :| 0 <= i < |init| && init[i] == Highest(init);
      assert readings[i] == init[i];
    }
  }

  /******* Using them *******/

  function TimestampForEvent(txnID: string, eventTimestamp: nat, relayed: bool, now: nat): nat {
    if relayed then now
    else if |txnID| > 0 && ParseUint(txnID).Some? then ParseUint(txnID).value
    else eventTimestamp
  }

  /** A relayed message gets the current time whatever its ID, and another one that of its event exactly if it has no
      ID that is a 64-bit number, or one that happens to be the same. */
  lemma TimestampExactly(txnID: string, eventTimestamp: nat, relayed: bool, now: nat)
    ensures var ts := TimestampForEvent(txnID, eventTimestamp, relayed, now);
            && (relayed ==> ts == now)
            && (!relayed && ParseUint(txnID).None? ==> ts == eventTimestamp)
            && (!relayed && ParseUint(txnID).Some? ==> ts == ParseUint(txnID).value)
            && (ParseUint(txnID).Some?
                <==> (txnID != [] && (forall i :: 0 <= i < |txnID| ==> '0' <= txnID[i] <= '9')
                      && Value(txnID) < UINT64_RANGE))
  {
    ParseExactly(txnID);
  }

  /** Messages that aren't relayed get distinct timestamps, in the order of their transaction IDs. */
  lemma TimestampsDistinct(readings: seq<nat>, i: nat, j: nat, eventTimestamps: (nat, nat), nows: (nat, nat))
    requires i < j < |readings| && Ids(readings)[j] < UINT64_RANGE
    ensures TimestampForEvent(FormatInt(Ids(readings)[i]), eventTimestamps.0, false, nows.0)
            < TimestampForEvent(FormatInt(Ids(readings)[j]), eventTimestamps.1, false, nows.1)
  {
    IdsIncrease(readings, i, j);
    DecimalRoundTrip(Ids(readings)[i]);
    DecimalRoundTrip(Ids(readings)[j]);
  }
}
