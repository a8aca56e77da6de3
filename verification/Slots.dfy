/** Slots of three seconds, the witness each belongs to, and how many blocks a chain can have in one. */
module Slots {
  import opened Basics
  import opened Blocks
  import opened RecentBlocks

  const SECOND := 1_000_000_000
  const SLOT_LENGTH := 3
  const BLOCK_NUM_PER_WITNESS := 6

  function SlotOf(time: nat): nat {
    time / SECOND / SLOT_LENGTH
  }

  function WitnessOf(time: nat, active: seq<string>): string
    requires active != []
  {
    active[SlotOf(time) % |active|]
  }

  predicate SameRun(parent: Head, b: Head) {
    && parent.producer == b.producer
    && 0 <= parent.time && 0 <= b.time && SlotOf(parent.time) == SlotOf(b.time)
  }

  /** The serial number a block gets from its parent's; none if that is beyond the limit. */
  method SerialNum(parent: Head, parentSerial: nat, b: Head) returns (serial: Option<nat>)
    requires parent.time >= 0 && b.time >= 0
    ensures serial == SerialAfter(parent, parentSerial, b)
    ensures serial.None? <==> SameRun(parent, b) && parentSerial >= 5
    ensures serial.Some? ==> serial.value == if SameRun(parent, b) then parentSerial + 1 else 0
  {
    var n;
    if parent.producer != b.producer || SlotOf(parent.time) != SlotOf(b.time) {
      n := 0;
    } else {
      n := parentSerial + 1;
    }
    if n >= BLOCK_NUM_PER_WITNESS {
      return None;
    }
    serial := Some(n);
  }

  function SerialAfter(parent: Head, parentSerial: nat, b: Head): Option<nat> {
    var n := if SameRun(parent, b) then parentSerial + 1 else 0;
    if n >= BLOCK_NUM_PER_WITNESS then None else Some(n)
  }

  /** A chain of linked blocks: each was given the serial number that follows its parent's, and made by the witness
      that the parent's active list has for its time. */
  ghost predicate Scheduled(c: seq<Head>, serials: seq<nat>, active: seq<seq<string>>) {
    && |c| == |serials| == |active| && |c| > 0 && c[0].time >= 0
    && (forall i :: 0 < i < |c| ==> ScheduledAt(c, serials, active, i))
  }

  ghost predicate ScheduledAt(c: seq<Head>, serials: seq<nat>, active: seq<seq<string>>, i: nat)
    requires |c| == |serials| == |active| && 0 < i < |c|
  {
    && VerifyBlockHead(c[i], c[i - 1]) && c[i].time >= 0
    && active[i - 1] != [] && c[i].producer == WitnessOf(c[i].time, active[i - 1])
    && SerialAfter(c[i - 1], serials[i - 1], c[i]) == Some(serials[i])
  }

  lemma {:induction false} TimesRise(c: seq<Head>, serials: seq<nat>, active: seq<seq<string>>, i: nat, j: nat)
    requires Scheduled(c, serials, active) && i <= j < |c|
    ensures 0 <= c[i].time <= c[j].time && SlotOf(c[i].time) <= SlotOf(c[j].time)
  {
    assert i > 0 ==> ScheduledAt(c, serials, active, i);
    if i < j {
      TimesRise(c, serials, active, i, j - 1);
      assert ScheduledAt(c, serials, active, j);
      SlotsRise(c[j - 1].time, c[j].time);
    }
  }

  lemma SlotsRise(s: nat, t: nat)
    requires s <= t
    ensures SlotOf(s) <= SlotOf(t)
  {
  }

  /** The serial number counts the run: the blocks back to it are of one witness and slot, and there the run begins. */
  lemma {:induction false} SerialCountsRun(c: seq<Head>, serials: seq<nat>, active: seq<seq<string>>, i: nat)
    requires Scheduled(c, serials, active) && serials[0] == 0 && i < |c|
    ensures serials[i] <= i && (i > 0 ==> serials[i] < BLOCK_NUM_PER_WITNESS)
    ensures forall j :: i - serials[i] < j <= i ==> SameRun(c[j - 1], c[j])
    ensures serials[i] < i ==> !SameRun(c[i - serials[i] - 1], c[i - serials[i]])
  {
    if i > 0 {
      assert ScheduledAt(c, serials, active, i);
      SerialCountsRun(c, serials, active, i - 1);
    }
  }

  /** A block is refused just if it would be the seventh of a run: the six before it are one, and it goes on. */
  lemma RefusedIff(c: seq<Head>, serials: seq<nat>, active: seq<seq<string>>, i: nat, b: Head)
    requires Scheduled(c, serials, active) && serials[0] == 0 && i < |c|
    ensures SerialAfter(c[i], serials[i], b).None? <==>
            i >= 5 && SameRun(c[i], b) && forall j :: i - 5 < j <= i ==> SameRun(c[j - 1], c[j])
  {
    SerialCountsRun(c, serials, active, i);
  }

  /** The slots are three seconds long and go round the list. */
  lemma WitnessAt(k: nat, d: nat, active: seq<string>)
    requires active != [] && d < 3_000_000_000
    ensures WitnessOf(k * 3_000_000_000 + d, active) == active[k % |active|]
  {
    assert SlotOf(k * 3_000_000_000 + d) == k;
  }

  /** Along the blocks of a slot the witness is one and the serial number counts up. */
  lemma {:induction false} SerialCountsSlot(
    c: seq<Head>, serials: seq<nat>, active: seq<seq<string>>, list: seq<string>, i: nat, j: nat)
    requires Scheduled(c, serials, active) && 0 < i <= j < |c| && SlotOf(TimeAt(c, i)) == SlotOf(TimeAt(c, j))
    requires forall k :: i - 1 <= k < j ==> active[k] == list
    ensures serials[j] == serials[i] + (j - i) && c[j].producer == c[i].producer
  {
    assert ScheduledAt(c, serials, active, i);
    if i < j {
      TimesRise(c, serials, active, i, j - 1);
      TimesRise(c, serials, active, j - 1, j);
      SerialCountsSlot(c, serials, active, list, i, j - 1);
      assert ScheduledAt(c, serials, active, j) && ScheduledAt(c, serials, active, j - 1);
    }
  }

  function TimeAt(c: seq<Head>, i: nat): nat
    requires i < |c|
  {
    if c[i].time < 0 then 0 else c[i].time
  }

  /** Two blocks of one slot are less than six apart while the active list does not change: a slot holds at most
      six blocks of a chain. */
  lemma AtMostSixPerSlot(
    c: seq<Head>, serials: seq<nat>, active: seq<seq<string>>, list: seq<string>, i: nat, j: nat)
    requires Scheduled(c, serials, active) && 0 < i <= j < |c| && SlotOf(TimeAt(c, i)) == SlotOf(TimeAt(c, j))
    requires forall k :: i - 1 <= k < j ==> active[k] == list
    ensures j - i < BLOCK_NUM_PER_WITNESS
  {
    SerialCountsSlot(c, serials, active, list, i, j);
    assert ScheduledAt(c, serials, active, j);
  }
}
