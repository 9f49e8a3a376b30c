/** Slots between two blocks, as three writers count them: the authority list, the block statistics and the
    staker's missed-slot loop.  Timestamps are uint64 and strictly increase along parents. */
module SlotAccounting {
  import opened Chain
  import opened Points
  import opened Types
  import opened Sorting

  const BLOCK_INTERVAL: nat := 10
  const DETAILED_SLOT_WINDOW: nat := 360

  predicate Increasing(prev: nat, now: nat) {
    prev < now && now + BLOCK_INTERVAL < UINT64
  }

  /** The slots since the last block, its own included. */
  function SlotsSince(prev: nat, now: nat): nat
    requires prev < now
  {
    (now - prev + BLOCK_INTERVAL - 1) / BLOCK_INTERVAL
  }

  /** That is the number of intervals needed to reach the block. */
  lemma {:induction false} SlotsReachTheBlock(prev: nat, now: nat, s: nat)
    requires prev < now
    ensures SlotsSince(prev, now) <= s <==> now <= prev + s * 10
    ensures SlotsSince(prev, now) >= 1
  {
  }

  /** `recent_missed_slots` of the block statistics. */
  function RecentMissedSlots(prev: nat, now: nat): int
    requires prev < now
  {
    SlotsSince(prev, now) - 1
  }

  datatype RecentSlot = RecentSlot(filled: bool, proposer: Address, time: nat)

  datatype Aggregate = Aggregate(missed: nat, filled: nat, time: nat)

  /** The times of the slot points of a block: its own, the passed slots of the last hour, and the parent's for
      the total of the slots before that. */
  function SlotTimes(prev: nat, now: nat): set<nat>
    requires prev < now
  {
    var slots := SlotsSince(prev, now);
    var first := if slots > DETAILED_SLOT_WINDOW then slots - DETAILED_SLOT_WINDOW else 0;
    {now} + (set a: nat | first <= a < slots - 1 :: prev + a * BLOCK_INTERVAL) +
    if slots > DETAILED_SLOT_WINDOW then {prev} else {}
  }

  /** They lie between the two blocks, and one lies at the parent exactly when a slot has passed. */
  lemma {:induction false} SlotTimesInBetween(prev: nat, now: nat, t: nat)
    requires prev < now
    ensures t in SlotTimes(prev, now) ==> prev <= t <= now
    ensures prev in SlotTimes(prev, now) <==> SlotsSince(prev, now) > 1
  {
    var slots := SlotsSince(prev, now);
    SlotsReachTheBlock(prev, now, slots - 1);
    if 1 < slots <= DETAILED_SLOT_WINDOW {
      assert prev + 0 * BLOCK_INTERVAL in SlotTimes(prev, now);
    }
  }

  function TimesOf(recent: seq<RecentSlot>): set<nat> {
    set r <- recent :: r.time
  }

  /** The points of the authority list's writer: the block's own slot, the missed slots of the last hour,
      and a total for the slots before that.  The missed slots so reported agree with the block statistics
      exactly up to an hour; beyond it the total trades one missed slot for a filled one. */
  method RecordSlots(prev: nat, now: nat, signer: Address, shuffled: seq<Address>)
    returns (recent: seq<RecentSlot>, aggregated: Option<Aggregate>)
    requires Increasing(prev, now)
    ensures |recent| >= 1 && recent[0] == RecentSlot(true, signer, now)
    ensures var first := SlotsSince(prev, now) - |recent|;
            first >= 0 && forall k :: 1 <= k < |recent| ==>
              recent[k] == RecentSlot(false, if first + k - 1 < |shuffled| then shuffled[first + k - 1] else 0,
                                      prev + (first + k - 1) * 10)
    ensures |recent| <= 360
    ensures |recent| + (if aggregated.Some? then aggregated.value.missed + aggregated.value.filled else 0) ==
            SlotsSince(prev, now)
    ensures aggregated.Some? <==> SlotsSince(prev, now) > 360
    ensures aggregated.Some? ==> aggregated.value.filled == 1
    ensures aggregated.Some? ==> aggregated.value.time == prev
    ensures SlotTimes(prev, now) == TimesOf(recent) + if aggregated.Some? then {aggregated.value.time} else {}
    ensures |recent| - 1 + (if aggregated.Some? then aggregated.value.missed else 0) ==
            SlotsSince(prev, now) - 1 - (if SlotsSince(prev, now) <= 360 then 0 else 1)
  {
    var slots := (now - prev + BLOCK_INTERVAL - 1) / BLOCK_INTERVAL;
    SlotsReachTheBlock(prev, now, 0);
    var startSlot := 0;
    if slots > DETAILED_SLOT_WINDOW {
      startSlot := slots - DETAILED_SLOT_WINDOW;
    }
    recent := [RecentSlot(true, signer, now)];
    var proposer := signer;
    for a := startSlot to slots - 1
      invariant |recent| == 1 + a - startSlot && recent[0] == RecentSlot(true, signer, now)
      invariant forall k :: 1 <= k < |recent| ==>
        recent[k] == RecentSlot(false, if startSlot + k - 1 < |shuffled| then shuffled[startSlot + k - 1] else 0,
                                prev + (startSlot + k - 1) * BLOCK_INTERVAL)
    {
      var slotTime := prev + a * BLOCK_INTERVAL;
      var isFilled := a == slots - 1;
      if !isFilled {
        if a >= |shuffled| {
          proposer := 0;
        } else {
          proposer := shuffled[a];
        }
      }
      recent := recent + [RecentSlot(isFilled, proposer, slotTime)];
    }
    aggregated := None;
    if slots > DETAILED_SLOT_WINDOW {
      aggregated := Some(Aggregate(slots - DETAILED_SLOT_WINDOW - 1, 1, prev));
    }
    TimesOfSlots(prev, signer, now, startSlot, shuffled, recent);
  }

  lemma {:induction false} TimesOfSlots(prev: nat, signer: Address, now: nat, first: nat, shuffled: seq<Address>,
                                        recent: seq<RecentSlot>)
    requires |recent| >= 1 && recent[0] == RecentSlot(true, signer, now)
    requires forall k :: 1 <= k < |recent| ==>
      recent[k] == RecentSlot(false, if first + k - 1 < |shuffled| then shuffled[first + k - 1] else 0,
                              prev + (first + k - 1) * BLOCK_INTERVAL)
    ensures TimesOf(recent) ==
            {now} + set a: nat | first <= a < first + |recent| - 1 :: prev + a * BLOCK_INTERVAL
  {
    var passed := set a: nat | first <= a < first + |recent| - 1 :: prev + a * BLOCK_INTERVAL;
    forall t | t in passed
      ensures t in TimesOf(recent)
    {
      var a: nat :| first <= a < first + |recent| - 1 && t == prev + a * BLOCK_INTERVAL;
      assert recent[a - first + 1] in recent;
    }
    assert recent[0] in recent;
    forall k | 1 <= k < |recent|
      ensures recent[k].time in passed
    {
      var a := first + k - 1;
      assert recent[k].time == prev + a * BLOCK_INTERVAL;
    }
    assert TimesOf(recent) == {now} + passed;
  }

  // The points of a block under proof of authority.

  /** The times of all the points that a block's handlers write: the slot points while proof of authority lasts
      and a previous block is known, and otherwise the block's own time only. */
  function BlockStamps(activeBlock: nat): Stamps {
    (b: Block) =>
      if 1 < b.Number() < activeBlock && b.parent.timestamp < b.timestamp
      then SlotTimes(b.parent.timestamp, b.timestamp) else {b.timestamp}
  }

  lemma {:induction false} BlockStampsAreStamping(activeBlock: nat)
    ensures Stamping(BlockStamps(activeBlock))
  {
    forall b: Block, t | t in BlockStamps(activeBlock)(b)
      ensures t <= b.timestamp && (b.Child? && b.Timely() ==> b.parent.timestamp <= t)
    {
      if 1 < b.Number() < activeBlock && b.parent.timestamp < b.timestamp {
        SlotTimesInBetween(b.parent.timestamp, b.timestamp, t);
      }
    }
  }

  /** A rollback leaves nothing of the abandoned branch exactly when its first block needed no slot but its own,
      was block 1, or was signed under proof of stake. */
  lemma {:induction false} LeftoverIff(activeBlock: nat, side: Block, finalized: Block)
    requires side.Timely() && Within(finalized, side) && finalized.Number() < side.Number()
    ensures var b := side.At(finalized.Number() + 1);
            && finalized.timestamp < b.timestamp
            && (Leftover(BlockStamps(activeBlock), side, finalized) == {} <==>
                b.Number() == 1 || b.Number() >= activeBlock || SlotsSince(finalized.timestamp, b.timestamp) == 1)
  {
    var b := side.At(finalized.Number() + 1);
    AtAt(side, finalized.Number() + 1, finalized.Number());
    AtAt(side, finalized.Number() + 1, finalized.Number() + 1);
    assert b.At(finalized.Number()) == b.parent == finalized;
    TimestampsFollowHeight(b, side);
    BlockStampsAreStamping(activeBlock);
    LeftoverIs(BlockStamps(activeBlock), side, finalized);
    SlotTimesInBetween(finalized.timestamp, b.timestamp, finalized.timestamp);
    SlotsReachTheBlock(finalized.timestamp, b.timestamp, 1);
  }

  /** The scheduled proposers of one slot, in order. */
  function Scheduled(isScheduled: (nat, Address) -> bool, time: nat, proposers: seq<Address>): seq<Address> {
    Filter((a: Address) => isScheduled(time, a), proposers)
  }

  /** The signers of `n` slots from `time` on. */
  function ScheduledOver(isScheduled: (nat, Address) -> bool, time: nat, n: nat, proposers: seq<Address>): seq<Address> {
    if n == 0 then [] else
    ScheduledOver(isScheduled, time, n - 1, proposers) +
    Scheduled(isScheduled, time + (n - 1) * BLOCK_INTERVAL, proposers)
  }

  /** The online half of `MissedSlots`: every proposer scheduled in a slot that passed without a block. */
  method MissedOnline(isScheduled: (nat, Address) -> bool, prev: nat, now: nat, proposers: seq<Address>)
    returns (missed: seq<Address>)
    requires Increasing(prev, now)
    ensures missed == ScheduledOver(isScheduled, prev + BLOCK_INTERVAL, RecentMissedSlots(prev, now), proposers)
  {
    missed := [];
    var i := prev + BLOCK_INTERVAL;
    ghost var n := 0;
    while i < now
      invariant i == prev + BLOCK_INTERVAL + n * BLOCK_INTERVAL
      invariant i - BLOCK_INTERVAL < now
      invariant missed == ScheduledOver(isScheduled, prev + BLOCK_INTERVAL, n, proposers)
      decreases now - i
    {
      ghost var before := missed;
      for k := 0 to |proposers|
        invariant missed == before + Scheduled(isScheduled, i, proposers[..k])
      {
        FilterSnoc((a: Address) => isScheduled(i, a), proposers[..k], proposers[k]);
        assert proposers[..k + 1] == proposers[..k] + [proposers[k]];
        if isScheduled(i, proposers[k]) {
          missed := missed + [proposers[k]];
        }
      }
      assert proposers[..|proposers|] == proposers;
      i := i + BLOCK_INTERVAL;
      n := n + 1;
    }
    SlotsReachTheBlock(prev, now, n);
    SlotsReachTheBlock(prev, now, n + 1);
  }

  lemma {:induction false} FilterSnoc<T>(p: T -> bool, s: seq<T>, x: T)
    ensures Filter(p, s + [x]) == Filter(p, s) + if p(x) then [x] else []
  {
    if s != [] {
      FilterSnoc(p, s[1..], x);
      assert (s + [x])[1..] == s[1..] + [x];
    }
  }

  /** When every slot schedules exactly one proposer, the loop reports as many missed slots as the block
      statistics do. */
  lemma {:induction false} OneMissPerSlot(isScheduled: (nat, Address) -> bool, time: nat, n: nat, proposers: seq<Address>)
    requires forall t: nat :: |Scheduled(isScheduled, t, proposers)| == 1
    ensures |ScheduledOver(isScheduled, time, n, proposers)| == n
  {
    if n > 0 {
      OneMissPerSlot(isScheduled, time, n - 1, proposers);
    }
  }

  /** How often an address comes up in `n` slots from `time` on: as often as it is a proposer, in each slot in which
      it is scheduled. */
  function Turns(isScheduled: (nat, Address) -> bool, proposers: seq<Address>, a: Address, time: nat, n: nat): nat {
    if n == 0 then 0 else
    Turns(isScheduled, proposers, a, time, n - 1) + if isScheduled(time + (n - 1) * 10, a) then multiset(proposers)[a] else 0
  }

  lemma {:induction false} ScheduledCounts(isScheduled: (nat, Address) -> bool, time: nat, proposers: seq<Address>, a: Address)
    ensures multiset(Scheduled(isScheduled, time, proposers))[a] ==
            if isScheduled(time, a) then multiset(proposers)[a] else 0
  {
    if proposers != [] {
      ScheduledCounts(isScheduled, time, proposers[1..], a);
      assert proposers == [proposers[0]] + proposers[1..];
    }
  }

  /** Each proposer is reported once for each slot in which it is scheduled, and nobody else is. */
  lemma {:induction false} MissesAreCounted(isScheduled: (nat, Address) -> bool, time: nat, n: nat, proposers: seq<Address>, a: Address)
    ensures multiset(ScheduledOver(isScheduled, time, n, proposers))[a] == Turns(isScheduled, proposers, a, time, n)
  {
    if n > 0 {
      MissesAreCounted(isScheduled, time, n - 1, proposers, a);
      ScheduledCounts(isScheduled, time + (n - 1) * BLOCK_INTERVAL, proposers, a);
    }
  }
}
