/** `getValidators`: two linked lists of validators returned as sixteen parallel columns, and the unpacking
    of those columns. */
module Validators {
  import opened Chain
  import opened Types
  import opened LinkedLists

  const NEVER: nat := UINT32 - 1
  const ID_BUFFER: nat := 1000

  /** What the staker contract answers about one validator. */
  datatype Record = Record(
    endorsor: Address,
    stake: nat,
    weight: nat,
    queuedStake: nat,
    status: Status,
    offlineBlock: nat,
    period: nat,
    startBlock: nat,
    exitBlock: nat,
    completedPeriods: nat,
    lockedStake: nat,
    totalQueuedStake: nat,
    exitingStake: nat,
    nextPeriodWeight: nat)

  datatype Staker = Staker(firstActive: Address, firstQueued: Address, next: Address -> Address,
                           record: Address -> Record)

  datatype Columns = Columns(
    masters: seq<Address>,
    endorsors: seq<Address>,
    statuses: seq<Status>,
    onlines: seq<bool>,
    offlineBlocks: seq<nat>,
    stakingPeriodLengths: seq<nat>,
    startBlocks: seq<nat>,
    exitBlocks: seq<nat>,
    completedPeriods: seq<nat>,
    validatorLockedStakes: seq<nat>,
    validatorLockedWeights: seq<nat>,
    delegatorsStake: seq<nat>,
    validatorQueuedStakes: seq<nat>,
    totalQueuedStakes: seq<nat>,
    totalExitingStakes: seq<nat>,
    totalNextPeriodWeights: seq<nat>)

  predicate Rectangular(c: Columns, n: nat) {
    && |c.masters| == |c.endorsors| == |c.statuses| == |c.onlines| == n
    && |c.offlineBlocks| == |c.stakingPeriodLengths| == |c.startBlocks| == |c.exitBlocks| == n
    && |c.completedPeriods| == |c.validatorLockedStakes| == |c.validatorLockedWeights| == n
    && |c.delegatorsStake| == |c.validatorQueuedStakes| == |c.totalQueuedStakes| == n
    && |c.totalExitingStakes| == |c.totalNextPeriodWeights| == n
  }

  /** Row `i` carries the record of validator `id`. */
  predicate RowOf(c: Columns, i: nat, id: Address, r: Record)
    requires Rectangular(c, |c.masters|) && i < |c.masters|
  {
    && c.masters[i] == id && c.endorsors[i] == r.endorsor && c.statuses[i] == r.status
    && c.onlines[i] == (r.offlineBlock == NEVER) && c.offlineBlocks[i] == r.offlineBlock
    && c.stakingPeriodLengths[i] == r.period && c.startBlocks[i] == r.startBlock
    && c.exitBlocks[i] == r.exitBlock && c.completedPeriods[i] == r.completedPeriods
    && c.validatorLockedStakes[i] == r.stake && c.validatorLockedWeights[i] == r.weight
    && c.delegatorsStake[i] + r.stake == r.lockedStake
    && c.validatorQueuedStakes[i] == r.queuedStake && c.totalQueuedStakes[i] == r.totalQueuedStake
    && c.totalExitingStakes[i] == r.exitingStake && c.totalNextPeriodWeights[i] == r.nextPeriodWeight
  }

  predicate RowsOf(c: Columns, s: Staker, ids: seq<Address>) {
    Rectangular(c, |ids|) && forall i :: 0 <= i < |ids| ==> RowOf(c, i, ids[i], s.record(ids[i]))
  }

  /** A validator whose locked total is below its own stake makes the checked subtraction revert. */
  predicate Backed(s: Staker, ids: seq<Address>) {
    forall i :: 0 <= i < |ids| ==> s.record(ids[i]).stake <= s.record(ids[i]).lockedStake
  }

  /** Copies a linked list into the buffer from `start` on; reverts when the buffer is full. */
  method Walk(s: Staker, first: Address, ghost chain: seq<Address>, buffer: array<Address>, start: nat)
    returns (count: nat, reverted: bool)
    requires Linked(s.next, first, chain) && start <= buffer.Length
    modifies buffer
    ensures reverted <==> start + |chain| > buffer.Length
    ensures !reverted ==> count == start + |chain| && buffer[..count] == old(buffer[..start]) + chain
  {
    count, reverted := start, false;
    var current := first;
    ghost var k := 0;
    while current != 0
      invariant k <= |chain| && current == AddressAt(chain, k)
      invariant count == start + k <= buffer.Length
      invariant buffer[..count] == old(buffer[..start]) + chain[..k]
      decreases |chain| - k
    {
      if count == buffer.Length {
        return count, true;
      }
      buffer[count] := current;
      current := s.next(current);
      count := count + 1;
      k := k + 1;
    }
  }

  /** The columns of the active validators followed by the queued ones. */
  method GetValidators(s: Staker, ghost active: seq<Address>, ghost queued: seq<Address>)
    returns (r: Option<Columns>)
    requires Linked(s.next, s.firstActive, active) && Linked(s.next, s.firstQueued, queued)
    ensures r.None? <==> |active + queued| > ID_BUFFER || !Backed(s, active + queued)
    ensures r.Some? ==> RowsOf(r.value, s, active + queued)
  {
    var idBuffer := new Address[ID_BUFFER](_ => 0);
    var count, reverted := Walk(s, s.firstActive, active, idBuffer, 0);
    if reverted {
      return None;
    }
    count, reverted := Walk(s, s.firstQueued, queued, idBuffer, count);
    if reverted {
      return None;
    }
    ghost var all := active + queued;
    assert idBuffer[..count] == all;
    var c := Columns([], [], [], [], [], [], [], [], [], [], [], [], [], [], [], []);
    for i := 0 to count
      invariant idBuffer[..count] == all
      invariant RowsOf(c, s, all[..i])
      invariant Backed(s, all[..i])
    {
      var id := idBuffer[i];
      assert id == all[i];
      var v := s.record(id);
      if v.lockedStake < v.stake {
        return None;
      }
      ghost var before := c;
      c := AddRow(c, id, v);
      RowsExtend(before, s, all, i);
    }
    assert all[..count] == all;
    r := Some(c);
  }

  function AddRow(c: Columns, id: Address, v: Record): Columns
    requires v.stake <= v.lockedStake
  {
    Columns(
      c.masters + [id],
      c.endorsors + [v.endorsor],
      c.statuses + [v.status],
      c.onlines + [v.offlineBlock == NEVER],
      c.offlineBlocks + [v.offlineBlock],
      c.stakingPeriodLengths + [v.period],
      c.startBlocks + [v.startBlock],
      c.exitBlocks + [v.exitBlock],
      c.completedPeriods + [v.completedPeriods],
      c.validatorLockedStakes + [v.stake],
      c.validatorLockedWeights + [v.weight],
      c.delegatorsStake + [v.lockedStake - v.stake],
      c.validatorQueuedStakes + [v.queuedStake],
      c.totalQueuedStakes + [v.totalQueuedStake],
      c.totalExitingStakes + [v.exitingStake],
      c.totalNextPeriodWeights + [v.nextPeriodWeight])
  }

  lemma {:induction false} RowsExtend(c: Columns, s: Staker, all: seq<Address>, i: nat)
    requires i < |all| && RowsOf(c, s, all[..i])
    requires s.record(all[i]).stake <= s.record(all[i]).lockedStake
    ensures RowsOf(AddRow(c, all[i], s.record(all[i])), s, all[..i + 1])
  {
    var d := AddRow(c, all[i], s.record(all[i]));
    var ids := all[..i + 1];
    forall k | 0 <= k < |ids|
      ensures RowOf(d, k, ids[k], s.record(ids[k]))
    {
      assert k < i ==> RowOf(c, k, all[..i][k], s.record(all[..i][k]));
    }
  }

  /** What a validator's record means to the service. */
  function ValidationOf(id: Address, r: Record): Validation {
    Validation(
      id, r.endorsor, r.status,
      r.offlineBlock == NEVER,
      if r.offlineBlock == NEVER then None else Some(r.offlineBlock),
      if r.exitBlock == NEVER then None else Some(r.exitBlock),
      r.period, r.startBlock, r.completedPeriods,
      ScaleToVET(r.stake), ScaleToVET(r.queuedStake), ScaleToVET(r.weight),
      r.lockedStake, Some(r.weight), r.totalQueuedStake, r.exitingStake, r.nextPeriodWeight,
      r.lockedStake - r.stake,
      r.weight - 2 * r.stake,
      r.totalQueuedStake - r.queuedStake,
      r.nextPeriodWeight - r.weight - 2 * r.queuedStake)
  }

  /** The service's fields from the contract's: amounts scaled to VET where the program keeps VET, the delegators'
      shares as differences, and nothing for a block that is the greatest uint32. */
  lemma {:induction false} ValidationFields(id: Address, r: Record)
    ensures var v := ValidationOf(id, r);
            && v.address == id && v.endorser == r.endorsor && v.status == r.status
            && (v.online <==> r.offlineBlock == 0xFFFF_FFFF)
            && v.offlineBlock == (if r.offlineBlock == 0xFFFF_FFFF then None else Some(r.offlineBlock))
            && v.exitBlock == (if r.exitBlock == 0xFFFF_FFFF then None else Some(r.exitBlock))
            && v.period == r.period && v.startBlock == r.startBlock && v.completedPeriods == r.completedPeriods
            && v.lockedVET == ScaleToVET(r.stake) && v.queuedVET == ScaleToVET(r.queuedStake)
            && v.weight == ScaleToVET(r.weight)
            && v.totalLockedStake == r.lockedStake && v.totalLockedWeight == Some(r.weight)
            && v.totalQueuedStake == r.totalQueuedStake && v.totalExitingStake == r.exitingStake
            && v.nextPeriodWeight == r.nextPeriodWeight
            && v.lockedVET == ScaleToVET(v.totalLockedStake - v.delegatorStake)
            && v.delegatorStake + r.stake == v.totalLockedStake
            && v.delegatorWeight + 2 * r.stake == r.weight
            && v.delegatorQueuedStake + r.queuedStake == v.totalQueuedStake
            && r.weight + 2 * r.queuedStake + v.delegatorQueuedWeight == v.nextPeriodWeight
  {
  }

  /** Unpacking recovers every validator from its row, although only the difference of the two stakes was
      sent; in particular a validator is online exactly when it has no offline block. */
  method UnpackValidators(c: Columns, ghost s: Staker, ghost ids: seq<Address>) returns (vs: seq<Validation>)
    requires RowsOf(c, s, ids)
    ensures |vs| == |ids|
    ensures forall i :: 0 <= i < |vs| ==> vs[i] == ValidationOf(ids[i], s.record(ids[i]))
    ensures forall i :: 0 <= i < |vs| ==> (vs[i].online <==> vs[i].offlineBlock.None?)
    ensures forall i :: 0 <= i < |vs| ==> vs[i].totalLockedStake == s.record(ids[i]).lockedStake
  {
    vs := [];
    for i := 0 to |c.masters|
      invariant |vs| == i
      invariant forall k :: 0 <= k < i ==> vs[k] == ValidationOf(ids[k], s.record(ids[k]))
    {
      assert RowOf(c, i, ids[i], s.record(ids[i]));
      var exitBlock, offlineBlock := None, None;
      if c.exitBlocks[i] != NEVER {
        exitBlock := Some(c.exitBlocks[i]);
      }
      if c.offlineBlocks[i] != NEVER {
        offlineBlock := Some(c.offlineBlocks[i]);
      }
      var stake: int, weight: int, delegators: int :=
        c.validatorLockedStakes[i], c.validatorLockedWeights[i], c.delegatorsStake[i];
      var queued: int, totalQueued: int, nextWeight: int :=
        c.validatorQueuedStakes[i], c.totalQueuedStakes[i], c.totalNextPeriodWeights[i];
      vs := vs + [Validation(
        c.masters[i], c.endorsors[i], c.statuses[i], c.onlines[i], offlineBlock, exitBlock,
        c.stakingPeriodLengths[i], c.startBlocks[i], c.completedPeriods[i],
        ScaleToVET(stake), ScaleToVET(queued), ScaleToVET(weight),
        stake + delegators, Some(weight), totalQueued, c.totalExitingStakes[i], nextWeight,
        delegators,
        weight - stake * 2,
        totalQueued - queued,
        (nextWeight - weight) - queued * 2)];
    }
  }

  /** The validator's own locked VET is scaled from its total without the delegators' part. */
  predicate Split(v: Validation) {
    0 <= v.delegatorStake <= v.totalLockedStake && v.lockedVET == ScaleToVET(v.totalLockedStake - v.delegatorStake)
  }

  /** The contract call and the unpacking together: the active validators, then the queued ones, each as its
      record in the contract says; no answer exactly when the buffer overflows or a total is short. */
  method ReadValidators(s: Staker, ghost active: seq<Address>, ghost queued: seq<Address>)
    returns (r: Option<seq<Validation>>)
    requires Linked(s.next, s.firstActive, active) && Linked(s.next, s.firstQueued, queued)
    ensures var all := active + queued;
            r.None? <==> |all| > 1000 || exists i :: 0 <= i < |all| && s.record(all[i]).lockedStake < s.record(all[i]).stake
    ensures r.Some? ==> |r.value| == |active + queued|
    ensures r.Some? ==> forall i :: 0 <= i < |r.value| ==>
              r.value[i] == ValidationOf((active + queued)[i], s.record((active + queued)[i])) && Split(r.value[i])
  {
    var columns := GetValidators(s, active, queued);
    if columns.None? {
      return None;
    }
    ghost var all := active + queued;
    var vs := UnpackValidators(columns.value, s, all);
    assert forall i :: 0 <= i < |all| ==> s.record(all[i]).stake <= s.record(all[i]).lockedStake;
    r := Some(vs);
  }
}
