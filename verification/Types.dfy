/** The entities that the fetcher, the predictors and the decoders exchange. */
module Types {
  import opened Chain

  type Byte = x: nat | x < 256
  type Positive = x: nat | x > 0 witness 1
  type Seed = seq<Byte>
  type Address = nat

  const UINT32: nat := 0x1_0000_0000
  const UINT64: nat := 0x1_0000_0000_0000_0000

  datatype AuthorityNode = AuthorityNode(master: Address, endorsor: Address, active: bool)

  datatype Status = Unknown | Queued | Active | Exited

  /** Fields that may be nil are options; VET amounts are the program's uint64 fields, all other
      amounts its big integers. */
  datatype Validation = Validation(
    address: Address,
    endorser: Address,
    status: Status,
    online: bool,
    offlineBlock: Option<nat>,
    exitBlock: Option<nat>,
    period: nat,
    startBlock: nat,
    completedPeriods: nat,
    lockedVET: nat,
    queuedVET: nat,
    weight: nat,
    totalLockedStake: int,
    totalLockedWeight: Option<int>,
    totalQueuedStake: int,
    totalExitingStake: int,
    nextPeriodWeight: int,
    delegatorStake: int,
    delegatorWeight: int,
    delegatorQueuedStake: int,
    delegatorQueuedWeight: int)

  datatype StakerInformation = StakerInformation(validations: seq<Validation>)

  const WEI_PER_VET: int := 1_000_000_000_000_000_000

  /** `Div` then `Uint64`, which keeps the low 64 bits of the absolute value.  Dafny's `/` is Euclidean,
      as `big.Int.Div` is. */
  function ScaleToVET(wei: int): nat {
    var q := wei / WEI_PER_VET;
    (if q < 0 then -q else q) % UINT64
  }

  /** An amount between `k` and `k + 1` VET scales to `k`, and one as far below zero to `k + 1`, modulo 2 to the
      64. */
  lemma {:induction false} ScalesToWholeVET(wei: int, k: nat)
    ensures 1_000_000_000_000_000_000 * k <= wei < 1_000_000_000_000_000_000 * (k + 1) ==>
              ScaleToVET(wei) == k % 0x1_0000_0000_0000_0000
    ensures 1_000_000_000_000_000_000 * k < -wei <= 1_000_000_000_000_000_000 * (k + 1) ==>
              ScaleToVET(wei) == (k + 1) % 0x1_0000_0000_0000_0000
  {
  }
}
