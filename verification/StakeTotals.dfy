/** The validator overview: stake and weight totals accumulated in uint64 and in big integers. */
module StakeTotals {
  import opened Types
  import opened Validators
  import opened Arithmetic

  datatype Overview = Overview(
    accumulatedStake: nat,
    accumulatedWeight: nat,
    activeValidators: nat,
    onlineValidators: nat,
    onlineStake: int,
    onlineWeight: nat,
    offlineValidators: nat,
    offlineStake: int,
    offlineWeight: nat,
    exitingVET: int)

  /** The sum of `f` over the active validators. */
  function Sum(vs: seq<Validation>, f: Validation -> int): int {
    if vs == [] then 0 else
    Sum(vs[..|vs| - 1], f) + if vs[|vs| - 1].status == Active then f(vs[|vs| - 1]) else 0
  }

  function One(v: Validation): int { 1 }
  function Online(v: Validation): int { if v.online then 1 else 0 }
  function Scaled(v: Validation): int { v.lockedVET + ScaleToVET(v.delegatorStake) }
  function Weight(v: Validation): int { v.weight }
  function OnlineWeight(v: Validation): int { if v.online then v.weight else 0 }
  function Locked(v: Validation): int { v.totalLockedStake }
  function Delegated(v: Validation): int { v.delegatorStake }
  function OnlineStake(v: Validation): int { if v.online then v.totalLockedStake + v.delegatorStake else 0 }
  function Exiting(v: Validation): int { if v.exitBlock.Some? then v.totalExitingStake else 0 }

  function ActiveAddresses(vs: seq<Validation>): set<Address> {
    set v | v in vs && v.status == Active :: v.address
  }

  /** What a uint64 keeps of a sum. */
  function Low64(x: int): nat { x % UINT64 }

  function Add64(x: nat, y: nat): nat { Low64(x + y) }

  lemma {:induction false} AddModulo(x: int, y: nat)
    ensures Add64(Low64(x), y) == Low64(x + y)
  {
  }

  lemma {:induction false} AddEither(x: nat, y: nat, z: nat)
    ensures Add64(Add64(x, y), z) == Add64(Add64(x, z), y) == Add64(x, Add64(y, z))
  {
    AddModulo(x + y, z);
    AddModulo(x + z, y);
    AddModulo(y + z, x);
  }

  lemma {:induction false} SumStep(vs: seq<Validation>, i: nat, f: Validation -> int)
    requires i < |vs|
    ensures Sum(vs[..i + 1], f) == Sum(vs[..i], f) + if vs[i].status == Active then f(vs[i]) else 0
  {
    assert vs[..i + 1][..i] == vs[..i];
  }

  /** The true sums, as one value. */
  datatype Sums = Sums(scaled: int, weight: int, onlineWeight: int, online: int, one: int, onlineStake: int,
                       locked: int, delegated: int, exiting: int)

  function SumsOf(vs: seq<Validation>): Sums {
    Sums(Sum(vs, Scaled), Sum(vs, Weight), Sum(vs, OnlineWeight), Sum(vs, Online), Sum(vs, One),
         Sum(vs, OnlineStake), Sum(vs, Locked), Sum(vs, Delegated), Sum(vs, Exiting))
  }

  lemma {:induction false} SumsOfNone(vs: seq<Validation>)
    requires vs == []
    ensures SumsOf(vs) == Sums(0, 0, 0, 0, 0, 0, 0, 0, 0) && ActiveAddresses(vs) == {}
  {
  }

  /** What each validator adds to the sums: nothing unless it is active. */
  lemma {:induction false} SumsStep(vs: seq<Validation>, i: nat)
    requires i < |vs|
    ensures var v := vs[i];
            var s := SumsOf(vs[..i]);
            SumsOf(vs[..i + 1]) ==
            if v.status != Active then s else
            Sums(s.scaled + v.lockedVET + ScaleToVET(v.delegatorStake),
                 s.weight + v.weight,
                 s.onlineWeight + (if v.online then v.weight else 0),
                 s.online + (if v.online then 1 else 0),
                 s.one + 1,
                 s.onlineStake + (if v.online then v.totalLockedStake + v.delegatorStake else 0),
                 s.locked + v.totalLockedStake,
                 s.delegated + v.delegatorStake,
                 s.exiting + (if v.exitBlock.Some? then v.totalExitingStake else 0))
  {
    SumStep(vs, i, Scaled);
    SumStep(vs, i, Weight);
    SumStep(vs, i, OnlineWeight);
    SumStep(vs, i, Online);
    SumStep(vs, i, One);
    SumStep(vs, i, OnlineStake);
    SumStep(vs, i, Locked);
    SumStep(vs, i, Delegated);
    SumStep(vs, i, Exiting);
  }

  lemma {:induction false} SumsOnline(vs: seq<Validation>, i: nat)
    requires i < |vs| && vs[i].status == Active && vs[i].online
    ensures var v := vs[i];
            var s := SumsOf(vs[..i]);
            SumsOf(vs[..i + 1]) ==
            Sums(s.scaled + v.lockedVET + ScaleToVET(v.delegatorStake), s.weight + v.weight, s.onlineWeight + v.weight,
                 s.online + 1, s.one + 1, s.onlineStake + v.totalLockedStake + v.delegatorStake,
                 s.locked + v.totalLockedStake, s.delegated + v.delegatorStake, s.exiting + Exiting(v))
  {
    hide SumsOf, ScaleToVET;
    SumsStep(vs, i);
  }

  lemma {:induction false} SumsOffline(vs: seq<Validation>, i: nat)
    requires i < |vs| && vs[i].status == Active && !vs[i].online
    ensures var v := vs[i];
            var s := SumsOf(vs[..i]);
            SumsOf(vs[..i + 1]) ==
            Sums(s.scaled + v.lockedVET + ScaleToVET(v.delegatorStake), s.weight + v.weight, s.onlineWeight,
                 s.online, s.one + 1, s.onlineStake,
                 s.locked + v.totalLockedStake, s.delegated + v.delegatorStake, s.exiting + Exiting(v))
  {
    hide SumsOf, ScaleToVET;
    SumsStep(vs, i);
  }

  lemma {:induction false} AddressStep(vs: seq<Validation>, i: nat)
    requires i < |vs|
    ensures ActiveAddresses(vs[..i + 1]) ==
            ActiveAddresses(vs[..i]) + if vs[i].status == Active then {vs[i].address} else {}
  {
    assert vs[..i + 1] == vs[..i] + [vs[i]];
  }

  /** Every uint64 total is the true sum modulo 2^64, and the accumulated weight is the online weight plus the
      offline weight.  The two stake fields together count the delegators' stake twice. */
  method CreateValidatorOverview(vs: seq<Validation>) returns (o: Overview)
    ensures var s := SumsOf(vs);
            && o.accumulatedStake == s.scaled % UINT64
            && o.accumulatedWeight == s.weight % UINT64 == Add64(o.onlineWeight, o.offlineWeight)
            && o.onlineWeight == s.onlineWeight % UINT64
            && o.onlineValidators == s.online && o.onlineValidators + o.offlineValidators == s.one
            && o.onlineStake == s.onlineStake && o.onlineStake + o.offlineStake == s.locked + s.delegated
            && o.exitingVET == s.exiting
    ensures o.activeValidators == |ActiveAddresses(vs)|
  {
    assert vs[..0] == [];
    SumsOfNone(vs[..0]);
    ghost var all := SumsOf(vs);
    assert Low64(all.scaled) == all.scaled % UINT64 && Low64(all.weight) == all.weight % UINT64;
    assert Low64(all.onlineWeight) == all.onlineWeight % UINT64;
    hide Sum, SumsOf, Low64, Add64, ActiveAddresses, ScaleToVET;
    var leaderGroup: map<Address, Validation> := map[];
    var onlineValidators: nat, onlineStake: int, onlineWeight: nat := 0, 0, 0;
    var offlineValidators: nat, offlineStake: int, offlineWeight: nat := 0, 0, 0;
    var accumulatedStake: nat, accumulatedWeight: nat, exitingVET: int := 0, 0, 0;
    ghost var sums := SumsOf(vs[..0]);
    ghost var actives := ActiveAddresses(vs[..0]);
    for i := 0 to |vs|
      invariant sums == SumsOf(vs[..i]) && actives == ActiveAddresses(vs[..i])
      invariant leaderGroup.Keys == actives
      invariant accumulatedStake == Low64(sums.scaled)
      invariant accumulatedWeight == Low64(sums.weight) == Add64(onlineWeight, offlineWeight)
      invariant onlineWeight == Low64(sums.onlineWeight)
      invariant onlineValidators == sums.online && onlineValidators + offlineValidators == sums.one
      invariant onlineStake == sums.onlineStake && onlineStake + offlineStake == sums.locked + sums.delegated
      invariant exitingVET == sums.exiting
    {
      var v := vs[i];
      AddressStep(vs, i);
      ghost var before := sums;
      sums := SumsOf(vs[..i + 1]);
      if v.status != Active {
        SumsStep(vs, i);
        continue;
      }
      AddModulo(before.scaled, v.lockedVET);
      AddModulo(before.scaled + v.lockedVET, ScaleToVET(v.delegatorStake));
      AddModulo(before.weight, v.weight);
      AddModulo(before.onlineWeight, v.weight);
      AddEither(onlineWeight, offlineWeight, v.weight);
      accumulatedStake := Add64(accumulatedStake, v.lockedVET);
      accumulatedStake := Add64(accumulatedStake, ScaleToVET(v.delegatorStake));
      leaderGroup := leaderGroup[v.address := v];
      actives := actives + {v.address};
      if v.online {
        SumsOnline(vs, i);
        onlineValidators := onlineValidators + 1;
        onlineStake := onlineStake + v.totalLockedStake;
        onlineStake := onlineStake + v.delegatorStake;
        onlineWeight := Add64(onlineWeight, v.weight);
      } else {
        SumsOffline(vs, i);
        offlineValidators := offlineValidators + 1;
        offlineStake := offlineStake + v.totalLockedStake;
        offlineStake := offlineStake + v.delegatorStake;
        offlineWeight := Add64(offlineWeight, v.weight);
      }
      if v.exitBlock.Some? {
        exitingVET := exitingVET + v.totalExitingStake;
      }
      accumulatedWeight := Add64(accumulatedWeight, v.weight);
    }
    assert vs[..|vs|] == vs;
    o := Overview(accumulatedStake, accumulatedWeight, |leaderGroup|, onlineValidators, onlineStake, onlineWeight,
                  offlineValidators, offlineStake, offlineWeight, exitingVET);
  }

  lemma {:induction false} OneRounds(v: Validation)
    requires Split(v) && v.totalLockedStake / WEI_PER_VET < UINT64
    ensures 0 <= v.totalLockedStake - WEI_PER_VET * Scaled(v) <= 2 * (WEI_PER_VET - 1)
  {
  }

  predicate AllSplit(vs: seq<Validation>) {
    forall i :: 0 <= i < |vs| ==> Split(vs[i])
  }

  /** Each active validator loses less than two VET to rounding. */
  lemma {:induction false} SumRounds(vs: seq<Validation>)
    requires AllSplit(vs) && Sum(vs, Locked) / WEI_PER_VET < UINT64
    ensures Sum(vs, One) >= 0
    ensures 0 <= Sum(vs, Locked) - WEI_PER_VET * Sum(vs, Scaled) <= 2 * (WEI_PER_VET - 1) * Sum(vs, One)
    ensures Sum(vs, Scaled) >= 0 && Sum(vs, Locked) >= 0
  {
    if vs != [] {
      var v := vs[|vs| - 1];
      var rest := vs[..|vs| - 1];
      SumNotNegative(rest);
      if v.status == Active {
        assert Split(v);
        assert Sum(rest, Locked) <= Sum(vs, Locked) && v.totalLockedStake <= Sum(vs, Locked);
        OneRounds(v);
      }
      SumRounds(rest);
    }
  }

  lemma {:induction false} SumNotNegative(vs: seq<Validation>)
    requires AllSplit(vs)
    ensures Sum(vs, Locked) >= 0
  {
    if vs != [] {
      var v := vs[|vs| - 1];
      assert Split(v);
      SumNotNegative(vs[..|vs| - 1]);
    }
  }

  /** The accumulated stake is at most the scaled total of the locked stakes, and short of it by less than two
      VET per active validator. */
  lemma {:induction false} StakeIsNearlyTheTotal(vs: seq<Validation>)
    requires AllSplit(vs) && Sum(vs, Locked) / WEI_PER_VET < UINT64
    ensures var accumulated := Sum(vs, Scaled) % UINT64;
            var total := ScaleToVET(Sum(vs, Locked));
            var n := Sum(vs, One);
            && accumulated <= total
            && (n >= 1 ==> total - accumulated < 2 * n)
            && (n == 0 ==> total == accumulated == 0)
  {
    SumRounds(vs);
    SumBelow(Sum(vs, Locked), Sum(vs, Scaled), Sum(vs, One));
    if Sum(vs, One) == 0 {
      assert Sum(vs, Locked) == WEI_PER_VET * Sum(vs, Scaled);
      NoneActive(vs);
    }
  }

  lemma {:induction false} SumBelow(total: int, sum: int, n: int)
    requires n >= 0 && 0 <= total - WEI_PER_VET * sum <= 2 * (WEI_PER_VET - 1) * n
    ensures sum <= total / WEI_PER_VET
    ensures n >= 1 ==> total / WEI_PER_VET - sum < 2 * n
  {
  }

  lemma {:induction false} NoneActive(vs: seq<Validation>)
    requires Sum(vs, One) == 0
    ensures Sum(vs, Locked) == Sum(vs, Scaled) == 0
  {
    if vs != [] {
      OnesNotNegative(vs[..|vs| - 1]);
      NoneActive(vs[..|vs| - 1]);
    }
  }

  lemma {:induction false} OnesNotNegative(vs: seq<Validation>)
    ensures Sum(vs, One) >= 0
  {
    if vs != [] {
      OnesNotNegative(vs[..|vs| - 1]);
    }
  }

  predicate WholeStakes(vs: seq<Validation>) {
    forall i :: 0 <= i < |vs| ==>
      vs[i].totalLockedStake % WEI_PER_VET == 0 && vs[i].delegatorStake % WEI_PER_VET == 0
  }

  lemma {:induction false} WholeScales(wei: int)
    requires 0 <= wei / WEI_PER_VET < UINT64 && wei % WEI_PER_VET == 0
    ensures wei == WEI_PER_VET * ScaleToVET(wei)
  {
  }

  lemma {:induction false} OneIsExact(v: Validation)
    requires Split(v) && v.totalLockedStake / WEI_PER_VET < UINT64
    requires v.totalLockedStake % WEI_PER_VET == 0 && v.delegatorStake % WEI_PER_VET == 0
    ensures v.totalLockedStake == WEI_PER_VET * Scaled(v)
  {
    hide ScaleToVET;
    WholeScales(v.totalLockedStake - v.delegatorStake);
    WholeScales(v.delegatorStake);
  }

  /** Whole stakes, the only ones the staker contract accepts, lose nothing. */
  lemma {:induction false} WholeStakesAreExact(vs: seq<Validation>)
    requires AllSplit(vs) && WholeStakes(vs) && Sum(vs, Locked) / WEI_PER_VET < UINT64
    ensures Sum(vs, Locked) == WEI_PER_VET * Sum(vs, Scaled)
    ensures ScaleToVET(Sum(vs, Locked)) == Sum(vs, Scaled) % UINT64
  {
    hide Scaled;
    if vs != [] {
      var v := vs[|vs| - 1];
      var rest := vs[..|vs| - 1];
      SumNotNegative(rest);
      assert Split(v);
      WholeStakesAreExact(rest);
      if v.status == Active {
        OneIsExact(v);
      }
    }
  }

  function Copies(v: Validation, n: nat): seq<Validation> {
    if n == 0 then [] else Copies(v, n - 1) + [v]
  }

  /** Two VET per validator is the best bound: with every stake one wei short of a VET, the accumulated stake
      is zero and the total is 2n - 1. */
  lemma {:induction false} BoundIsTight(v: Validation, n: nat)
    requires v.status == Active && v.delegatorStake == WEI_PER_VET - 1 && v.totalLockedStake == 2 * (WEI_PER_VET - 1)
    requires Split(v) && 1 <= n && 2 * n <= WEI_PER_VET
    ensures Sum(Copies(v, n), One) == n && AllSplit(Copies(v, n)) && Sum(Copies(v, n), Scaled) == 0
    ensures ScaleToVET(Sum(Copies(v, n), Locked)) == 2 * n - 1
  {
    SumOfCopies(v, n, One);
    SumOfCopies(v, n, Scaled);
    SumOfCopies(v, n, Locked);
    CopiesAreSplit(v, n);
  }

  lemma {:induction false} SumOfCopies(v: Validation, n: nat, f: Validation -> int)
    requires v.status == Active
    ensures Sum(Copies(v, n), f) == n * f(v)
  {
    if n > 0 {
      CopiesLength(v, n - 1);
      assert Copies(v, n)[..n - 1] == Copies(v, n - 1);
      SumOfCopies(v, n - 1, f);
      MulSub(n, 1, f(v));
    }
  }

  lemma {:induction false} CopiesAreSplit(v: Validation, n: nat)
    requires Split(v)
    ensures AllSplit(Copies(v, n))
  {
    hide Split;
    if n > 0 {
      CopiesAreSplit(v, n - 1);
    }
  }

  lemma {:induction false} CopiesLength(v: Validation, n: nat)
    ensures |Copies(v, n)| == n
  {
    if n > 0 {
      CopiesLength(v, n - 1);
    }
  }
}
