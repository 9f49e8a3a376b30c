/** When one iteration of the forward syncer ends the loop, and what it does to the log, for every view. */
module Control {
  import opened Chain
  import opened BlockFetcher
  import opened ForwardSyncer
  import opened Replay

  /** The next block continues the chain and `ProcessBlock` makes an event of it. */
  predicate EventReady(src: Source, s: State, v: View) {
    Advances(s, v) && Process(src, Touched(src, s.cache, v.leaf, v.before), s.prev.Number() + 1, v).1.Some?
  }

  /** Each outcome, exactly. */
  lemma {:induction false} ControlIff(src: Source, s: State, v: View)
    ensures var control := Step(src, s, v).1;
            && (control == Returned <==> v.cancelled || (EventReady(src, s, v) && v.cancelledAtSend))
            && (control == Restarted <==>
                !v.cancelled && v.due && v.nextOk && v.bestOk && s.prev.Number() > v.leaf.Number())
            && (control == Running <==> control != Returned && control != Restarted)
  {
    hide Process, Touched;
  }

  /** The log grows exactly when the loop is not cancelled, the next block is there, and either it has another
      parent or its event is ready and gets sent. */
  lemma {:induction false} LogGrowsIff(src: Source, s: State, v: View)
    ensures var s' := Step(src, s, v).0;
            var parted := !v.cancelled && v.due && v.nextOk && s.prev.Number() < v.leaf.Number() &&
                          v.leaf.At(s.prev.Number() + 1).parent != s.prev;
            var sent := EventReady(src, s, v) && !v.cancelledAtSend;
            && (parted ==> s'.prev == v.finalized && s'.cache == Touched(src, s.cache, v.leaf, v.before) &&
                           s'.log == s.log + [Forked(v.leaf.At(s.prev.Number() + 1), v.finalized, s.prev)])
            && (sent ==> s'.prev.Child? && s'.prev.parent == s.prev && Within(s'.prev, v.leaf) &&
                         |s'.log| == |s.log| + 1 && s'.log[..|s.log|] == s.log && s'.log[|s.log|].Published?)
            && (!parted && !sent ==> s'.prev == s.prev && s'.log == s.log)
            && !(parted && sent)
  {
    hide Process, Touched;
    if s.prev.Number() < v.leaf.Number() {
      AtAt(v.leaf, s.prev.Number() + 1, s.prev.Number() + 1);
    }
  }

  /** From the first cancelled view on nothing is logged, the syncer stays where it is, and later views do not
      matter. */
  lemma {:induction false} CancellationEnds(src: Source, s: State, views: seq<View>, k: nat)
    requires k < |views| && views[k].cancelled
    ensures Run(src, s, views) == Run(src, s, views[..k + 1])
    ensures Run(src, s, views).log == Run(src, s, views[..k]).log
    ensures Run(src, s, views).prev == Run(src, s, views[..k]).prev
    decreases k
  {
    hide Step;
    ControlIff(src, s, views[0]);
    LogGrowsIff(src, s, views[0]);
    assert views[..k + 1][0] == views[0];
    if k == 0 {
      assert views[..k] == [] && views[..k + 1][1..] == [];
    } else {
      assert views[..k][0] == views[0] && views[..k][1..] == views[1..][..k - 1];
      assert views[..k + 1][1..] == views[1..][..k];
      if Step(src, s, views[0]).1 == Running {
        CancellationEnds(src, Step(src, s, views[0]).0, views[1..], k - 1);
      }
    }
  }

  /** Every iteration so far let the loop go on. */
  predicate GoesOn(src: Source, s: State, views: seq<View>)
    decreases |views|
  {
    views == [] || (Step(src, s, views[0]).1 == Running && GoesOn(src, Step(src, s, views[0]).0, views[1..]))
  }

  /** The loop goes through all that it meets in turn, as long as no iteration ends it. */
  lemma {:induction false} RunContinuesIff(src: Source, s: State, views: seq<View>, rest: seq<View>)
    ensures Run(src, s, views + rest) ==
            if GoesOn(src, s, views) then Run(src, Run(src, s, views), rest) else Run(src, s, views)
    decreases |views|
  {
    hide Step;
    if views == [] {
      assert views + rest == rest;
    } else {
      assert (views + rest)[1..] == views[1..] + rest;
      if Step(src, s, views[0]).1 == Running {
        RunContinuesIff(src, Step(src, s, views[0]).0, views[1..], rest);
      }
    }
  }
}
