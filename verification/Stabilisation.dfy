/** Once the canonical chain only grows, the forward syncer settles: at most one more fork event, and then
    one published block per productive iteration. */
module Stabilisation {
  import opened Chain
  import opened Types
  import opened BlockFetcher
  import opened ForwardSyncer
  import opened Replay

  /** Every view's chain extends the one before it, and its finalized block is on it. */
  predicate Growing(views: seq<View>) {
    && (forall i :: 0 <= i < |views| ==> Within(views[i].finalized, views[i].leaf))
    && (forall i, j :: 0 <= i <= j < |views| ==> Within(views[i].leaf, views[j].leaf))
  }

  function ForkCount(log: seq<Event>): nat {
    if log == [] then 0 else ForkCount(log[..|log| - 1]) + if log[|log| - 1].Forked? then 1 else 0
  }

  /** What one iteration does to the block last followed and to the log. */
  lemma {:induction false} StepCases(src: Source, s: State, v: View)
    ensures var s' := Step(src, s, v).0;
            || (s'.prev == s.prev && s'.log == s.log)
            || (s'.prev.Child? && s'.prev.parent == s.prev && Within(s'.prev, v.leaf) &&
                |s'.log| == |s.log| + 1 && s'.log[..|s.log|] == s.log && s'.log[|s.log|].Published?)
            || (s'.prev == v.finalized && !Within(s.prev, v.leaf) &&
                |s'.log| == |s.log| + 1 && s'.log[..|s.log|] == s.log && s'.log[|s.log|].Forked?)
  {
    hide Process, Touched;
    if s.prev.Number() < v.leaf.Number() {
      var n := s.prev.Number() + 1;
      AtAt(v.leaf, n, n);
      AtAt(v.leaf, n, n - 1);
    }
  }

  /** At most one fork event from here on, and none when the block last followed is canonical. */
  lemma {:induction false} AtMostOneFork(src: Source, s: State, views: seq<View>)
    requires Growing(views)
    ensures var end := Run(src, s, views);
            ForkCount(end.log) <= ForkCount(s.log) + if views != [] && Within(s.prev, views[0].leaf) then 0 else 1
    decreases |views|
  {
    hide Step;
    if views != [] {
      var (s1, control) := Step(src, s, views[0]);
      StepCases(src, s, views[0]);
      assert s1.log != s.log ==> s1.log[..|s1.log| - 1] == s.log;
      if control == Running {
        AtMostOneFork(src, s1, views[1..]);
        if |views| > 1 && (Within(s.prev, views[0].leaf) || s1.log != s.log) {
          WithinTransitive(s1.prev, views[0].leaf, views[1].leaf);
        }
        if |views| == 1 {
          assert Run(src, s1, []) == s1;
        }
      }
    }
  }

  predicate NoForkFrom(log: seq<Event>, i: nat) {
    forall j :: i <= j < |log| ==> !log[j].Forked?
  }

  /** While the chain only grows past the block last followed, the run moves on along it and deletes nothing. */
  lemma {:induction false} RunGrows(src: Source, s: State, views: seq<View>)
    requires Growing(views) && (views != [] ==> Within(s.prev, views[0].leaf))
    ensures var end := Run(src, s, views);
            Within(s.prev, end.prev) && s.log <= end.log && NoForkFrom(end.log, |s.log|)
    decreases |views|
  {
    hide Step;
    if views != [] {
      var (s1, control) := Step(src, s, views[0]);
      StepCases(src, s, views[0]);
      if s1.prev != s.prev {
        assert s1.prev.At(s.prev.Number()) == s.prev;
      }
      if control == Running {
        if |views| > 1 {
          WithinTransitive(s1.prev, views[0].leaf, views[1].leaf);
        }
        RunGrows(src, s1, views[1..]);
        WithinTransitive(s.prev, s1.prev, Run(src, s1, views[1..]).prev);
      }
    }
  }

  /** Nothing stands in the way of this iteration; the chain may grow between its requests. */
  predicate Productive(v: View) {
    && !v.cancelled && v.due && v.nextOk && v.blockOk && v.parentOk && !v.cancelledAtSend
    && v.served.Number() + 1 < UINT32 && v.servedParent.Number() + 1 < UINT32
    && Within(v.leaf, v.served) && Within(v.leaf, v.servedParent)
  }

  lemma {:induction false} FetchSucceeds(src: Source, want: Block -> FetchResult, c: Cache, n: nat, leaf: Block)
    requires Faithful(src, want) && leaf.Number() + 1 < UINT32 && n <= leaf.Number()
    ensures Fetch(c, n, FetchIf(src, leaf, n, true)).1.Some?
  {
    AtAt(leaf, n, n);
    assert src.fetch(leaf, n) == Some(want(leaf.At(n)));
  }

  lemma {:induction false} ProcessSucceeds(src: Source, want: Block -> FetchResult, c: Cache, n: nat, v: View)
    requires Faithful(src, want) && Productive(v) && 1 <= n <= v.leaf.Number()
    ensures Process(src, c, n, v).1.Some?
  {
    hide Fetch, FetchIf, Touched;
    FetchSucceeds(src, want, c, n, v.served);
    var c1 := Fetch(c, n, FetchIf(src, v.served, n, true)).0;
    FetchSucceeds(src, want, Touched(src, c1, v.served, v.between), n - 1, v.servedParent);
  }

  lemma {:induction false} ProductiveStep(src: Source, want: Block -> FetchResult, s: State, v: View)
    requires Faithful(src, want) && Productive(v) && s.prev.Number() < v.leaf.Number()
    ensures var (s', control) := Step(src, s, v);
            control == Running && |s'.log| == |s.log| + 1 &&
            s'.prev == if Within(s.prev, v.leaf) then v.leaf.At(s.prev.Number() + 1) else v.finalized
  {
    hide Process, Touched;
    var n := s.prev.Number() + 1;
    AtAt(v.leaf, n, n - 1);
    ProcessSucceeds(src, want, Touched(src, s.cache, v.leaf, v.before), n, v);
  }

  /** Whatever the cache holds: from a canonical block, each of `k` productive iterations publishes one
      event and moves one block on along the canonical chain. */
  lemma {:induction false} FollowsInOrder(src: Source, want: Block -> FetchResult, s: State, views: seq<View>)
    requires Faithful(src, want) && Growing(views)
    requires forall i :: 0 <= i < |views| ==>
      Productive(views[i]) && s.prev.Number() + |views| <= views[i].leaf.Number()
    requires views != [] ==> Within(s.prev, views[0].leaf)
    ensures var end := Run(src, s, views);
            |end.log| == |s.log| + |views| && end.prev.Number() == s.prev.Number() + |views| &&
            (views != [] ==> Within(end.prev, views[|views| - 1].leaf))
    decreases |views|
  {
    hide Step;
    if views != [] {
      ProductiveStep(src, want, s, views[0]);
      var s1 := Step(src, s, views[0]).0;
      AtAt(views[0].leaf, s1.prev.Number(), s1.prev.Number());
      if |views| > 1 {
        WithinTransitive(s1.prev, views[0].leaf, views[1].leaf);
      }
      FollowsInOrder(src, want, s1, views[1..]);
      assert |views| > 1 ==> views[1..][|views| - 2] == views[|views| - 1];
    }
  }

  lemma {:induction false} PublishesNext(src: Source, want: Block -> FetchResult, s: State, base: Block, v: View)
    requires Faithful(src, want) && Productive(v) && Inv(want, s, base) && Calm(s, base, v)
    requires s.prev.Number() < v.leaf.Number() && Within(s.prev, v.leaf)
    ensures var (s', control) := Step(src, s, v);
            var next := v.leaf.At(s.prev.Number() + 1);
            control == Running && s'.prev == next && Inv(want, s', base) && Base(s, base, v) == base &&
            s'.log == s.log + [Published(EventOf(src, want, next))]
  {
    hide Step, EventOf, Slots, AllRight;
    AtAt(v.leaf, s.prev.Number() + 1, s.prev.Number());
    ProductiveStep(src, want, s, v);
    StepFollows(src, want, s, base, v);
  }

  /** Productive views of a growing chain whose blocks are all on the chain ending in `top`, and which
      holds height `h` throughout. */
  predicate Ready(views: seq<View>, top: Block, h: nat) {
    && Growing(views)
    && forall i :: 0 <= i < |views| ==>
         Productive(views[i]) && Within(views[i].leaf, top) && h <= views[i].leaf.Number()
  }

  lemma {:induction false} ReadyTail(views: seq<View>, top: Block, h: nat)
    requires Ready(views, top, h) && views != []
    ensures Productive(views[0]) && Within(views[0].leaf, top) && h <= views[0].leaf.Number()
    ensures Ready(views[1..], top, h)
    ensures Within(views[0].finalized, views[0].leaf)
    ensures |views| > 1 ==> Within(views[0].leaf, views[1].leaf)
  {
    hide Productive, Within;
  }

  lemma {:induction false} CalmTail(src: Source, s: State, base: Block, views: seq<View>)
    requires CalmRun(src, s, base, views) && views != []
    ensures Calm(s, base, views[0])
    ensures Step(src, s, views[0]).1 == Running ==>
              CalmRun(src, Step(src, s, views[0]).0, Base(s, base, views[0]), views[1..])
  {
    hide Step, Calm, Base;
  }

  lemma {:induction false} RunTail(src: Source, s: State, views: seq<View>, rest: seq<View>)
    requires views != [] && Step(src, s, views[0]).1 == Running
    ensures Run(src, s, views + rest) == Run(src, Step(src, s, views[0]).0, views[1..] + rest)
  {
    hide Step;
    assert (views + rest)[1..] == views[1..] + rest;
  }

  /** From a canonical block, over a calm run, `k` productive iterations publish exactly the events that
      the next `k` canonical blocks deserve, in order. */
  lemma {:induction false} PublishesInOrder(src: Source, want: Block -> FetchResult, s: State, base: Block, top: Block,
                                            views: seq<View>, rest: seq<View>) returns (s': State)
    requires Faithful(src, want) && Inv(want, s, base) && CalmRun(src, s, base, views)
    requires Ready(views, top, s.prev.Number() + |views|)
    requires Within(s.prev, if views != [] then views[0].leaf else top)
    ensures s.prev.Number() + |views| <= top.Number()
    ensures s'.prev == top.At(s.prev.Number() + |views|) && Inv(want, s', base)
    ensures s'.log == s.log + EventsOf(src, want, top, s.prev.Number(), s.prev.Number() + |views|)
    ensures Run(src, s, views + rest) == Run(src, s', rest)
    decreases |views|
  {
    hide Step, EventOf, EventsOf, Inv, Calm, CalmRun, Ready, Productive, Run, Base, Within, Block.At, Block.Number;
    var n := s.prev.Number();
    if views == [] {
      assert views + rest == rest;
      Stays(src, want, s.prev, top);
      s' := s;
    } else {
      var v := views[0];
      ReadyTail(views, top, n + |views|);
      CalmTail(src, s, base, views);
      PublishesNext(src, want, s, base, v);
      var s1 := Step(src, s, v).0;
      var leaf := if |views| > 1 then views[1].leaf else top;
      Climbs(src, want, s.prev, v.leaf, leaf, top, n + |views|);
      RunTail(src, s, views, rest);
      s' := PublishesInOrder(src, want, s1, base, top, views[1..], rest);
      assert s.log + [Published(EventOf(src, want, s1.prev))] + EventsOf(src, want, top, n + 1, n + |views|) ==
             s.log + ([Published(EventOf(src, want, s1.prev))] + EventsOf(src, want, top, n + 1, n + |views|));
    }
  }

  lemma {:induction false} Stays(src: Source, want: Block -> FetchResult, b: Block, top: Block)
    requires Within(b, top)
    ensures b.Number() <= top.Number() && top.At(b.Number()) == b
    ensures EventsOf(src, want, top, b.Number(), b.Number()) == []
  {
  }

  lemma {:induction false} Climbs(src: Source, want: Block -> FetchResult, b: Block, leaf: Block, later: Block, top: Block, m: nat)
    requires Within(leaf, later) && Within(leaf, top)
    requires b.Number() < m <= leaf.Number()
    ensures var next := leaf.At(b.Number() + 1);
            && Within(next, later) && m <= top.Number()
            && EventsOf(src, want, top, b.Number(), m) ==
               [Published(EventOf(src, want, next))] + EventsOf(src, want, top, b.Number() + 1, m)
  {
    hide EventOf;
    var n := b.Number() + 1;
    AtAt(leaf, n, n);
    AgreeBelow(leaf, top, n);
    WithinTransitive(leaf.At(n), leaf, later);
  }

  /** A canonical height `h` is reached in exactly the distance from the block last followed, or, when that
      block has been abandoned, in one fork step and the distance from the finalized block. */
  lemma {:induction false} ReachesHeight(src: Source, want: Block -> FetchResult, s: State, views: seq<View>, h: nat)
    requires Faithful(src, want) && Growing(views) && views != []
    requires forall i :: 0 <= i < |views| ==> Productive(views[i]) && h <= views[i].leaf.Number()
    requires s.prev.Number() < h && views[0].finalized.Number() <= h
    requires |views| == if Within(s.prev, views[0].leaf) then h - s.prev.Number()
                        else 1 + h - views[0].finalized.Number()
    ensures Run(src, s, views).prev == views[|views| - 1].leaf.At(h)
    ensures |Run(src, s, views).log| == |s.log| + |views|
  {
    hide Step, Productive, Run, Block.At, Block.Number;
    if Within(s.prev, views[0].leaf) {
      FollowsInOrder(src, want, s, views);
    } else {
      ForksThenFollows(src, want, s, views, h);
    }
  }

  lemma {:induction false} ForksThenFollows(src: Source, want: Block -> FetchResult, s: State, views: seq<View>, h: nat)
    requires Faithful(src, want) && Growing(views) && views != []
    requires forall i :: 0 <= i < |views| ==> Productive(views[i]) && h <= views[i].leaf.Number()
    requires s.prev.Number() < h && !Within(s.prev, views[0].leaf) && h + 1 == views[0].finalized.Number() + |views|
    ensures Run(src, s, views).prev == views[|views| - 1].leaf.At(h)
    ensures |Run(src, s, views).log| == |s.log| + |views|
  {
    hide Step, Productive, Block.At, Block.Number;
    ProductiveStep(src, want, s, views[0]);
    var s1 := Step(src, s, views[0]).0;
    var rest := views[1..];
    if rest == [] {
      assert Run(src, s1, rest) == s1;
    } else {
      WithinTransitive(s1.prev, views[0].leaf, views[1].leaf);
      assert rest[|rest| - 1] == views[|views| - 1];
    }
    FollowsInOrder(src, want, s1, rest);
  }

  lemma {:induction false} PublishesToHeight(src: Source, want: Block -> FetchResult, s: State, base: Block, top: Block,
                                             views: seq<View>, h: nat)
    requires Faithful(src, want) && Inv(want, s, base) && CalmRun(src, s, base, views)
    requires Ready(views, top, h) && h == s.prev.Number() + |views|
    requires Within(s.prev, if views != [] then views[0].leaf else top)
    ensures h <= top.Number()
    ensures Run(src, s, views).log == s.log + EventsOf(src, want, top, s.prev.Number(), h)
  {
    hide Step, EventOf, EventsOf, Inv, CalmRun, Ready, Within;
    var s' := PublishesInOrder(src, want, s, base, top, views, []);
    assert views + [] == views;
  }

  lemma {:induction false} ForksToHeight(src: Source, want: Block -> FetchResult, s: State, base: Block, top: Block,
                                         views: seq<View>, h: nat)
    requires Faithful(src, want) && Inv(want, s, base) && CalmRun(src, s, base, views)
    requires Ready(views, top, h) && views != [] && h == views[0].finalized.Number() + |views| - 1
    requires s.prev.Number() < h && !Within(s.prev, views[0].leaf)
    ensures h <= top.Number() && h <= views[0].leaf.Number()
    ensures Run(src, s, views).log ==
            s.log + [Forked(views[0].leaf.At(s.prev.Number() + 1), views[0].finalized, s.prev)] +
            EventsOf(src, want, top, views[0].finalized.Number(), h)
  {
    hide Step, EventOf, EventsOf, Inv, Calm, CalmRun, Ready, Productive, Run, Base, Within, Block.At, Block.Number;
    var v := views[0];
    ReadyTail(views, top, h);
    CalmTail(src, s, base, views);
    ForksNow(src, want, s, base, v);
    WithinTransitive(v.finalized, v.leaf, if |views| > 1 then views[1].leaf else top);
    RunTail(src, s, views, []);
    assert views + [] == views && views[1..] + [] == views[1..];
    PublishesToHeight(src, want, Step(src, s, v).0, v.finalized, top, views[1..], h);
  }

  /** On the way there a calm run publishes exactly what the canonical blocks deserve, after one fork event
      when the block last followed has been abandoned. */
  lemma {:induction false} ReachesHeightInOrder(src: Source, want: Block -> FetchResult, s: State, base: Block,
                                                views: seq<View>, h: nat)
    requires Faithful(src, want) && Growing(views) && views != []
    requires Inv(want, s, base) && CalmRun(src, s, base, views)
    requires forall i :: 0 <= i < |views| ==> Productive(views[i]) && h <= views[i].leaf.Number()
    requires s.prev.Number() < h && views[0].finalized.Number() <= h
    requires |views| == if Within(s.prev, views[0].leaf) then h - s.prev.Number()
                        else 1 + h - views[0].finalized.Number()
    ensures var v := views[0];
            var top := views[|views| - 1].leaf;
            Run(src, s, views).log ==
            if Within(s.prev, v.leaf) then s.log + EventsOf(src, want, top, s.prev.Number(), h)
            else s.log + [Forked(v.leaf.At(s.prev.Number() + 1), v.finalized, s.prev)] +
                 EventsOf(src, want, top, v.finalized.Number(), h)
  {
    hide Step, EventOf, EventsOf, Inv, CalmRun, Ready, Productive, Run, Within, Block.At, Block.Number;
    IsReady(views, h);
    var top := views[|views| - 1].leaf;
    if Within(s.prev, views[0].leaf) {
      PublishesToHeight(src, want, s, base, top, views, h);
    } else {
      ForksToHeight(src, want, s, base, top, views, h);
    }
  }

  lemma {:induction false} IsReady(views: seq<View>, h: nat)
    requires Growing(views) && views != []
    requires forall i :: 0 <= i < |views| ==> Productive(views[i]) && h <= views[i].leaf.Number()
    ensures Ready(views, views[|views| - 1].leaf, h)
  {
    hide Productive, Within;
  }

  lemma {:induction false} ForksNow(src: Source, want: Block -> FetchResult, s: State, base: Block, v: View)
    requires Faithful(src, want) && Productive(v) && Inv(want, s, base) && Calm(s, base, v)
    requires s.prev.Number() < v.leaf.Number() && !Within(s.prev, v.leaf)
    ensures var (s', control) := Step(src, s, v);
            control == Running && s'.prev == v.finalized && Base(s, base, v) == v.finalized &&
            Inv(want, s', v.finalized) &&
            s'.log == s.log + [Forked(v.leaf.At(s.prev.Number() + 1), v.finalized, s.prev)]
  {
    hide Step, EventOf, Slots, AllRight;
    AtAt(v.leaf, s.prev.Number() + 1, s.prev.Number());
    ProductiveStep(src, want, s, v);
    StepFollows(src, want, s, base, v);
  }
}
