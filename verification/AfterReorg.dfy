/** What follows a reorg between the check of a block and its fetch.  The follower goes on from the checked block
    `x`, and the cache holds the result of its sibling `y` at that height.  To the follower it is as if `x` deserved
    the result of `y`, and a node had answered so: that is how this module reuses `Replay`. */
module AfterReorg {
  import opened Chain
  import opened Lru
  import opened Types
  import opened BlockFetcher
  import opened ForwardSyncer
  import opened Replay
  import opened MidIteration

  function Mistaken(want: Block -> FetchResult, x: Block, y: Block): Block -> FetchResult {
    (b: Block) => if b == x then want(y) else want(b)
  }

  function MistakenSource(src: Source, want: Block -> FetchResult, x: Block, y: Block): Source {
    Source((leaf: Block, k: nat) =>
             if k == x.Number() && k <= leaf.Number() && leaf.At(k) == x then Some(want(y)) else src.fetch(leaf, k),
           src.forkedBlock, src.activeBlock)
  }

  lemma {:induction false} MistakenAnswers(src: Source, want: Block -> FetchResult, x: Block, y: Block)
    requires Answers(src, want)
    ensures Answers(MistakenSource(src, want, x, y), Mistaken(want, x, y))
  {
  }

  /** The follower is past `x` and takes it for what `y` is. */
  predicate Mistakes(want: Block -> FetchResult, s: State, base: Block, x: Block, y: Block) {
    && Inv(Mistaken(want, x, y), s, base) && base.Number() < x.Number() && Within(x, s.prev) && x != y
  }

  // The two sources agree wherever height x is not fetched.

  predicate Agree(src: Source, leaf: Block, src': Source, leaf': Block, heights: seq<nat>) {
    forall i :: 0 <= i < |heights| ==> src.fetch(leaf, heights[i]) == src'.fetch(leaf', heights[i])
  }

  lemma {:induction false} SameTouches(src: Source, leaf: Block, src': Source, leaf': Block, c: Cache, heights: seq<nat>)
    requires Agree(src, leaf, src', leaf', heights)
    ensures Touched(src, c, leaf, heights) == Touched(src', c, leaf', heights)
    decreases |heights|
  {
    hide Fetch;
    if heights != [] {
      SameTouches(src, leaf, src', leaf', Fetch(c, heights[0], src.fetch(leaf, heights[0])).0, heights[1..]);
    }
  }

  lemma {:induction false} SameBelow(src: Source, want: Block -> FetchResult, x: Block, y: Block, leaf: Block, heights: seq<nat>,
                                     low: nat)
    requires AtMost(heights, low) && low < x.Number()
    ensures Agree(src, leaf, MistakenSource(src, want, x, y), leaf, heights)
  {
  }

  lemma {:induction false} SameBelowBase(src: Source, want: Block -> FetchResult, x: Block, y: Block, base: Block, leaf: Block,
                                         leaf': Block, heights: seq<nat>)
    requires Answers(src, want) && Within(base, leaf) && Within(base, leaf') && AtMost(heights, base.Number())
    requires base.Number() < x.Number() && leaf.Number() + 1 < UINT32 && leaf'.Number() + 1 < UINT32
    ensures Agree(src, leaf, MistakenSource(src, want, x, y), leaf', heights)
  {
    forall i | 0 <= i < |heights|
      ensures src.fetch(leaf, heights[i]) == src.fetch(leaf', heights[i])
    {
      FetchAnswers(src, want, leaf, base, heights[i]);
      FetchAnswers(src, want, leaf', base, heights[i]);
    }
  }

  /** Two processings that get the same answers are the same; the parent's answer does not matter when it hits. */
  lemma {:induction false} SameProcess(src: Source, v: View, src': Source, v': View, c: Cache, n: nat)
    requires src.forkedBlock == src'.forkedBlock && src.activeBlock == src'.activeBlock && n >= 1
    requires FetchIf(src, v.served, n, v.blockOk) == FetchIf(src', v'.served, n, v'.blockOk)
    requires v.between == v'.between && Agree(src, v.served, src', v'.served, v.between)
    requires n > 1 ==> Lookup(BeforeParent(src, c, n, v), n - 1).Some? ||
                       FetchIf(src, v.servedParent, n - 1, v.parentOk) == FetchIf(src', v'.servedParent, n - 1, v'.parentOk)
    ensures Process(src, c, n, v) == Process(src', c, n, v')
  {
    hide Touched, Lookup, Promote, FetchIf, MakeEvent;
    var c1 := Fetch(c, n, FetchIf(src, v.served, n, v.blockOk)).0;
    SameTouches(src, v.served, src', v'.served, c1, v.between);
    SameMake(src, src');
  }

  lemma {:induction false} SameMake(src: Source, src': Source)
    requires src.forkedBlock == src'.forkedBlock && src.activeBlock == src'.activeBlock
    ensures forall n, current, prev :: MakeEvent(src, n, current, prev) == MakeEvent(src', n, current, prev)
  {
  }

  lemma {:induction false} SameStep(src: Source, v: View, src': Source, v': View, s: State)
    requires v' == v.(served := v'.served)
    requires Agree(src, v.leaf, src', v.leaf, v.before)
    requires Advances(s, v) ==>
      var c := Touched(src, s.cache, v.leaf, v.before);
      Process(src, c, s.prev.Number() + 1, v) == Process(src', c, s.prev.Number() + 1, v')
    ensures Step(src, s, v) == Step(src', s, v')
  {
    hide Process, Touched;
    SameTouches(src, v.leaf, src', v.leaf, s.cache, v.before);
  }

  // The reorg itself.

  lemma {:induction false} InvIsMistaken(want: Block -> FetchResult, s: State, base: Block, x: Block, y: Block)
    requires Inv(want, s, base) && base.Number() < x.Number() && s.prev.Number() < x.Number()
    ensures Inv(Mistaken(want, x, y), s, base)
  {
  }

  /** An iteration that is calm but for a fetch that sees `y` where the check saw `x`. */
  predicate Reorganised(s: State, base: Block, v: View, x: Block, y: Block) {
    && Advances(s, v) && Calm(s, base, v.(served := v.leaf)) && Within(base, s.prev)
    && x == v.leaf.At(s.prev.Number() + 1)
    && Sane(v.served) && Within(base, v.served) && y != x
    && s.prev.Number() + 1 <= v.served.Number() && y == v.served.At(s.prev.Number() + 1)
  }

  lemma {:induction false} ReorgIsMistaken(src: Source, want: Block -> FetchResult, s: State, base: Block, v: View, x: Block, y: Block)
    requires Faithful(src, want) && Reorganised(s, base, v, x, y)
    ensures Step(src, s, v) == Step(MistakenSource(src, want, x, y), s, v.(served := v.leaf))
  {
    hide Process, Touched, Inv, Calm;
    var src', v' := MistakenSource(src, want, x, y), v.(served := v.leaf);
    var n := s.prev.Number() + 1;
    CalmFacts(s, base, v');
    AtAt(v.served, n, n);
    AtAt(v.leaf, n, n);
    SameBelow(src, want, x, y, v.leaf, v.before, base.Number());
    SameBelowBase(src, want, x, y, base, v.served, v.leaf, v.between);
    SameProcess(src, v, src', v', Touched(src, s.cache, v.leaf, v.before), n);
    SameStep(src, v, src', v', s);
  }

  lemma {:induction false} CalmFacts(s: State, base: Block, v: View)
    requires Calm(s, base, v)
    ensures AtMost(v.before, base.Number()) && AtMost(v.between, base.Number()) && Within(base, v.leaf)
    ensures Sane(v.leaf) && Sane(v.served) && Sane(v.servedParent) && Within(base, v.served)
  {
  }

  /** The event that such a reorg publishes: everything of `y`, and the parent of `x`. */
  lemma {:induction false} ReorgPublishes(src: Source, want: Block -> FetchResult, s: State, base: Block, v: View, x: Block, y: Block)
    requires Faithful(src, want) && Reorganised(s, base, v, x, y) && Inv(want, s, base)
    ensures var (s', control) := Step(src, s, v);
            && s'.log == (if s'.prev == s.prev then s.log else
                          s.log + [Published(EventOf(MistakenSource(src, want, x, y), Mistaken(want, x, y), x))])
            && (s'.prev == s.prev || s'.prev == x)
            && (control == Running && s'.prev == x ==> Mistakes(want, s', base, x, y))
  {
    hide Step, Inv, EventOf, Calm;
    var src', want', v' := MistakenSource(src, want, x, y), Mistaken(want, x, y), v.(served := v.leaf);
    AtAt(v.leaf, s.prev.Number() + 1, s.prev.Number() + 1);
    ReorgIsMistaken(src, want, s, base, v, x, y);
    MistakenAnswers(src, want, x, y);
    BaseBelow(s, base, x);
    InvIsMistaken(want, s, base, x, y);
    StepFollows(src', want', s, base, v');
    var s' := Step(src, s, v).0;
    if s'.log != s.log {
      assert s'.prev == x;
    }
  }

  lemma {:induction false} BaseBelow(s: State, base: Block, x: Block)
    requires Within(base, s.prev) && x.Number() == s.prev.Number() + 1
    ensures base.Number() < x.Number()
  {
  }

  // The iterations after it.

  /** Where the next block is not a child of `x`, no height is fetched at which the sources differ. */
  lemma {:induction false} PastIsMistaken(src: Source, want: Block -> FetchResult, s: State, base: Block, v: View, x: Block, y: Block)
    requires Mistakes(want, s, base, x, y) && Calm(s, base, v) && (s.prev == x ==> !Advances(s, v))
    ensures Step(src, s, v) == Step(MistakenSource(src, want, x, y), s, v)
  {
    hide Process, Touched, Inv, Calm;
    var src' := MistakenSource(src, want, x, y);
    CalmFacts(s, base, v);
    SameBelow(src, want, x, y, v.leaf, v.before, base.Number());
    SameBelow(src, want, x, y, v.served, v.between, base.Number());
    if Advances(s, v) {
      SameProcess(src, v, src', v, Touched(src, s.cache, v.leaf, v.before), s.prev.Number() + 1);
    }
    SameStep(src, v, src', v, s);
  }

  /** Whether the sibling's result is still held when the parent of a child of `x` is fetched. */
  predicate StillHeld(src: Source, s: State, v: View, x: Block) {
    Lookup(BeforeParent(src, Touched(src, s.cache, v.leaf, v.before), x.Number() + 1, v), x.Number()).Some?
  }

  lemma {:induction false} HeldIsMistaken(src: Source, want: Block -> FetchResult, s: State, base: Block, v: View, x: Block, y: Block)
    requires Mistakes(want, s, base, x, y) && Calm(s, base, v) && s.prev == x && StillHeld(src, s, v, x)
    ensures Step(src, s, v) == Step(MistakenSource(src, want, x, y), s, v)
  {
    hide Process, Touched, Inv, Calm, Lookup, BeforeParent;
    var src' := MistakenSource(src, want, x, y);
    CalmFacts(s, base, v);
    SameBelow(src, want, x, y, v.leaf, v.before, base.Number());
    SameBelow(src, want, x, y, v.served, v.between, base.Number());
    SameProcess(src, v, src', v, Touched(src, s.cache, v.leaf, v.before), x.Number() + 1);
    SameStep(src, v, src', v, s);
  }

  lemma {:induction false} MistakenSlots(src: Source, want: Block -> FetchResult, s: State, base: Block, v: View, x: Block, y: Block)
    requires Answers(src, want) && Mistakes(want, s, base, x, y) && Calm(s, base, v)
    ensures var c := Touched(src, s.cache, v.leaf, v.before);
            Slots(c, base.Number(), s.prev.Number()) && AllRight(Mistaken(want, x, y), c, base, s.prev)
  {
    hide Touched, Slots, AllRight;
    var src', want' := MistakenSource(src, want, x, y), Mistaken(want, x, y);
    CalmFacts(s, base, v);
    MistakenAnswers(src, want, x, y);
    SameBelow(src, want, x, y, v.leaf, v.before, base.Number());
    SameTouches(src, v.leaf, src', v.leaf, s.cache, v.before);
    TouchedKeeps(src', want', s.cache, v.leaf, v.before, base, s.prev, false, s.prev.Number());
  }

  /** An entry at the height of `x` apart, what is right for the mistaken is right. */
  lemma {:induction false} RightAgain(want: Block -> FetchResult, c: Cache, base: Block, top: Block, x: Block, y: Block)
    requires AllRight(Mistaken(want, x, y), c, base, top)
    requires forall i :: 0 <= i < |c| && (c[i].key <= base.Number() || c[i].key <= top.Number()) ==> c[i].key != x.Number()
    ensures AllRight(want, c, base, top)
  {
    forall i | 0 <= i < |c| && (c[i].key <= base.Number() || c[i].key <= top.Number())
      ensures c[i].value == Expected(want, base, top, c[i].key)
    {
      RightAt(Mistaken(want, x, y), c, i, base, top);
    }
  }

  /** Once the sibling's result is gone, the child of `x` gets its parent right, and so does everything after. */
  lemma {:induction false} ForgottenIsRight(src: Source, want: Block -> FetchResult, s: State, base: Block, v: View, x: Block, y: Block)
    requires Faithful(src, want) && Mistakes(want, s, base, x, y) && Calm(s, base, v) && s.prev == x
    requires Advances(s, v) && !StillHeld(src, s, v, x)
    ensures var z := v.leaf.At(x.Number() + 1);
            var c := Touched(src, s.cache, v.leaf, v.before);
            var (c', event) := Process(src, c, x.Number() + 1, v);
            if event.None? then c' == c
            else event.value == EventOf(src, want, z) && Slots(c', base.Number(), z.Number()) && AllRight(want, c', base, z)
  {
    hide Touched, Slots, MidSlots, AllRight, Promote, Lookup;
    var src', want' := MistakenSource(src, want, x, y), Mistaken(want, x, y);
    var z := v.leaf.At(x.Number() + 1);
    var c := Touched(src, s.cache, v.leaf, v.before);
    AtAt(v.leaf, x.Number() + 1, x.Number() + 1);
    MistakenAnswers(src, want, x, y);
    MistakenSlots(src, want, s, base, v, x, y);
    ServeBlock(src', want', c, z, base, v);
    SameBelow(src, want, x, y, v.served, v.between, base.Number());
    var (c1, current) := Fetch(c, z.Number(), FetchIf(src, v.served, z.Number(), v.blockOk));
    assert FetchIf(src', v.served, z.Number(), v.blockOk) == FetchIf(src, v.served, z.Number(), v.blockOk);
    SameTouches(src, v.served, src', v.served, c1, v.between);
    if current.Some? {
      var c2 := BeforeParent(src, c, z.Number(), v);
      NotHeld(c2, x.Number());
      RightAgain(want, c2, base, z, x, y);
      ServeParent(src, want, c2, z, base, v);
    }
  }

  lemma {:induction false} NotHeld(c: Cache, k: nat)
    requires Lookup(c, k).None?
    ensures forall i :: 0 <= i < |c| ==> c[i].key != k
  {
  }

  /** A rollback is deep enough to forget the sibling, or goes back below it. */
  lemma {:induction false} RollbackForgets(want: Block -> FetchResult, c: Cache, base: Block, prev: Block, f: Block, x: Block, y: Block)
    requires Slots(c, base.Number(), prev.Number()) && base.Number() < x.Number() && Deep(prev.Number(), f.Number())
    requires AllRight(Mistaken(want, x, y), c, f, f)
    ensures AllRight(want, c, f, f)
  {
    forall i | 0 <= i < |c| && c[i].key <= f.Number()
      ensures c[i].key != x.Number()
    {
      assert SlotOk(i, c[i].key, base.Number(), prev.Number());
    }
    RightAgain(want, c, f, f, x, y);
  }

  /** What the child `z` of `x` is published with while the sibling's result is held: its own block and seeds, but
      the parent, its validators and its authority nodes are those of `y`. */
  function WrongParent(src: Source, want: Block -> FetchResult, x: Block, y: Block, z: Block): BlockEvent {
    EventOf(MistakenSource(src, want, x, y), Mistaken(want, x, y), z)
  }

  lemma {:induction false} WrongParentIs(src: Source, want: Block -> FetchResult, x: Block, y: Block, z: Block)
    requires Faithful(src, want) && z != x && z.Number() + 1 < UINT32 && y.Number() + 1 < UINT32
    ensures var e, d := WrongParent(src, want, x, y, z), EventOf(src, want, z);
            && e.block == z && d.block == z
            && (if z.Child? && z.parent == x && z.Number() > 1
                then d.prev == Some(x) &&
                     e == d.(prev := Some(y), parentStaker := want(y).staker, parentAuthNodes := want(y).authNodes)
                else e == d)
  {
  }

  predicate Heals(want: Block -> FetchResult, s: State, base: Block, x: Block, y: Block) {
    Mistakes(want, s, base, x, y) || Inv(want, s, base)
  }

  /** The iteration that publishes the child of `x`: its parent is wrong exactly while the sibling's result is
      held. */
  lemma {:induction false} NextParentIff(src: Source, want: Block -> FetchResult, s: State, base: Block, v: View, x: Block, y: Block)
    requires Faithful(src, want) && Mistakes(want, s, base, x, y) && Calm(s, base, v) && y.Number() == x.Number()
    requires s.prev == x && Advances(s, v) && x.Number() >= 1
    ensures var (s', control) := Step(src, s, v);
            var z := v.leaf.At(x.Number() + 1);
            && (s'.prev == x ==> s'.log == s.log)
            && (s'.prev != x ==>
                && s'.prev == z
                && s'.log == s.log + [Published(if StillHeld(src, s, v, x) then WrongParent(src, want, x, y, z) else EventOf(src, want, z))]
                && WrongParent(src, want, x, y, z) != EventOf(src, want, z))
            && (control == Running ==> Heals(want, s', base, x, y))
  {
    hide Step, Inv, EventOf, Calm, StillHeld, Mistakes, MistakenSource, Mistaken, WrongParent;
    NextIsFar(want, s, base, v, x, y);
    WrongParentIs(src, want, x, y, v.leaf.At(x.Number() + 1));
    if StillHeld(src, s, v, x) {
      HeldStep(src, want, s, base, v, x, y);
    } else {
      ForgottenStep(src, want, s, base, v, x, y);
    }
  }

  lemma {:induction false} NextIsFar(want: Block -> FetchResult, s: State, base: Block, v: View, x: Block, y: Block)
    requires Mistakes(want, s, base, x, y) && Calm(s, base, v) && s.prev == x && Advances(s, v)
    ensures x != y && x.Number() + 2 < UINT32 && v.leaf.At(x.Number() + 1).parent == x
  {
  }

  lemma {:induction false} HeldStep(src: Source, want: Block -> FetchResult, s: State, base: Block, v: View, x: Block, y: Block)
    requires Faithful(src, want) && Mistakes(want, s, base, x, y) && Calm(s, base, v) && s.prev == x
    requires Advances(s, v) && StillHeld(src, s, v, x)
    ensures var (s', control) := Step(src, s, v);
            var z := v.leaf.At(x.Number() + 1);
            && (s'.prev == x ==> s'.log == s.log)
            && (s'.prev != x ==> s'.prev == z && s'.log == s.log + [Published(WrongParent(src, want, x, y, z))])
            && (control == Running ==> Mistakes(want, s', base, x, y))
  {
    hide Step, Inv, EventOf, Calm, StillHeld, MistakenSource, Mistaken;
    AtAt(v.leaf, x.Number() + 1, x.Number() + 1);
    NotFork(s, base, v);
    HeldIsMistaken(src, want, s, base, v, x, y);
    StepFollowsMistaken(src, want, s, base, v, x, y);
    assert Step(src, s, v).0.prev == x ==> !(x.Child? && x.parent == x);
  }

  lemma {:induction false} NotFork(s: State, base: Block, v: View)
    requires Calm(s, base, v) && Advances(s, v)
    ensures !Forks(s, v) && Base(s, base, v) == base
  {
  }

  lemma {:induction false} StepFollowsMistaken(src: Source, want: Block -> FetchResult, s: State, base: Block, v: View,
                                               x: Block, y: Block)
    requires Faithful(src, want) && Mistakes(want, s, base, x, y) && Calm(s, base, v)
    requires Step(src, s, v) == Step(MistakenSource(src, want, x, y), s, v)
    ensures var (s', control) := Step(src, s, v);
            && Follows(MistakenSource(src, want, x, y), Mistaken(want, x, y), s, v, s')
            && (control == Running ==> Inv(Mistaken(want, x, y), s', Base(s, base, v)))
            && (control == Running && !Forks(s, v) ==> Mistakes(want, s', base, x, y))
  {
    hide Step, Inv, EventOf, Calm;
    MistakenAnswers(src, want, x, y);
    StepFollows(MistakenSource(src, want, x, y), Mistaken(want, x, y), s, base, v);
    var s' := Step(src, s, v).0;
    if !Forks(s, v) && s'.prev != s.prev {
      assert s'.prev.At(s.prev.Number()) == s.prev;
      WithinTransitive(x, s.prev, s'.prev);
    }
  }

  lemma {:induction false} ForgottenStep(src: Source, want: Block -> FetchResult, s: State, base: Block, v: View, x: Block, y: Block)
    requires Faithful(src, want) && Mistakes(want, s, base, x, y) && Calm(s, base, v) && s.prev == x
    requires Advances(s, v) && !StillHeld(src, s, v, x)
    ensures var (s', control) := Step(src, s, v);
            var z := v.leaf.At(x.Number() + 1);
            && (s'.prev == x ==> s'.log == s.log)
            && (s'.prev != x ==> s'.prev == z && s'.log == s.log + [Published(EventOf(src, want, z))])
            && (control == Running ==> Heals(want, s', base, x, y))
  {
    hide Process, Touched, Slots, AllRight, StillHeld, Mistaken, EventOf;
    var z := v.leaf.At(x.Number() + 1);
    AtAt(v.leaf, x.Number() + 1, x.Number() + 1);
    ForgottenIsRight(src, want, s, base, v, x, y);
    MistakenSlots(src, want, s, base, v, x, y);
    assert z.At(x.Number()) == x;
    WithinTransitive(base, x, z);
  }

  /** One added event: a fork, what its block deserves, or a child of `x` with the wrong parent. */
  predicate Grows(src: Source, want: Block -> FetchResult, x: Block, y: Block, log: seq<Event>, log': seq<Event>) {
    || log' == log
    || (|log'| == |log| + 1 && log'[..|log|] == log && Excused(src, want, x, y, log'[|log|]))
  }

  predicate Excused(src: Source, want: Block -> FetchResult, x: Block, y: Block, e: Event) {
    e.Published? ==>
      || e.event == EventOf(src, want, e.event.block)
      || (e.event.block.Child? && e.event.block.parent == x && e.event == WrongParent(src, want, x, y, e.event.block))
  }

  lemma {:induction false} StepHeals(src: Source, want: Block -> FetchResult, s: State, base: Block, v: View, x: Block, y: Block)
    requires Faithful(src, want) && Heals(want, s, base, x, y) && Calm(s, base, v)
    requires y.Number() == x.Number() && x.Number() + 1 < UINT32 && x.Number() >= 1
    ensures var (s', control) := Step(src, s, v);
            && Grows(src, want, x, y, s.log, s'.log)
            && (control == Running ==> Heals(want, s', Base(s, base, v), x, y))
  {
    hide Step, Inv, EventOf, Calm, StillHeld, Excused, WrongParent, MistakenSource, Mistaken, Within;
    CalmFacts(s, base, v);
    if Inv(want, s, base) {
      StepFollows(src, want, s, base, v);
      FollowsGrows(src, want, s, v, Step(src, s, v).0, x, y);
    } else if s.prev == x && Advances(s, v) {
      NotFork(s, base, v);
      NextParentIff(src, want, s, base, v, x, y);
      NextGrows(src, want, s, base, v, x, y);
    } else {
      PastIsMistaken(src, want, s, base, v, x, y);
      StepFollowsMistaken(src, want, s, base, v, x, y);
      MistakenGrows(src, want, s, v, Step(src, s, v).0, x, y);
      if Forks(s, v) && Step(src, s, v).1 == Running {
        ForkHeals(src, want, s, base, v, x, y);
      }
    }
  }

  lemma {:induction false} NextGrows(src: Source, want: Block -> FetchResult, s: State, base: Block, v: View, x: Block, y: Block)
    requires Faithful(src, want) && Mistakes(want, s, base, x, y) && Calm(s, base, v) && y.Number() == x.Number()
    requires s.prev == x && Advances(s, v) && x.Number() >= 1
    ensures Grows(src, want, x, y, s.log, Step(src, s, v).0.log)
  {
    hide Step, Inv, EventOf, Calm, StillHeld, Mistakes, MistakenSource, Mistaken, WrongParent;
    NextIsFar(want, s, base, v, x, y);
    WrongParentIs(src, want, x, y, v.leaf.At(x.Number() + 1));
    NextParentIff(src, want, s, base, v, x, y);
  }

  lemma {:induction false} FollowsGrows(src: Source, want: Block -> FetchResult, s: State, v: View, s': State, x: Block, y: Block)
    requires Faithful(src, want) && Follows(src, want, s, v, s') && Sane(v.leaf)
    ensures Grows(src, want, x, y, s.log, s'.log)
  {
  }

  lemma {:induction false} MistakenGrows(src: Source, want: Block -> FetchResult, s: State, v: View, s': State, x: Block, y: Block)
    requires Faithful(src, want) && Follows(MistakenSource(src, want, x, y), Mistaken(want, x, y), s, v, s') && Sane(v.leaf)
    requires Within(x, s.prev) && y.Number() == x.Number() && x.Number() + 1 < UINT32
    ensures Grows(src, want, x, y, s.log, s'.log)
  {
    hide EventOf;
    if s'.log != s.log && !Forks(s, v) {
      WrongParentIs(src, want, x, y, s'.prev);
    }
  }

  lemma {:induction false} ForkHeals(src: Source, want: Block -> FetchResult, s: State, base: Block, v: View, x: Block, y: Block)
    requires Faithful(src, want) && Mistakes(want, s, base, x, y) && Calm(s, base, v) && Forks(s, v)
    requires Inv(Mistaken(want, x, y), Step(src, s, v).0, v.finalized)
    ensures Inv(want, Step(src, s, v).0, v.finalized)
  {
    hide Touched, Process, Slots, AllRight;
    MistakenSlots(src, want, s, base, v, x, y);
    RollbackForgets(want, Touched(src, s.cache, v.leaf, v.before), base, s.prev, v.finalized, x, y);
  }

  /** Over every calm run after such a reorg, any number of forks included: every event is the one that its block
      deserves, or it is of a child of `x` and wrong in its parent alone. */
  lemma {:induction false} RunAfterReorg(src: Source, want: Block -> FetchResult, s: State, base: Block, views: seq<View>,
                                         x: Block, y: Block)
    requires Faithful(src, want) && Heals(want, s, base, x, y) && CalmRun(src, s, base, views)
    requires y.Number() == x.Number() && x.Number() + 1 < UINT32 && x.Number() >= 1
    ensures var end := Run(src, s, views);
            s.log <= end.log && forall i :: |s.log| <= i < |end.log| ==> Excused(src, want, x, y, end.log[i])
    decreases |views|
  {
    hide Step, Calm, Heals, Excused;
    if views != [] {
      StepHeals(src, want, s, base, views[0], x, y);
      var (s1, control) := Step(src, s, views[0]);
      if control == Running {
        RunAfterReorg(src, want, s1, Base(s, base, views[0]), views[1..], x, y);
      }
    }
  }

  // An undisturbed pair of iterations.

  /** A recent entry is still there after another one was used. */
  lemma {:induction false} RecentStays(c: Cache, k: nat, e: Entry<FetchResult>)
    requires Lru.Valid(c) && Find(c, k) < |c| && Find(c, k) + 1 < CACHE_SIZE && e.key != k
    ensures var r := Promote(c, e); Lru.Valid(r) && Find(r, k) < |r| && Find(r, k) <= Find(c, k) + 1
  {
    hide Promote;
    PromoteShape(c, e);
    var r := Promote(c, e);
    var i := Find(c, k);
    var p := Find(c, e.key);
    assert r[if i < p then i + 1 else i] == c[i];
  }

  /** A block that was processed with nobody else about is at most one place from the front. */
  lemma {:induction false} ProcessedIsRecent(src: Source, c: Cache, n: nat, v: View)
    requires Lru.Valid(c) && n >= 1 && v.between == [] && Process(src, c, n, v).1.Some?
    ensures var r := Process(src, c, n, v).0; Lru.Valid(r) && Find(r, n) <= 1 && Find(r, n) < |r|
  {
    hide Promote;
    var (c1, current) := Fetch(c, n, FetchIf(src, v.served, n, v.blockOk));
    PromoteShape(c, Entry(n, current.value));
    assert Find(c1, n) == 0;
    assert Touched(src, c1, v.served, []) == c1;
    if n > 1 {
      var (c3, parent) := Fetch(c1, n - 1, FetchIf(src, v.servedParent, n - 1, v.parentOk));
      RecentStays(c1, n, Entry(n - 1, parent.value));
    }
  }

  lemma {:induction false} RecentIsHeld(src: Source, s: State, v: View, x: Block)
    requires Lru.Valid(s.cache) && Find(s.cache, x.Number()) <= 1 && Find(s.cache, x.Number()) < |s.cache|
    requires v.before == v.between == []
    ensures StillHeld(src, s, v, x)
  {
    hide Promote;
    var (c1, current) := Fetch(s.cache, x.Number() + 1, FetchIf(src, v.served, x.Number() + 1, v.blockOk));
    if current.Some? {
      RecentStays(s.cache, x.Number(), Entry(x.Number() + 1, current.value));
    }
    assert Touched(src, s.cache, v.leaf, []) == s.cache && Touched(src, c1, v.served, []) == c1;
  }

  /** With nobody else about, such a reorg spoils two events: its own, which is of the sibling, and the next, whose
      parent is the sibling. */
  lemma {:induction false} ReorgSpoilsTwo(src: Source, want: Block -> FetchResult, s: State, base: Block, v: View, w: View,
                                          x: Block, y: Block)
    requires Faithful(src, want) && Reorganised(s, base, v, x, y) && Inv(want, s, base) && v.between == []
    requires Step(src, s, v).1 == Running && Step(src, s, v).0.prev == x
    requires var s1 := Step(src, s, v).0;
             Calm(s1, base, w) && Advances(s1, w) && w.before == w.between == [] && Step(src, s1, w).0.prev != x
    ensures var s1 := Step(src, s, v).0;
            var s2 := Step(src, s1, w).0;
            var z := w.leaf.At(x.Number() + 1);
            var e, d := s2.log[|s2.log| - 1].event, EventOf(src, want, z);
            && |s1.log| == |s.log| + 1 && |s2.log| == |s.log| + 2
            && s1.log[|s.log|].Published? && s1.log[|s.log|].event.block == y
            && s2.log[|s.log| + 1].Published?
            && d.prev == Some(x)
            && e == d.(prev := Some(y), parentStaker := want(y).staker, parentAuthNodes := want(y).authNodes)
  {
    hide Step, Inv, EventOf, Calm, StillHeld, Mistakes, MistakenSource, Mistaken, WrongParent, Process, Touched;
    var s1 := Step(src, s, v).0;
    ReorgPublishes(src, want, s, base, v, x, y);
    ReorgFacts(want, s, base, v, x, y);
    StepIsRecent(src, want, s, base, v, x, y);
    RecentIsHeld(src, s1, w, x);
    NextIsFar(want, s1, base, w, x, y);
    NextParentIff(src, want, s1, base, w, x, y);
    WrongParentIs(src, want, x, y, w.leaf.At(x.Number() + 1));
    MistakenBlock(src, want, x, y);
  }

  lemma {:induction false} MistakenBlock(src: Source, want: Block -> FetchResult, x: Block, y: Block)
    requires Faithful(src, want) && y.Number() + 1 < UINT32
    ensures EventOf(MistakenSource(src, want, x, y), Mistaken(want, x, y), x).block == y
  {
  }

  lemma {:induction false} ReorgFacts(want: Block -> FetchResult, s: State, base: Block, v: View, x: Block, y: Block)
    requires Reorganised(s, base, v, x, y)
    ensures x.Number() == y.Number() == s.prev.Number() + 1 && y.Number() + 1 < UINT32 && s.prev != x
  {
  }

  lemma {:induction false} StepIsRecent(src: Source, want: Block -> FetchResult, s: State, base: Block, v: View, x: Block, y: Block)
    requires Faithful(src, want) && Reorganised(s, base, v, x, y) && Inv(want, s, base) && v.between == []
    requires Step(src, s, v).0.prev == x
    ensures var c := Step(src, s, v).0.cache; Lru.Valid(c) && Find(c, x.Number()) <= 1 && Find(c, x.Number()) < |c|
  {
    hide Process, Touched, AllRight;
    var c := Touched(src, s.cache, v.leaf, v.before);
    ReorgFacts(want, s, base, v, x, y);
    TouchedKeeps(src, want, s.cache, v.leaf, v.before, base, s.prev, false, s.prev.Number());
    if Process(src, c, x.Number(), v).1.Some? {
      ProcessedIsRecent(src, c, x.Number(), v);
    }
  }
}
