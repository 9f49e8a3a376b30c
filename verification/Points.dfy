/** The points of the database.  A block's handlers stamp each point on its own: most with the block's time,
    some with the time of a slot that passed since the parent. */
module Points {
  import opened Chain

  datatype Point = Point(block: Block, time: nat)

  /** The times at which a block's points lie. */
  type Stamps = Block -> set<nat>

  /** Every block has a point at its own time, and none later than that or earlier than its parent. */
  ghost predicate Stamping(stamps: Stamps) {
    forall b: Block :: b.timestamp in stamps(b) &&
                       forall t :: t in stamps(b) ==> t <= b.timestamp && (b.Child? && b.Timely() ==> b.parent.timestamp <= t)
  }

  function PointsOf(stamps: Stamps, b: Block): set<Point> {
    set t <- stamps(b) :: Point(b, t)
  }

  /** The points of the blocks above height `n` on the chain ending in `end`. */
  function PointsAbove(stamps: Stamps, n: nat, end: Block): set<Point> {
    set b <- Above(n, end), t <- stamps(b) :: Point(b, t)
  }

  lemma {:induction false} PointsAboveMembers(stamps: Stamps, n: nat, end: Block, p: Point)
    ensures p in PointsAbove(stamps, n, end) <==>
            n < p.block.Number() && Within(p.block, end) && p.time in stamps(p.block)
  {
    AboveMembers(n, end, p.block);
  }

  /** `Resolve` deletes from one second past the finalized block on. */
  function DropAfter(db: set<Point>, timestamp: nat): set<Point> {
    set p | p in db && p.time < timestamp + 1
  }

  /** A delete over a closed time range. */
  function DeleteRange(db: set<Point>, start: nat, stop: nat): set<Point> {
    set p | p in db && !(start <= p.time <= stop)
  }

  const HOUR := 3600

  /** The handler's delete stops an hour past the present; it drops what lies after the finalized block
      precisely when nothing later than that is stored. */
  lemma {:induction false} DeleteIsDropAfter(db: set<Point>, timestamp: nat, now: nat)
    ensures DeleteRange(db, timestamp + 1, now + HOUR) == DropAfter(db, timestamp) <==>
            forall p :: p in db ==> p.time <= timestamp || p.time <= now + HOUR
  {
    if p :| p in db && p.time > timestamp && p.time > now + HOUR {
      assert p in DeleteRange(db, timestamp + 1, now + HOUR) && p !in DropAfter(db, timestamp);
    }
  }

  /** What a delete leaves of the abandoned branch above `finalized`: the points of its first block that carry
      the finalized block's time. */
  function Leftover(stamps: Stamps, side: Block, finalized: Block): set<Point> {
    if finalized.Number() < side.Number()
    then set p | p in PointsOf(stamps, side.At(finalized.Number() + 1)) && p.time <= finalized.timestamp
    else {}
  }

  lemma {:induction false} RollbackLeaves(stamps: Stamps, n: nat, side: Block, finalized: Block)
    requires Stamping(stamps) && side.Timely() && Within(finalized, side) && n <= finalized.Number()
    ensures DropAfter(PointsAbove(stamps, n, side), finalized.timestamp) ==
            PointsAbove(stamps, n, finalized) + Leftover(stamps, side, finalized)
  {
    forall p
      ensures p in DropAfter(PointsAbove(stamps, n, side), finalized.timestamp) <==>
              p in PointsAbove(stamps, n, finalized) + Leftover(stamps, side, finalized)
    {
      PointsAboveMembers(stamps, n, side, p);
      PointsAboveMembers(stamps, n, finalized, p);
      if p.time in stamps(p.block) {
        PointSurvives(stamps, side, finalized, p);
      }
    }
  }

  lemma {:induction false} PointSurvives(stamps: Stamps, side: Block, finalized: Block, p: Point)
    requires Stamping(stamps) && side.Timely() && Within(finalized, side) && p.time in stamps(p.block)
    ensures Within(p.block, finalized) ==> Within(p.block, side) && p.time <= finalized.timestamp
    ensures Within(p.block, side) && p.time <= finalized.timestamp ==>
              Within(p.block, finalized) || p in Leftover(stamps, side, finalized)
    ensures p in Leftover(stamps, side, finalized) ==> Within(p.block, side) && p.block.Number() == finalized.Number() + 1
  {
    var b := p.block;
    TimestampsFollowHeight(finalized, side);
    if finalized.Number() < side.Number() {
      AtAt(side, finalized.Number() + 1, finalized.Number() + 1);
    }
    if Within(b, finalized) {
      WithinTransitive(b, finalized, side);
      TimestampsFollowHeight(b, finalized);
    } else if Within(b, side) {
      if b.Number() <= finalized.Number() {
        WithinLinear(b, finalized, side);
        assert false;
      }
      TimestampsFollowHeight(b, side);
      ParentWithin(b, side);
      TimestampsFollowHeight(b.parent, side);
      WithinLinear(finalized, b.parent, side);
      TimestampsFollowHeight(finalized, b.parent);
    }
  }

  lemma {:induction false} ParentWithin(b: Block, c: Block)
    requires Within(b, c) && b.Child?
    ensures Within(b.parent, c)
  {
    AtAt(c, b.Number(), b.Number() - 1);
    assert b.At(b.Number() - 1) == b.parent;
  }

  /** A fork event leaves exactly the points of the chain up to the finalized block precisely when that block
      is on the chain being abandoned and the block after it there has no point at the finalized block's
      time. */
  lemma {:induction false} RollbackIsExact(stamps: Stamps, start: Block, prev: Block, finalized: Block)
    requires Stamping(stamps) && prev.Timely() && finalized.Timely()
    requires Within(start, finalized) && start != finalized
    ensures DropAfter(PointsAbove(stamps, start.Number(), prev), finalized.timestamp) ==
            PointsAbove(stamps, start.Number(), finalized)
            <==>
            Within(finalized, prev) &&
            (finalized.Number() < prev.Number() ==>
               finalized.timestamp !in stamps(prev.At(finalized.Number() + 1)))
  {
    var n := start.Number();
    var p := Point(finalized, finalized.timestamp);
    PointsAboveMembers(stamps, n, prev, p);
    PointsAboveMembers(stamps, n, finalized, p);
    if Within(finalized, prev) {
      RollbackLeaves(stamps, n, prev, finalized);
      LeftoverIs(stamps, prev, finalized);
      if finalized.Number() < prev.Number() {
        var q := Point(prev.At(finalized.Number() + 1), finalized.timestamp);
        PointsAboveMembers(stamps, n, finalized, q);
      }
    }
  }

  lemma {:induction false} LeftoverIs(stamps: Stamps, side: Block, finalized: Block)
    requires Stamping(stamps) && side.Timely() && Within(finalized, side)
    ensures Leftover(stamps, side, finalized) ==
            if finalized.Number() < side.Number() && finalized.timestamp in stamps(side.At(finalized.Number() + 1))
            then {Point(side.At(finalized.Number() + 1), finalized.timestamp)} else {}
  {
    if finalized.Number() < side.Number() {
      var b := side.At(finalized.Number() + 1);
      AtAt(side, finalized.Number() + 1, finalized.Number());
      AtAt(side, finalized.Number() + 1, finalized.Number() + 1);
      assert b.At(finalized.Number()) == b.parent == finalized;
      TimestampsFollowHeight(b, side);
    }
  }
}
