/** A service that starts on a database from an earlier life, in particular after it exited because the chain had
    become shorter than what it had followed. */
module Restart {
  import opened Chain
  import opened Points
  import opened BlockFetcher
  import opened ForwardSyncer
  import opened Replay
  import opened Stabilisation
  import opened Database

  /** Some fork event of the log deletes what lies at this time. */
  predicate Deletes(log: seq<Event>, timestamp: nat) {
    exists i :: 0 <= i < |log| && log[i].Forked? && log[i].finalized.timestamp < timestamp
  }

  predicate Followed(points: set<Point>, end: Block) {
    forall p :: p in points ==> Within(p.block, end)
  }

  /** Nothing of an abandoned block is left from before exactly when each earlier point is of a followed block or
      later than the finalized block of some fork event. */
  lemma {:induction false} SurvivorsAreFollowedIff(db: set<Point>, log: seq<Event>, end: Block)
    ensures Followed(Survivors(db, log), end) <==>
            forall p :: p in db ==> Within(p.block, end) || Deletes(log, p.time)
  {
    forall p | p in db
      ensures p in Survivors(db, log) <==> !Deletes(log, p.time)
    {
    }
  }

  /** Over a calm run the whole database is of followed blocks exactly when that holds of what was there and of
      what the deletes left. */
  lemma {:induction false} DatabaseIsFollowedIff(stamps: Stamps, src: Source, want: Block -> FetchResult, s: State, base: Block,
                                                 views: seq<View>, start: Block, db: set<Point>)
    requires Stamping(stamps) && Faithful(src, want) && Inv(want, s, base) && CalmRun(src, s, base, views)
    requires Kept(stamps, s, base, start)
    ensures var end := Run(src, s, views);
            Followed(Interpret(stamps, db, end.log), end.prev) <==>
            && (forall p :: p in db ==> Within(p.block, end.prev) || Deletes(end.log, p.time))
            && Followed(Residue(stamps, end.log), end.prev)
  {
    hide Stamping, Inv, CalmRun, Kept, Run, Interpret, Residue, Survivors, PointsAbove, Within, Deletes;
    RunKeepsDatabase(stamps, src, want, s, base, views, start, db, 0);
    var end := Run(src, s, views);
    SurvivorsAreFollowedIff(db, end.log, end.prev);
    forall p | p in PointsAbove(stamps, start.Number(), end.prev)
      ensures Within(p.block, end.prev)
    {
      PointsAboveMembers(stamps, start.Number(), end.prev, p);
    }
  }

  /** The service exits when the chain is shorter than what it has followed.  The next life starts from the
      finalized block; when the chain only grows from then on it emits no fork event, so the points of the block
      last followed are still there, and they are those of a followed block only if the chain grows back to it. */
  lemma {:induction false} RestartLeavesAbandoned(stamps: Stamps, src: Source, s: State, base: Block, start: Block, v: View,
                                                  db: set<Point>, first: Block, views: seq<View>)
    requires Kept(stamps, s, base, start) && start.Number() < s.prev.Number() && Stamping(stamps)
    requires Step(src, s, v).1 == Restarted
    requires first.Child? && Growing(views) && (views != [] ==> Within(first.parent, views[0].leaf))
    ensures s.prev.Number() > v.leaf.Number()
    ensures var left := Interpret(stamps, db, Step(src, s, v).0.log);
            var end := Run(src, State(first.parent, [], []), views);
            && NoForkFrom(end.log, 0)
            && left <= Interpret(stamps, left, end.log)
            && PointsOf(stamps, s.prev) <= left
            && (Followed(Interpret(stamps, left, end.log), end.prev) ==> Within(s.prev, end.prev))
  {
    hide Stamping, PointsAbove, Residue, Survivors, Interpret;
    RestartsShorter(src, s, v);
    var left := Interpret(stamps, db, s.log);
    InterpretSplits(stamps, db, s.log);
    forall p | p in PointsOf(stamps, s.prev)
      ensures p in left
    {
      PointsAboveMembers(stamps, start.Number(), s.prev, p);
    }
    RunGrows(src, State(first.parent, [], []), views);
    var end := Run(src, State(first.parent, [], []), views);
    InterpretSplits(stamps, left, end.log);
    AllSurvive(left, end.log);
    OwnPoint(stamps, s.prev);
  }

  lemma {:induction false} RestartsShorter(src: Source, s: State, v: View)
    requires Step(src, s, v).1 == Restarted
    ensures s.prev.Number() > v.leaf.Number() && Step(src, s, v).0.log == s.log
  {
    hide Process, Touched;
  }

  lemma {:induction false} AllSurvive(db: set<Point>, log: seq<Event>)
    requires NoForkFrom(log, 0)
    ensures Survivors(db, log) == db
  {
  }

  lemma {:induction false} OwnPoint(stamps: Stamps, b: Block)
    requires Stamping(stamps)
    ensures Point(b, b.timestamp) in PointsOf(stamps, b)
  {
  }
}
