/** What disabling and re-enabling load balancing keep and restore. */
module CpusetProof {
  import opened Sequences
  import opened Cpuset

  ghost predicate Within(parent: Level, child: Level) {
    child.exclusive <= parent.exclusive && child.cpus <= parent.cpus
  }

  /** The kernel's rules: an exclusive CPU is one of the cgroup's CPUs, and a child has no CPU
      and no exclusive CPU its parent lacks. */
  ghost predicate Nested(levels: seq<Level>) {
    (forall k :: 0 <= k < |levels| ==> levels[k].exclusive <= levels[k].cpus) &&
    (forall k :: 0 < k < |levels| ==> Within(levels[k - 1], levels[k]))
  }

  /** The desired states setCPULoadBalancingV2 builds: the same exclusive CPUs on every level,
      and CPUs that do not grow on the way down. */
  ghost predicate Chain(states: seq<Desired>, exclusive: Cpus) {
    TopDown(states) &&
    (forall k :: 0 <= k < |states| ==> states[k].exclusiveCPUs == exclusive && exclusive <= states[k].cpus) &&
    (forall k :: 0 < k < |states| ==> states[k].cpus <= states[k - 1].cpus)
  }

  /** The rules hold after every single write of a run. */
  ghost predicate NestedThroughout(levels: seq<Level>, order: seq<Desired>, add: bool)
    requires Placed(order, |levels|)
  {
    forall n: nat :: n <= 2 * |order| ==> Nested(Run(levels, order, add, n))
  }

  // ---- disabling: add from the top down ----

  lemma AddedOwn(l: Level, d: Desired, done: nat)
    requires l.exclusive <= l.cpus && d.exclusiveCPUs <= d.cpus && done <= 2
    ensures var r := LevelAfter(l, d, true, done); r.exclusive <= r.cpus
  {
  }

  lemma AddedPair(p: Level, c: Level, dp: Desired, dc: Desired, doneP: nat, doneC: nat)
    requires Within(p, c) && dc.cpus <= dp.cpus && dc.exclusiveCPUs == dp.exclusiveCPUs
    requires doneP <= 2 && doneC <= 2 && (doneP == 2 || doneC == 0)
    ensures Within(LevelAfter(p, dp, true, doneP), LevelAfter(c, dc, true, doneC))
  {
  }

  /** Disabling load balancing keeps the kernel's rules after every single write. */
  lemma {:induction false} DisableKeepsNesting(levels: seq<Level>, states: seq<Desired>, exclusive: Cpus, n: nat)
    requires |states| == |levels| && Chain(states, exclusive) && Nested(levels)
    requires n <= 2 * |levels| && Placed(states, |levels|)
    ensures Nested(Run(levels, states, true, n))
  {
    RunIsLevelsAfter(levels, states, false, true, n);
    var after := LevelsAfter(levels, states, false, true, n);
    forall k | 0 <= k < |levels|
      ensures after[k].exclusive <= after[k].cpus
    {
      AddedOwn(levels[k], states[k], Done(|levels|, false, k, n));
    }
    forall k | 0 < k < |levels|
      ensures Within(after[k - 1], after[k])
    {
      AddedPair(levels[k - 1], levels[k], states[k - 1], states[k], Done(|levels|, false, k - 1, n), Done(|levels|, false, k, n));
    }
  }

  // ---- re-enabling: remove from the bottom up ----

  /** The level's cpuset.cpus is edited when it wants nothing but the exclusive CPUs. */
  ghost predicate Edited(d: Desired) {
    d.exclusiveCPUs == d.cpus
  }

  /** Where removal empties a cgroup's CPUs the file is left alone, so an edited parent has to be
      left alone with it. */
  ghost predicate EmptiedTogether(levels: seq<Level>, states: seq<Desired>, exclusive: Cpus)
    requires |states| == |levels|
  {
    forall k :: 0 < k < |levels| && Edited(states[k - 1]) && {} < levels[k].cpus <= exclusive ==> levels[k - 1].cpus <= exclusive
  }

  lemma RemovedOwn(l: Level, d: Desired, done: nat)
    requires l.exclusive <= l.cpus && done <= 2
    ensures var r := LevelAfter(l, d, false, done); r.exclusive <= r.cpus
  {
  }

  lemma RemovedPair(p: Level, c: Level, dp: Desired, dc: Desired, doneP: nat, doneC: nat)
    requires Within(p, c) && dc.exclusiveCPUs == dp.exclusiveCPUs
    requires doneP <= 2 && doneC <= 2 && (doneP == 0 || doneC == 2)
    requires Edited(dp) ==> Edited(dc) && ({} < c.cpus <= dp.exclusiveCPUs ==> p.cpus <= dp.exclusiveCPUs)
    ensures Within(LevelAfter(p, dp, false, doneP), LevelAfter(c, dc, false, doneC))
  {
    assert c.cpus - dp.exclusiveCPUs <= p.cpus - dp.exclusiveCPUs;
    assert p.cpus <= dp.exclusiveCPUs ==> p.cpus - dp.exclusiveCPUs == {};
    if c.cpus - dp.exclusiveCPUs == {} {
      forall x | x in c.cpus
        ensures x in dp.exclusiveCPUs
      {
        assert x !in c.cpus - dp.exclusiveCPUs;
      }
    }
  }

  lemma {:induction false} EnableKeepsNestingIf(levels: seq<Level>, states: seq<Desired>, exclusive: Cpus, n: nat)
    requires |states| == |levels| && Chain(states, exclusive) && Nested(levels)
    requires n <= 2 * |levels| && EmptiedTogether(levels, states, exclusive) && Placed(Reversed(states), |levels|)
    ensures Nested(Run(levels, Reversed(states), false, n))
  {
    RunIsLevelsAfter(levels, states, true, false, n);
    var after := LevelsAfter(levels, states, true, false, n);
    forall k | 0 <= k < |levels|
      ensures after[k].exclusive <= after[k].cpus
    {
      RemovedOwn(levels[k], states[k], Done(|levels|, true, k, n));
    }
    forall k | 0 < k < |levels|
      ensures Within(after[k - 1], after[k])
    {
      RemovedPair(levels[k - 1], levels[k], states[k - 1], states[k], Done(|levels|, true, k - 1, n), Done(|levels|, true, k, n));
    }
  }

  lemma TornPair(p: Level, c: Level, dp: Desired, dc: Desired)
    requires Within(p, c) && dc.exclusiveCPUs == dp.exclusiveCPUs && Edited(dp) && Edited(dc)
    requires {} < c.cpus <= dp.exclusiveCPUs && !(p.cpus <= dp.exclusiveCPUs)
    ensures !Within(LevelAfter(p, dp, false, 2), LevelAfter(c, dc, false, 2))
  {
    var x :| x in c.cpus;
    assert x in LevelAfter(c, dc, false, 2).cpus && x !in LevelAfter(p, dp, false, 2).cpus;
  }

  lemma {:induction false} TornRun(levels: seq<Level>, states: seq<Desired>, exclusive: Cpus, k: nat)
    requires |states| == |levels| && Chain(states, exclusive) && Nested(levels) && Placed(Reversed(states), |levels|)
    requires 0 < k < |levels| && Edited(states[k - 1]) && {} < levels[k].cpus <= exclusive && !(levels[k - 1].cpus <= exclusive)
    ensures !Nested(Run(levels, Reversed(states), false, 2 * |levels|))
  {
    var n := 2 * |levels|;
    RunIsLevelsAfter(levels, states, true, false, n);
    assert Edited(states[k]);
    TornPair(levels[k - 1], levels[k], states[k - 1], states[k]);
    var after := LevelsAfter(levels, states, true, false, n);
    assert !Within(after[k - 1], after[k]);
  }

  /** Re-enabling keeps the kernel's rules after every single write exactly when no edited parent
      keeps other CPUs while its child would be emptied. */
  lemma {:induction false} EnableKeepsNesting(levels: seq<Level>, states: seq<Desired>, exclusive: Cpus)
    requires |states| == |levels| && Chain(states, exclusive) && Nested(levels) && Placed(Reversed(states), |levels|)
    ensures NestedThroughout(levels, Reversed(states), false) <==> EmptiedTogether(levels, states, exclusive)
  {
    if EmptiedTogether(levels, states, exclusive) {
      forall n: nat | n <= 2 * |levels|
        ensures Nested(Run(levels, Reversed(states), false, n))
      {
        EnableKeepsNestingIf(levels, states, exclusive, n);
      }
    } else {
      var k :| 0 < k < |levels| && Edited(states[k - 1]) && {} < levels[k].cpus <= exclusive && !(levels[k - 1].cpus <= exclusive);
      TornRun(levels, states, exclusive, k);
    }
  }

  // ---- reverting ----

  ghost predicate ExclusiveIs(levels: seq<Level>, before: seq<Level>, exclusive: Cpus, added: bool)
    requires |levels| == |before|
  {
    forall k :: 0 <= k < |levels| ==>
      levels[k].exclusive == if added then before[k].exclusive + exclusive else before[k].exclusive - exclusive
  }

  lemma LevelExclusive(l: Level, d: Desired, add: bool, done: nat)
    requires done <= 2
    ensures LevelAfter(l, d, add, done).exclusive in {l.exclusive, Target(l.exclusive, d.exclusiveCPUs, add)}
    ensures done == 2 ==> LevelAfter(l, d, add, done).exclusive == Target(l.exclusive, d.exclusiveCPUs, add)
  {
  }

  lemma {:induction false} RunsExclusive(levels: seq<Level>, states: seq<Desired>, exclusive: Cpus, bottomUp: bool, add: bool, n: nat)
    requires |states| == |levels| && Chain(states, exclusive) && n <= 2 * |levels| && Placed(InOrder(states, bottomUp), |levels|)
    ensures var after := Run(levels, InOrder(states, bottomUp), add, n);
            (forall k :: 0 <= k < |levels| ==>
              after[k].exclusive in {levels[k].exclusive, Target(levels[k].exclusive, exclusive, add)}) &&
            (n == 2 * |levels| ==> forall k :: 0 <= k < |levels| ==>
              after[k].exclusive == Target(levels[k].exclusive, exclusive, add))
  {
    RunIsLevelsAfter(levels, states, bottomUp, add, n);
    var after := LevelsAfter(levels, states, bottomUp, add, n);
    forall k | 0 <= k < |levels|
      ensures after[k].exclusive in {levels[k].exclusive, Target(levels[k].exclusive, exclusive, add)}
      ensures n == 2 * |levels| ==> after[k].exclusive == Target(levels[k].exclusive, exclusive, add)
    {
      LevelExclusive(levels[k], states[k], add, Done(|levels|, bottomUp, k, n));
    }
  }

  /** A disable that stops after any number of writes and is reverted without a further error
      leaves each exclusive set without the requested CPUs, so it restores the hierarchy's
      exclusive sets exactly when they had none of them. */
  lemma {:induction false} DisableReverted(levels: seq<Level>, states: seq<Desired>, exclusive: Cpus, n: nat)
    requires |states| == |levels| && Chain(states, exclusive) && n <= 2 * |levels|
    requires Placed(states, |levels|) && Placed(Reversed(states), |levels|)
    ensures var after := Run(Run(levels, states, true, n), Reversed(states), false, 2 * |levels|);
            ExclusiveIs(after, levels, exclusive, false) &&
            ((forall k :: 0 <= k < |levels| ==> after[k].exclusive == levels[k].exclusive) <==>
             (forall k :: 0 <= k < |levels| ==> levels[k].exclusive !! exclusive))
  {
    RunsExclusive(levels, states, exclusive, false, true, n);
    var middle := Run(levels, states, true, n);
    RunsExclusive(middle, states, exclusive, true, false, 2 * |levels|);
    var after := Run(middle, Reversed(states), false, 2 * |levels|);
    forall k | 0 <= k < |levels|
      ensures after[k].exclusive == levels[k].exclusive - exclusive
      ensures after[k].exclusive == levels[k].exclusive <==> levels[k].exclusive !! exclusive
    {
    }
  }

  /** A re-enable that stops after any number of writes and is reverted without a further error
      leaves the requested CPUs in every exclusive set. */
  lemma {:induction false} EnableReverted(levels: seq<Level>, states: seq<Desired>, exclusive: Cpus, n: nat)
    requires |states| == |levels| && Chain(states, exclusive) && n <= 2 * |levels| && Placed(Reversed(states), |levels|)
    ensures var after := Run(Run(levels, Reversed(states), false, n), Reversed(states), true, 2 * |levels|);
            ExclusiveIs(after, levels, exclusive, true) &&
            ((forall k :: 0 <= k < |levels| ==> after[k].exclusive == levels[k].exclusive) <==>
             (forall k :: 0 <= k < |levels| ==> exclusive <= levels[k].exclusive))
  {
    RunsExclusive(levels, states, exclusive, true, false, n);
    var middle := Run(levels, Reversed(states), false, n);
    RunsExclusive(middle, states, exclusive, true, true, 2 * |levels|);
    var after := Run(middle, Reversed(states), true, 2 * |levels|);
    forall k | 0 <= k < |levels|
      ensures after[k].exclusive == levels[k].exclusive + exclusive
      ensures after[k].exclusive == levels[k].exclusive <==> exclusive <= levels[k].exclusive
    {
    }
  }

  /** The revert of a re-enable runs from the bottom up, because the slice was reversed in place:
      on the way it can give a child an exclusive CPU its parent has lost. */
  lemma EnableRevertLeavesNesting(c: nat)
    ensures var e := {c};
            var levels := [Level(e, e), Level(e, e)];
            var states := [Desired(0, e, e), Desired(1, e, e)];
            Chain(states, e) && Nested(levels) && Placed(Reversed(states), 2) &&
            (var middle := Run(levels, Reversed(states), false, 3);
             Nested(middle) && !Nested(Run(middle, Reversed(states), true, 2)))
  {
    var e := {c};
    var levels := [Level(e, e), Level(e, e)];
    var states := [Desired(0, e, e), Desired(1, e, e)];
    RunIsLevelsAfter(levels, states, true, false, 3);
    var middle := Run(levels, Reversed(states), false, 3);
    assert e - e == {} && {} + e == e;
    assert Done(2, true, 1, 3) == 2 && Done(2, true, 0, 3) == 1;
    assert middle[1] == Level(e, {}) && middle[0] == Level(e, {});
    RunIsLevelsAfter(middle, states, true, true, 2);
    var after := Run(middle, Reversed(states), true, 2);
    assert after[1].exclusive == e && after[0].exclusive == {};
    assert !Within(after[0], after[1]);
  }

  /** Every cgroup above the lowest already has what its child is to be given. */
  ghost predicate RoomAbove(levels: seq<Level>, states: seq<Desired>, exclusive: Cpus)
    requires |states| == |levels|
  {
    forall k :: 0 < k < |levels| ==> RoomFor(levels, states, exclusive, k)
  }

  ghost predicate RoomFor(levels: seq<Level>, states: seq<Desired>, exclusive: Cpus, k: nat)
    requires |states| == |levels| && 0 < k < |levels|
  {
    states[k].cpus <= levels[k - 1].cpus && exclusive <= levels[k - 1].exclusive
  }

  lemma RevertedPair(p: Level, c: Level, dp: Desired, dc: Desired, doneP: nat, doneC: nat)
    requires Within(p, c) && dc.cpus <= dp.cpus && dc.exclusiveCPUs == dp.exclusiveCPUs
    requires doneP <= 2 && doneC <= 2 && (doneP == 0 || doneC == 2)
    requires dc.cpus <= p.cpus && dc.exclusiveCPUs <= p.exclusive
    ensures Within(LevelAfter(p, dp, true, doneP), LevelAfter(c, dc, true, doneC))
  {
  }

  lemma {:induction false} RevertKeepsNestingIf(middle: seq<Level>, states: seq<Desired>, exclusive: Cpus, n: nat)
    requires |states| == |middle| && Chain(states, exclusive) && Nested(middle) && RoomAbove(middle, states, exclusive)
    requires n <= 2 * |middle| && Placed(Reversed(states), |middle|)
    ensures Nested(Run(middle, Reversed(states), true, n))
  {
    RunIsLevelsAfter(middle, states, true, true, n);
    var after := LevelsAfter(middle, states, true, true, n);
    forall k | 0 <= k < |middle|
      ensures after[k].exclusive <= after[k].cpus
    {
      AddedOwn(middle[k], states[k], Done(|middle|, true, k, n));
    }
    forall k | 0 < k < |middle|
      ensures Within(after[k - 1], after[k])
    {
      assert RoomFor(middle, states, exclusive, k);
      RevertedPair(middle[k - 1], middle[k], states[k - 1], states[k], Done(|middle|, true, k - 1, n), Done(|middle|, true, k, n));
    }
  }

  lemma {:induction false} RevertNeedsRoom(middle: seq<Level>, states: seq<Desired>, exclusive: Cpus, k: nat)
    requires |states| == |middle| && Chain(states, exclusive) && Placed(Reversed(states), |middle|) && 0 < k < |middle|
    requires Nested(Run(middle, Reversed(states), true, 2 * (|middle| - k)))
    ensures RoomFor(middle, states, exclusive, k)
  {
    var n := 2 * (|middle| - k);
    RunIsLevelsAfter(middle, states, true, true, n);
    var after := LevelsAfter(middle, states, true, true, n);
    assert Done(|middle|, true, k - 1, n) == 0 && Done(|middle|, true, k, n) == 2;
    assert Within(after[k - 1], after[k]);
    assert after[k - 1] == middle[k - 1];
    assert states[k].cpus <= after[k].cpus && exclusive <= after[k].exclusive;
  }

  /** Adding back from the bottom up keeps the kernel's rules after every single write exactly
      when they hold at first and every cgroup above the lowest has what its child is given. */
  lemma {:induction false} RevertKeepsNesting(middle: seq<Level>, states: seq<Desired>, exclusive: Cpus)
    requires |states| == |middle| && Chain(states, exclusive) && Placed(Reversed(states), |middle|)
    ensures NestedThroughout(middle, Reversed(states), true) <==> Nested(middle) && RoomAbove(middle, states, exclusive)
  {
    if Nested(middle) && RoomAbove(middle, states, exclusive) {
      forall n: nat | n <= 2 * |middle|
        ensures Nested(Run(middle, Reversed(states), true, n))
      {
        RevertKeepsNestingIf(middle, states, exclusive, n);
      }
    }
    if NestedThroughout(middle, Reversed(states), true) {
      assert Nested(Run(middle, Reversed(states), true, 0));
      forall k | 0 < k < |middle|
        ensures RoomFor(middle, states, exclusive, k)
      {
        RevertNeedsRoom(middle, states, exclusive, k);
      }
    }
  }

  lemma RemovedShrinks(l: Level, d: Desired, done: nat)
    requires done <= 2
    ensures var r := LevelAfter(l, d, false, done); r.exclusive <= l.exclusive && r.cpus <= l.cpus
  {
  }

  lemma {:induction false} LowestRemovedNests(levels: seq<Level>, states: seq<Desired>, n: nat)
    requires |states| == |levels| && TopDown(states) && Nested(levels) && n <= 2 && |levels| >= 2
    requires Placed(Reversed(states), |levels|)
    ensures var middle := Run(levels, Reversed(states), false, n);
            Nested(middle) && forall k :: 0 <= k < |levels| - 1 ==> middle[k] == levels[k]
  {
    RunIsLevelsAfter(levels, states, true, false, n);
    var after := LevelsAfter(levels, states, true, false, n);
    forall k | 0 <= k < |levels|
      ensures after[k].exclusive <= after[k].cpus && (k < |levels| - 1 ==> after[k] == levels[k])
      ensures after[k].exclusive <= levels[k].exclusive && after[k].cpus <= levels[k].cpus
    {
      RemovedOwn(levels[k], states[k], Done(|levels|, true, k, n));
      RemovedShrinks(levels[k], states[k], Done(|levels|, true, k, n));
    }
    forall k | 0 < k < |levels|
      ensures Within(after[k - 1], after[k])
    {
      assert Within(levels[k - 1], levels[k]) && after[k - 1] == levels[k - 1];
    }
  }

  /** A re-enable that stops after n writes is reverted without ever breaking the kernel's rules
      exactly when it stopped within the lowest cgroup and the cgroups above it had room. */
  lemma {:induction false} EnableRevertKeepsNesting(levels: seq<Level>, states: seq<Desired>, exclusive: Cpus, n: nat)
    requires |states| == |levels| && Chain(states, exclusive) && Nested(levels) && Placed(Reversed(states), |levels|)
    requires |levels| >= 2 && exclusive != {} && n <= 2 * |levels|
    ensures var middle := Run(levels, Reversed(states), false, n);
            NestedThroughout(middle, Reversed(states), true) <==> n <= 2 && RoomAbove(levels, states, exclusive)
  {
    var middle := Run(levels, Reversed(states), false, n);
    RevertKeepsNesting(middle, states, exclusive);
    if n <= 2 {
      LowestRemovedNests(levels, states, n);
      SameRoom(levels, middle, states, exclusive);
    } else {
      RoomLost(levels, states, exclusive, n);
    }
  }

  lemma SameRoom(levels: seq<Level>, middle: seq<Level>, states: seq<Desired>, exclusive: Cpus)
    requires |states| == |levels| == |middle| && forall k :: 0 <= k < |levels| - 1 ==> middle[k] == levels[k]
    ensures RoomAbove(middle, states, exclusive) <==> RoomAbove(levels, states, exclusive)
  {
    forall k | 0 < k < |levels|
      ensures RoomFor(middle, states, exclusive, k) <==> RoomFor(levels, states, exclusive, k)
    {
    }
  }

  lemma {:induction false} RoomLost(levels: seq<Level>, states: seq<Desired>, exclusive: Cpus, n: nat)
    requires |states| == |levels| && Chain(states, exclusive) && Placed(Reversed(states), |levels|)
    requires |levels| >= 2 && exclusive != {} && 2 < n <= 2 * |levels|
    ensures !RoomAbove(Run(levels, Reversed(states), false, n), states, exclusive)
  {
    var middle := Run(levels, Reversed(states), false, n);
    var d := |levels|;
    RunAt(levels, states, true, false, n, d - 2);
    assert Done(d, true, d - 2, n) >= 1;
    var x :| x in exclusive;
    assert x !in middle[d - 2].exclusive;
    assert !RoomFor(middle, states, exclusive, d - 1);
  }
}
