/** The operations on the cpuset files as the hooks perform them, with I/O errors as parameters. */
module CpusetFiles {
  import opened Options
  import opened Sequences
  import opened Cpuset
  import opened CpusetProof

  method ReverseStates(a: array<Desired>)
    modifies a
    ensures a[..] == Reversed(old(a[..]))
  {
    ghost var was := a[..];
    var i := 0;
    while i < a.Length / 2
      invariant 0 <= i <= a.Length / 2
      invariant forall k :: 0 <= k < i ==> a[k] == was[a.Length - 1 - k]
      invariant forall k :: i <= k < a.Length - i ==> a[k] == was[k]
      invariant forall k :: a.Length - i <= k < a.Length ==> a[k] == was[a.Length - 1 - k]
    {
      a[i], a[a.Length - 1 - i] := a[a.Length - 1 - i], a[i];
      i := i + 1;
    }
  }

  /** Whether the update at which I/O would fail is one that takes place. */
  predicate Fails(states: seq<Desired>, add: bool, failAt: nat) {
    failAt < 2 * |states| && !StepAt(states, add, failAt).skipped
  }

  /** How many updates take effect. */
  function Reached(states: seq<Desired>, add: bool, failAt: nat): nat {
    if Fails(states, add, failAt) then failAt else 2 * |states|
  }

  /** The two updates of the level at i, one by one. */
  lemma {:induction false} TwoUpdates(start: seq<Level>, states: seq<Desired>, add: bool, i: nat)
    requires i < |states| && Placed(states, |start|)
    ensures var first, second := FirstOf(states[i], add), SecondOf(states[i], add);
            && StepAt(states, add, 2 * i) == first && StepAt(states, add, 2 * i + 1) == second
            && Run(start, states, add, 2 * i + 1) == After(Run(start, states, add, 2 * i), first)
            && Run(start, states, add, 2 * i + 2) == After(Run(start, states, add, 2 * i + 1), second)
  {
    StepOf(states, add, i, 0);
    StepOf(states, add, i, 1);
  }

  function After(levels: seq<Level>, s: Step): seq<Level>
    requires s.level < |levels|
  {
    levels[s.level := Do(levels[s.level], s)]
  }

  // ---- what the files come to hold ----

  /** With load balancing disabled: the pod's cgroups have all online CPUs added, the container's the
      exclusive and the shared ones, the lowest just the exclusive ones; and every cgroup has the
      exclusive CPUs in its exclusive set. Nothing else is added and nothing taken away. */
  ghost predicate Disabled(before: seq<Level>, after: seq<Level>, depth: nat, exclusive: Cpus, all: Cpus, shared: Option<Cpus>) {
    && |after| == |before|
    && (forall k :: 0 <= k < |before| ==> after[k].exclusive == before[k].exclusive + exclusive)
    && (forall k :: 0 <= k < |before| && k < depth ==> after[k].cpus == before[k].cpus + all)
    && (forall k :: depth <= k < |before| - 1 ==>
         after[k].cpus == before[k].cpus + exclusive + if shared.Some? then shared.value else {})
    && (depth < |before| ==> after[|before| - 1].cpus == before[|before| - 1].cpus + exclusive)
  }

  /** What removing leaves of cpuset.cpus: a list that would be empty is not written. */
  function Less(cpus: Cpus, exclusive: Cpus): Cpus {
    if cpus <= exclusive then cpus else cpus - exclusive
  }

  /** With load balancing enabled again: no exclusive set has the CPUs any more. The lowest cgroup loses
      them altogether, and so does one that has no CPUs but them to share; the others keep theirs. */
  ghost predicate Reenabled(before: seq<Level>, after: seq<Level>, depth: nat, exclusive: Cpus, all: Cpus, shared: Option<Cpus>) {
    && |after| == |before|
    && (forall k :: 0 <= k < |before| ==> after[k].exclusive == before[k].exclusive - exclusive)
    && (forall k :: 0 <= k < |before| && k < depth ==>
         after[k].cpus == if all == exclusive then Less(before[k].cpus, exclusive) else before[k].cpus)
    && (forall k :: depth <= k < |before| - 1 ==>
         after[k].cpus == if shared.None? || shared.value <= exclusive then Less(before[k].cpus, exclusive) else before[k].cpus)
    && (depth < |before| ==> after[|before| - 1].cpus == Less(before[|before| - 1].cpus, exclusive))
  }

  lemma AddedLevel(l: Level, d: Desired)
    ensures LevelAfter(l, d, true, 2) == Level(l.cpus + d.cpus, l.exclusive + d.exclusiveCPUs)
  {
    assert l.cpus + d.cpus == {} ==> l.cpus == {};
  }

  lemma RemovedLevel(l: Level, d: Desired)
    ensures LevelAfter(l, d, false, 2) ==
            Level(if d.exclusiveCPUs == d.cpus then Less(l.cpus, d.cpus) else l.cpus, l.exclusive - d.exclusiveCPUs)
  {
    assert l.cpus <= d.cpus <==> l.cpus - d.cpus == {} by {
      if l.cpus - d.cpus == {} {
        assert forall x :: x in l.cpus ==> x !in l.cpus - d.cpus;
      }
    }
  }

  lemma {:induction false} WholeRun(levels: seq<Level>, states: seq<Desired>, bottomUp: bool, add: bool, k: nat)
    requires |states| == |levels| && TopDown(states) && Placed(InOrder(states, bottomUp), |levels|) && k < |levels|
    ensures Run(levels, InOrder(states, bottomUp), add, 2 * |levels|)[k] == LevelAfter(levels[k], states[k], add, 2)
  {
    RunIsLevelsAfter(levels, states, bottomUp, add, 2 * |levels|);
  }

  /** What the wanted states make of the files on a disable. */
  lemma {:induction false} WantedDisables(before: seq<Level>, after: seq<Level>, depth: nat, containers: nat, exclusive: Cpus, all: Cpus, shared: Option<Cpus>)
    requires |before| == depth + containers && (shared.Some? ==> containers > 0)
    requires var states := Wanted(depth, containers, exclusive, all, shared);
             Placed(states, |before|) && after == Run(before, states, true, 2 * |before|)
    ensures Disabled(before, after, depth, exclusive, all, shared)
  {
    var states := Wanted(depth, containers, exclusive, all, shared);
    forall k | 0 <= k < |before|
      ensures after[k] == Level(before[k].cpus + states[k].cpus, before[k].exclusive + exclusive)
    {
      WholeRun(before, states, false, true, k);
      AddedLevel(before[k], states[k]);
    }
    assert shared.Some? ==> forall c: Cpus :: c + (exclusive + shared.value) == c + exclusive + shared.value;
  }

  /** And on a re-enable. */
  lemma {:induction false} WantedReenables(before: seq<Level>, after: seq<Level>, depth: nat, containers: nat, exclusive: Cpus, all: Cpus, shared: Option<Cpus>)
    requires |before| == depth + containers && (shared.Some? ==> containers > 0)
    requires var states := Wanted(depth, containers, exclusive, all, shared);
             Placed(Reversed(states), |before|) && after == Run(before, Reversed(states), false, 2 * |before|)
    ensures Reenabled(before, after, depth, exclusive, all, shared)
  {
    var states := Wanted(depth, containers, exclusive, all, shared);
    forall k | 0 <= k < |before|
      ensures after[k] == Level(if exclusive == states[k].cpus then Less(before[k].cpus, exclusive) else before[k].cpus, before[k].exclusive - exclusive)
    {
      WholeRun(before, states, true, false, k);
      RemovedLevel(before[k], states[k]);
    }
    assert shared.Some? ==> (exclusive == exclusive + shared.value <==> shared.value <= exclusive);
  }

  /** The files after a call that succeeded. */
  ghost predicate Served(before: seq<Level>, after: seq<Level>, depth: nat, exclusive: Cpus, all: Cpus, shared: Option<Cpus>, enable: bool) {
    if enable then Reenabled(before, after, depth, exclusive, all, shared) else Disabled(before, after, depth, exclusive, all, shared)
  }

  lemma {:induction false} WantedServes(before: seq<Level>, after: seq<Level>, depth: nat, containers: nat, exclusive: Cpus, all: Cpus, shared: Option<Cpus>, enable: bool)
    requires |before| == depth + containers && (shared.Some? ==> containers > 0)
    requires var order := InOrder(Wanted(depth, containers, exclusive, all, shared), enable);
             Placed(order, |before|) && after == Run(before, order, !enable, 2 * |before|)
    ensures Served(before, after, depth, exclusive, all, shared, enable)
  {
    if enable {
      WantedReenables(before, after, depth, containers, exclusive, all, shared);
    } else {
      WantedDisables(before, after, depth, containers, exclusive, all, shared);
    }
  }

  class Files {
    var levels: seq<Level>
    var isolated: set<nat>   // the levels whose cpuset.cpus.partition says isolated

    constructor (initial: seq<Level>)
      ensures levels == initial && isolated == {}
    {
      levels, isolated := initial, {};
    }

    method AddOrRemoveCpusetFromManager(mgr: nat, cpus: Cpus, add: bool, file: File, fails: bool) returns (ok: bool)
      requires mgr < |levels|
      modifies this`levels
      ensures ok == !fails
      ensures levels == if fails then old(levels) else old(levels)[mgr := Written(old(levels)[mgr], file, cpus, add)]
    {
      if fails {
        return false;
      }
      var current := if file == CpusetCpus then levels[mgr].cpus else levels[mgr].exclusive;
      var target := if add then current + cpus else current - cpus;
      if target == current {
        return true;
      }
      if file == CpusetCpusExclusive {
        levels := levels[mgr := levels[mgr].(exclusive := target)];
      } else if target != {} {
        levels := levels[mgr := levels[mgr].(cpus := target)];
      }
      return true;
    }

    /** The body of the loop over the managers: from the update numbered 2 * i to the next level. */
    method UpdateLevel(states: array<Desired>, add: bool, i: nat, failAt: nat, ghost start: seq<Level>) returns (ok: bool)
      requires i < states.Length && Placed(states[..], |levels|) && |start| == |levels|
      requires levels == Run(start, states[..], add, 2 * i)
      modifies this`levels
      ensures |levels| == |start|
      ensures ok <==> !(Fails(states[..], add, failAt) && 2 * i <= failAt < 2 * i + 2)
      ensures levels == Run(start, states[..], add, if ok then 2 * i + 2 else failAt)
    {
      var state := states[i];
      TwoUpdates(start, states[..], add, i);
      if add {
        ok := AddOrRemoveCpusetFromManager(state.manager, state.cpus, add, CpusetCpus, failAt == 2 * i);
        if !ok {
          return;
        }
      }
      ok := AddOrRemoveCpusetFromManager(state.manager, state.exclusiveCPUs, add, CpusetCpusExclusive,
        failAt == if add then 2 * i + 1 else 2 * i);
      if !ok {
        return;
      }
      if !add && state.exclusiveCPUs == state.cpus {
        ok := AddOrRemoveCpusetFromManager(state.manager, state.cpus, add, CpusetCpus, failAt == 2 * i + 1);
      }
    }

    method AddOrRemoveCpusetFromManagers(states: array<Desired>, add: bool, failAt: nat) returns (ok: bool)
      requires Placed(states[..], |levels|)
      modifies this`levels, states
      ensures states[..] == if add then old(states[..]) else Reversed(old(states[..]))
      ensures Placed(states[..], |old(levels)|) && |levels| == |old(levels)|
      ensures ok <==> !Fails(states[..], add, failAt)
      ensures levels == Run(old(levels), states[..], add, Reached(states[..], add, failAt))
    {
      if !add {
        ReverseStates(states);
      }
      ok := UpdateLevels(states, add, failAt);
    }

    /** The loop over the managers. */
    method UpdateLevels(states: array<Desired>, add: bool, failAt: nat) returns (ok: bool)
      requires Placed(states[..], |levels|)
      modifies this`levels
      ensures |levels| == |old(levels)|
      ensures ok <==> !Fails(states[..], add, failAt)
      ensures levels == Run(old(levels), states[..], add, Reached(states[..], add, failAt))
    {
      ghost var start := levels;
      var i := 0;
      while i < states.Length
        invariant 0 <= i <= states.Length && |levels| == |start|
        invariant Fails(states[..], add, failAt) ==> 2 * i <= failAt
        invariant levels == Run(start, states[..], add, 2 * i)
      {
        ok := UpdateLevel(states, add, i, failAt, start);
        if !ok {
          return;
        }
        i := i + 1;
      }
      ok := true;
    }

    /** The cgroups are those of the pod's path followed by the container's; the error of each
        file access and of the final write to cpuset.cpus.partition is a parameter. */
    method SetCPULoadBalancingV2(directories: seq<string>, containers: nat, exclusive: Cpus, all: Cpus, shared: Option<Cpus>,
                                 enable: bool, failAt: nat, partitionFails: bool, revertFailAt: nat)
      returns (ok: bool)
      requires |levels| == Depth(directories) + containers
      modifies this
      ensures |levels| == |old(levels)|
      ensures ok ==> Served(old(levels), levels, Depth(directories), exclusive, all, shared, enable)
      ensures isolated == if ok && !enable then old(isolated) + {|levels| - 1} else old(isolated)
      ensures |levels| == 0 || (shared.Some? && containers == 0) ==> !ok && levels == old(levels)
      ensures !(|levels| == 0 || (shared.Some? && containers == 0)) ==>
                var states := Wanted(Depth(directories), containers, exclusive, all, shared);
                var order := InOrder(states, enable);
                Placed(order, |old(levels)|) && Placed(Reversed(states), |old(levels)|) &&
                var middle := Run(old(levels), order, !enable, Reached(order, !enable, failAt));
                (ok <==> !Fails(order, !enable, failAt) && (enable || !partitionFails)) &&
                levels == if ok then middle
                          else Run(middle, Reversed(states), enable, Reached(Reversed(states), enable, revertFailAt))
    {
      var listed := ListManagers(directories, containers, exclusive, all, shared);
      if listed.None? || listed.value == [] {
        return false;
      }
      ghost var states := listed.value;
      var managers := new Desired[|listed.value|](i requires 0 <= i < |listed.value| => listed.value[i]);
      assert managers[..] == states;
      assert Placed(InOrder(states, enable), |levels|) && Placed(Reversed(states), |levels|);
      ok := AddOrRemoveCpusetFromManagers(managers, !enable, failAt);
      assert managers[..] == InOrder(states, enable);
      if ok {
        WantedServes(old(levels), levels, Depth(directories), containers, exclusive, all, shared, enable);
      }
      if ok && !enable {
        ok := !partitionFails;
        if ok {
          isolated := isolated + {managers[managers.Length - 1].manager};
        }
      }
      if !ok {
        var reverted := AddOrRemoveCpusetFromManagers(managers, enable, revertFailAt);
      }
    }
  }

  /** The cgroups named by a path split at its slashes. */
  function Depth(directories: seq<string>): nat {
    if directories == [] then 0
    else Depth(directories[..|directories| - 1]) + if directories[|directories| - 1] == "" then 0 else 1
  }

  lemma {:induction false} DepthCounts(directories: seq<string>)
    ensures Depth(directories) == |set i | 0 <= i < |directories| && directories[i] != ""|
  {
    var all := set i | 0 <= i < |directories| && directories[i] != "";
    if directories == [] {
      assert all == {};
    } else {
      var rest, last := directories[..|directories| - 1], |directories| - 1;
      DepthCounts(rest);
      var before := set i | 0 <= i < |rest| && rest[i] != "";
      assert all == if directories[last] == "" then before else before + {last};
    }
  }

  /** What each cgroup should hold, from the top down. */
  function Wanted(depth: nat, containers: nat, exclusive: Cpus, all: Cpus, shared: Option<Cpus>): (r: seq<Desired>)
    ensures |r| == depth + containers && TopDown(r)
  {
    seq(depth + containers, k requires 0 <= k < depth + containers =>
      Desired(k, exclusive,
        if k < depth then all
        else if shared.Some? && k < depth + containers - 1 then exclusive + shared.value
        else exclusive))
  }

  /** With online CPUs only, what is wanted narrows on the way down, which is what the proofs
      about disabling and re-enabling ask for. */
  lemma WantedIsChain(depth: nat, containers: nat, exclusive: Cpus, all: Cpus, shared: Option<Cpus>)
    requires exclusive <= all && (shared.Some? ==> shared.value <= all)
    ensures Chain(Wanted(depth, containers, exclusive, all, shared), exclusive)
  {
    var r := Wanted(depth, containers, exclusive, all, shared);
    forall k | 0 < k < |r|
      ensures r[k].cpus <= r[k - 1].cpus
    {
    }
  }

  method ListManagers(directories: seq<string>, containers: nat, exclusive: Cpus, all: Cpus, shared: Option<Cpus>)
    returns (r: Option<seq<Desired>>)
    ensures r == if shared.Some? && containers == 0 then None
                 else Some(Wanted(Depth(directories), containers, exclusive, all, shared))
  {
    var managers: seq<Desired> := [];
    for i := 0 to |directories|
      invariant managers == Wanted(Depth(directories[..i]), 0, exclusive, all, None)
    {
      assert directories[..i + 1][..i] == directories[..i];
      if directories[i] != "" {
        managers := managers + [Desired(|managers|, exclusive, all)];
      }
    }
    assert directories[..|directories|] == directories;
    var depth := |managers|;
    var ctrCgroupCPUs := exclusive;
    if shared.Some? {
      if containers == 0 {
        return None;
      }
      ctrCgroupCPUs := exclusive + shared.value;
    }
    for j := 0 to containers
      invariant |managers| == depth + j
      invariant forall k :: 0 <= k < depth + j ==> managers[k] == Desired(k, exclusive, if k < depth then all else ctrCgroupCPUs)
    {
      managers := managers + [Desired(depth + j, exclusive, ctrCgroupCPUs)];
    }
    if shared.Some? {
      managers := managers[depth + containers - 1 := Desired(depth + containers - 1, exclusive, exclusive)];
    }
    assert managers == Wanted(depth, containers, exclusive, all, shared);
    return Some(managers);
  }

  /** A container's cgroup that would be emptied, inside one that keeps another CPU, below a shared
      pod cgroup: re-enabling leaves it with a CPU its parent has lost. */
  lemma EnableTearsNesting()
    ensures var states := Wanted(1, 2, {1}, {1, 2}, None);
            var levels := [Level({1, 2}, {1}), Level({1, 2}, {1}), Level({1}, {1})];
            Chain(states, {1}) && Nested(levels) && Placed(Reversed(states), 3) && !NestedThroughout(levels, Reversed(states), false)
  {
    var states := Wanted(1, 2, {1}, {1, 2}, None);
    var levels := [Level({1, 2}, {1}), Level({1, 2}, {1}), Level({1}, {1})];
    WantedIsChain(1, 2, {1}, {1, 2}, None);
    assert 1 in levels[2].cpus && 2 in levels[1].cpus;
    assert !EmptiedTogether(levels, states, {1}) by {
      assert Edited(states[2 - 1]) && {} < levels[2].cpus <= {1} && !(levels[2 - 1].cpus <= {1});
    }
    EnableKeepsNesting(levels, states, {1});
  }
}
