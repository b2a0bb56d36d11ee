/** CPU load balancing on cgroup v2 (internal/runtimehandlerhooks/high_performance_hooks_linux.go):
    the files cpuset.cpus and cpuset.cpus.exclusive of every cgroup from the root of the hierarchy
    down to the container, level 0 being the topmost. */
module Cpuset {
  import opened Sequences

  type Cpus = set<nat>

  /** The two files of one cgroup. */
  datatype Level = Level(cpus: Cpus, exclusive: Cpus)

  datatype File = CpusetCpus | CpusetCpusExclusive

  /** desiredManagerCPUSetState: the manager is named by its level. */
  datatype Desired = Desired(manager: nat, exclusiveCPUs: Cpus, cpus: Cpus)

  function Target(current: Cpus, cpus: Cpus, add: bool): Cpus {
    if add then current + cpus else current - cpus
  }

  /** One update of one file. The manager's Set writes nothing when the CPU list is the empty string. */
  function Written(level: Level, file: File, cpus: Cpus, add: bool): Level {
    match file
    case CpusetCpusExclusive => level.(exclusive := Target(level.exclusive, cpus, add))
    case CpusetCpus =>
      var target := Target(level.cpus, cpus, add);
      if target == {} then level else level.(cpus := target)
  }

  /** An update the loop over the managers comes to; a skipped one leaves the files alone and cannot fail. */
  datatype Step = Step(level: nat, file: File, cpus: Cpus, add: bool, skipped: bool)

  function FirstOf(d: Desired, add: bool): Step {
    if add then Step(d.manager, CpusetCpus, d.cpus, true, false)
    else Step(d.manager, CpusetCpusExclusive, d.exclusiveCPUs, false, false)
  }

  function SecondOf(d: Desired, add: bool): Step {
    if add then Step(d.manager, CpusetCpusExclusive, d.exclusiveCPUs, true, false)
    else Step(d.manager, CpusetCpus, d.cpus, false, d.exclusiveCPUs != d.cpus)
  }

  function StepAt(states: seq<Desired>, add: bool, k: nat): Step
    requires k < 2 * |states|
  {
    if k % 2 == 0 then FirstOf(states[k / 2], add) else SecondOf(states[k / 2], add)
  }

  function Do(level: Level, s: Step): Level {
    if s.skipped then level else Written(level, s.file, s.cpus, s.add)
  }

  ghost predicate Placed(states: seq<Desired>, depth: nat) {
    forall k :: 0 <= k < |states| ==> states[k].manager < depth
  }

  /** The files after the first n updates. */
  ghost function Run(levels: seq<Level>, states: seq<Desired>, add: bool, n: nat): (r: seq<Level>)
    requires Placed(states, |levels|) && n <= 2 * |states|
    ensures |r| == |levels|
  {
    if n == 0 then levels
    else
      var before, s := Run(levels, states, add, n - 1), StepAt(states, add, n - 1);
      before[s.level := Do(before[s.level], s)]
  }

  // ---- what a run has done to each level ----

  ghost predicate TopDown(states: seq<Desired>) {
    forall k :: 0 <= k < |states| ==> states[k].manager == k
  }

  ghost function InOrder(states: seq<Desired>, bottomUp: bool): (r: seq<Desired>)
    ensures |r| == |states|
  {
    if bottomUp then Reversed(states) else states
  }

  /** How many of a level's two updates are among the first n. */
  function Done(depth: nat, bottomUp: bool, k: nat, n: nat): (d: nat)
    requires k < depth
    ensures d <= 2
  {
    var start := if bottomUp then 2 * (depth - 1 - k) else 2 * k;
    if n <= start then 0 else if n == start + 1 then 1 else 2
  }

  function LevelAfter(level: Level, d: Desired, add: bool, done: nat): Level
    requires done <= 2
  {
    if done == 0 then level
    else if done == 1 then Do(level, FirstOf(d, add))
    else Do(Do(level, FirstOf(d, add)), SecondOf(d, add))
  }

  ghost function LevelsAfter(levels: seq<Level>, states: seq<Desired>, bottomUp: bool, add: bool, n: nat): (r: seq<Level>)
    requires |states| == |levels|
    ensures |r| == |levels|
  {
    seq(|levels|, k requires 0 <= k < |levels| => LevelAfter(levels[k], states[k], add, Done(|levels|, bottomUp, k, n)))
  }

  /** The update numbered 2 * j + m is the one that takes the j-th level in order from m done to m + 1. */
  lemma DoneGrows(depth: nat, bottomUp: bool, k: nat, j: nat, m: nat)
    requires k < depth && j < depth && m < 2
    ensures var at := if bottomUp then depth - 1 - j else j;
            if k == at then Done(depth, bottomUp, k, 2 * j + m) == m && Done(depth, bottomUp, k, 2 * j + m + 1) == m + 1
            else Done(depth, bottomUp, k, 2 * j + m) == Done(depth, bottomUp, k, 2 * j + m + 1)
  {
  }

  lemma StepOf(states: seq<Desired>, add: bool, j: nat, m: nat)
    requires j < |states| && m < 2
    ensures StepAt(states, add, 2 * j + m) == if m == 0 then FirstOf(states[j], add) else SecondOf(states[j], add)
  {
  }

  lemma LevelStep(level: Level, d: Desired, add: bool, done: nat)
    requires done < 2
    ensures LevelAfter(level, d, add, done + 1) ==
            Do(LevelAfter(level, d, add, done), if done == 0 then FirstOf(d, add) else SecondOf(d, add))
  {
  }

  lemma {:induction false} RunAt(levels: seq<Level>, states: seq<Desired>, bottomUp: bool, add: bool, n: nat, k: nat)
    requires |states| == |levels| && TopDown(states) && n <= 2 * |states| && k < |levels|
    requires Placed(InOrder(states, bottomUp), |levels|)
    ensures ReachedAt(levels, states, bottomUp, add, n, k)
    decreases n
  {
    if n > 0 {
      RunAt(levels, states, bottomUp, add, n - 1, k);
      NextAt(levels, states, bottomUp, add, (n - 1) / 2, (n - 1) % 2, k);
    }
  }

  /** After n updates the level is the one its own updates make of it. */
  ghost predicate ReachedAt(levels: seq<Level>, states: seq<Desired>, bottomUp: bool, add: bool, n: nat, k: nat)
    requires |states| == |levels| && n <= 2 * |states| && k < |levels| && Placed(InOrder(states, bottomUp), |levels|)
  {
    Run(levels, InOrder(states, bottomUp), add, n)[k] == LevelAfter(levels[k], states[k], add, Done(|levels|, bottomUp, k, n))
  }

  lemma {:induction false} NextAt(levels: seq<Level>, states: seq<Desired>, bottomUp: bool, add: bool, j: nat, m: nat, k: nat)
    requires |states| == |levels| && TopDown(states) && j < |states| && m < 2 && k < |levels|
    requires Placed(InOrder(states, bottomUp), |levels|) && ReachedAt(levels, states, bottomUp, add, 2 * j + m, k)
    ensures ReachedAt(levels, states, bottomUp, add, 2 * j + m + 1, k)
  {
    var order := InOrder(states, bottomUp);
    var at := if bottomUp then |states| - 1 - j else j;
    assert order[j] == states[at];
    StepOf(order, add, j, m);
    DoneGrows(|levels|, bottomUp, k, j, m);
    if k == at {
      LevelStep(levels[k], states[k], add, m);
    }
  }

  lemma {:induction false} RunIsLevelsAfter(levels: seq<Level>, states: seq<Desired>, bottomUp: bool, add: bool, n: nat)
    requires |states| == |levels| && TopDown(states) && n <= 2 * |states|
    requires Placed(InOrder(states, bottomUp), |levels|)
    ensures Run(levels, InOrder(states, bottomUp), add, n) == LevelsAfter(levels, states, bottomUp, add, n)
  {
    forall k | 0 <= k < |levels|
      ensures Run(levels, InOrder(states, bottomUp), add, n)[k] == LevelsAfter(levels, states, bottomUp, add, n)[k]
    {
      RunAt(levels, states, bottomUp, add, n, k);
    }
  }
}
