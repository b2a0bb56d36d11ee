/** Every interleaving of stoppers, exec sessions and the stop loop of one container
    (internal/oci/runtime_oci.go, StopContainer and StopLoopForContainer). */
module StopRuns {
  import opened Sequences
  import opened Stop

  type Stopper = nat

  /** Where a call of StopContainer is: past SetAsStopping, waiting for a watcher, or back, having
      waited or having found the container spoofed or its process gone. */
  datatype Call = Asked | Waiter(watcher: Watcher) | Returned(cancelled: bool) | Skipped

  /** Where the stop loop is. In a round of KillExecPIDs the first map is the container's own, which
      DeleteExecPID can still shrink; a later one is the local list of those not yet reached. */
  datatype Loop =
    | NotStarted
    | Begun
    | Waiting
    | Killing
    | Leaving
    | FirstRound(visited: set<Pid>, unkilled: map<Pid, bool>)
    | LaterRound(toKill: map<Pid, bool>, visited: set<Pid>, unkilled: map<Pid, bool>)
    | Finishing
    | Finished

  datatype State = State(
    shared: Shared,
    loop: Loop,
    calls: map<Stopper, Call>,
    loopsStarted: nat,
    created: seq<Watcher>,              // every watcher ever registered
    closed: seq<Watcher>,               // every watcher closed, in order
    added: set<(Pid, bool)>,            // every exec PID ever admitted
    sent: set<(Pid, Signal)>,           // every signal attempted
    delivered: set<(Pid, Signal)>,      // those that reached a process or found it gone
    now: int,
    yearAhead: int,                     // the deadline the loop starts with
    target: int,
    received: seq<(Timeout, int)>,      // timeouts taken from the channel, and when
    killedAt: int)                      // when SIGKILL became due

  datatype Action =
    | Tick(passed: nat)
    | CallStop(stopper: Stopper, alive: bool)
    | Wait(stopper: Stopper, seconds: int)
    | Return(stopper: Stopper, cancelled: bool)
    | AddExec(pid: Pid, shouldKill: bool)
    | DeleteExec(pid: Pid)
    | Start(living: bool, year: nat)
    | Receive
    | TimeOut
    | Leave                             // the process is gone, or the loop is interrupted
    | SnapshotExecs
    | Visit(pid: Pid, refused: bool)
    | EndRound
    | Finish

  const Initial: State := State(NewShared, NotStarted, map[], 0, [], [], {}, {}, {}, 0, 0, 0, [], 0)

  /** The map the loop is going through. */
  function Pids(s: State): map<Pid, bool> {
    if s.loop.LaterRound? then s.loop.toKill else s.shared.execPIDs
  }

  predicate InRound(s: State) {
    s.loop.FirstRound? || s.loop.LaterRound?
  }

  /** When an action can happen. A blocked wait happens once the channel has room. */
  predicate Enabled(s: State, a: Action) {
    match a
    case Tick(_) => true
    case CallStop(k, _) => k !in s.calls
    case Wait(k, _) => k in s.calls && s.calls[k] == Asked && WaitsAs(s.shared) == Waits
    case Return(k, cancelled) =>
      k in s.calls && s.calls[k].Waiter? && (cancelled || s.calls[k].watcher in s.closed)
    case AddExec(_, _) => true
    case DeleteExec(_) => true
    case Start(_, _) => s.loop == Begun
    case Receive => s.loop == Waiting && s.shared.timeouts != []
    case TimeOut => s.loop == Waiting && s.now >= s.target
    case Leave => s.loop == Waiting || s.loop == Killing
    case SnapshotExecs => s.loop == Leaving
    case Visit(pid, _) => InRound(s) && pid in Pids(s) && pid !in s.loop.visited
    case EndRound => InRound(s) && forall pid :: pid in Pids(s) ==> pid in s.loop.visited
    case Finish => s.loop == Finishing
  }

  function Visited(s: State, pid: Pid, refused: bool): State
    requires Enabled(s, Visit(pid, refused))
  {
    var shouldKill := Pids(s)[pid];
    if pid == 0 then s.(loop := s.loop.(visited := s.loop.visited + {pid}))
    else
      var sent := s.(sent := s.sent + {(pid, SignalFor(shouldKill))});
      if refused then
        sent.(loop := s.loop.(visited := s.loop.visited + {pid}, unkilled := s.loop.unkilled[pid := shouldKill]))
      else
        sent.(loop := s.loop.(visited := s.loop.visited + {pid}), delivered := s.delivered + {(pid, SignalFor(shouldKill))})
  }

  function Next(s: State, a: Action): State
    requires Enabled(s, a)
  {
    match a
    case Tick(passed) => s.(now := s.now + passed)
    case CallStop(k, alive) =>
      if !alive then s.(calls := s.calls[k := Skipped])
      else s.(shared := SetStopping(s.shared), calls := s.calls[k := Asked],
         loop := if s.shared.stopping then s.loop else Begun,
         loopsStarted := if s.shared.stopping then s.loopsStarted else s.loopsStarted + 1)
    case Wait(k, seconds) =>
      var watcher := |s.created|;
      s.(shared := Registered(s.shared, Timeout(seconds, s.now), watcher), calls := s.calls[k := Waiter(watcher)],
         created := s.created + [watcher])
    case Return(k, cancelled) => s.(calls := s.calls[k := Returned(cancelled)])
    case AddExec(pid, kill) =>
      s.(shared := WithExec(s.shared, pid, kill), added := if s.shared.stopping then s.added else s.added + {(pid, kill)})
    case DeleteExec(pid) => s.(shared := WithoutExec(s.shared, pid))
    case Start(living, year) =>
      if living then s.(loop := Waiting, yearAhead := s.now + year, target := s.now + year) else s.(loop := Leaving)
    case Receive =>
      var t := s.shared.timeouts[0];
      var newTarget := s.now + t.seconds;
      s.(shared := s.shared.(timeouts := s.shared.timeouts[1..]), received := s.received + [(t, s.now)],
         target := if newTarget < s.target then newTarget else s.target)
    case TimeOut => s.(loop := Killing, killedAt := s.now)
    case Leave => s.(loop := Leaving)
    case SnapshotExecs =>
      s.(loop := if s.shared.execPIDs == map[] then Finishing else FirstRound({}, map[]))
    case Visit(pid, refused) => Visited(s, pid, refused)
    case EndRound =>
      s.(loop := if s.loop.unkilled == map[] then Finishing else LaterRound(s.loop.unkilled, {}, map[]))
    case Finish =>
      s.(shared := DoneStopping(s.shared), closed := s.closed + s.shared.watchers, loop := Finished)
  }

  ghost predicate IsRun(run: seq<State>, actions: seq<Action>) {
    |run| == |actions| + 1 && run[0] == Initial &&
    forall i :: 0 <= i < |actions| ==> Enabled(run[i], actions[i]) && run[i + 1] == Next(run[i], actions[i])
  }

  // ---- one loop ----

  ghost predicate LoopInv(s: State) {
    s.loopsStarted == (if s.shared.stopping then 1 else 0) && (s.loop == NotStarted <==> !s.shared.stopping) &&
    (s.shared.channelOpen <==> s.loop != Finished) && |s.shared.timeouts| <= TimeoutBuffer
  }

  lemma StepKeepsLoop(s: State, a: Action)
    requires LoopInv(s) && Enabled(s, a)
    ensures LoopInv(Next(s, a))
  {
  }

  // ---- watchers ----

  ghost predicate WatcherInv(s: State) {
    (s.loop == NotStarted ==> !s.shared.stopping) &&
    s.closed + s.shared.watchers == s.created && (s.loop != Finished ==> s.closed == []) &&
    (s.loop == Finished ==> s.shared.watchers == [] && !s.shared.channelOpen) &&
    (forall i :: 0 <= i < |s.created| ==> s.created[i] == i) &&
    (forall k :: k in s.calls ==>
      (s.calls[k].Waiter? ==> s.calls[k].watcher in s.created) && (s.calls[k] == Returned(false) ==> s.loop == Finished))
  }

  lemma StepKeepsWatchers(s: State, a: Action)
    requires WatcherInv(s) && Enabled(s, a) && LoopInv(s)
    ensures WatcherInv(Next(s, a))
  {
    match a
    case Wait(k, seconds) =>
      var t := Next(s, a);
      assert s.closed + (s.shared.watchers + [|s.created|]) == (s.closed + s.shared.watchers) + [|s.created|];
      assert t.created[|s.created|] == |s.created|;
    case Finish =>
      assert s.closed + s.shared.watchers + [] == s.created;
    case _ =>
  }

  // ---- exec PIDs ----

  ghost predicate Entries(m: map<Pid, bool>, added: set<(Pid, bool)>) {
    forall pid :: pid in m ==> (pid, m[pid]) in added
  }

  ghost predicate SignalledOnly(signals: set<(Pid, Signal)>, added: set<(Pid, bool)>) {
    forall x :: x in signals ==> x.0 != 0 && exists kill :: (x.0, kill) in added && x.1 == SignalFor(kill)
  }

  /** An exec PID still registered has been reached, or is noted as not reached, or is still to come. */
  ghost predicate Accounted(s: State, pid: Pid)
    requires pid in s.shared.execPIDs
  {
    var kill := s.shared.execPIDs[pid];
    pid == 0 || (pid, SignalFor(kill)) in s.delivered ||
    (InRound(s) && pid in s.loop.unkilled && s.loop.unkilled[pid] == kill) ||
    (InRound(s) && pid in Pids(s) && Pids(s)[pid] == kill && pid !in s.loop.visited)
  }

  predicate PastSnapshot(s: State) {
    InRound(s) || s.loop.Finishing? || s.loop.Finished?
  }

  /** The lists a round works from say the same about a PID as the container does. */
  ghost predicate Agree(m: map<Pid, bool>, live: map<Pid, bool>) {
    forall pid :: pid in m && pid in live ==> m[pid] == live[pid]
  }

  ghost predicate ExecInv(s: State) {
    (PastSnapshot(s) ==> s.shared.stopping) && Agree(Pids(s), s.shared.execPIDs) &&
    (InRound(s) ==> Agree(s.loop.unkilled, s.shared.execPIDs)) &&
    Entries(s.shared.execPIDs, s.added) && Entries(Pids(s), s.added) && (InRound(s) ==> Entries(s.loop.unkilled, s.added)) &&
    SignalledOnly(s.sent, s.added) && s.delivered <= s.sent &&
    (PastSnapshot(s) ==> forall pid :: pid in s.shared.execPIDs ==> Accounted(s, pid))
  }

  lemma VisitKeepsExecs(s: State, pid: Pid, refused: bool)
    requires ExecInv(s) && Enabled(s, Visit(pid, refused))
    ensures ExecInv(Next(s, Visit(pid, refused)))
  {
    var t := Next(s, Visit(pid, refused));
    var kill := Pids(s)[pid];
    assert (pid, kill) in s.added;
    forall p | p in t.shared.execPIDs
      ensures Accounted(t, p)
    {
      assert Accounted(s, p);
    }
  }

  lemma RestKeepsExecs(s: State, a: Action)
    requires ExecInv(s) && Enabled(s, a) && !a.Visit?
    requires LoopInv(s)
    ensures ExecInv(Next(s, a))
  {
    var t := Next(s, a);
    if PastSnapshot(t) {
      forall p | p in t.shared.execPIDs
        ensures Accounted(t, p)
      {
        assert PastSnapshot(s) ==> p in s.shared.execPIDs && Accounted(s, p);
      }
    }
  }

  // ---- the deadline ----

  /** The earliest of the first deadline and of receipt plus timeout over all timeouts received. */
  function Earliest(first: int, received: seq<(Timeout, int)>): int {
    if received == [] then first
    else
      var rest, last := Earliest(first, received[..|received| - 1]), received[|received| - 1];
      if last.1 + last.0.seconds < rest then last.1 + last.0.seconds else rest
  }

  ghost predicate DeadlineInv(s: State) {
    (s.loop in {NotStarted, Begun} ==> s.received == []) &&
    (s.loop in {Waiting, Killing} ==> s.target == Earliest(s.yearAhead, s.received)) &&
    (s.loop == Killing ==> s.killedAt >= s.target) &&
    SentBy(s.shared.timeouts, s.now) && ReceivedBy(s.received, s.now)
  }

  lemma {:induction false} EarliestAfter(first: int, received: seq<(Timeout, int)>, t: Timeout, at: int)
    ensures var rest := Earliest(first, received);
            Earliest(first, received + [(t, at)]) == if at + t.seconds < rest then at + t.seconds else rest
  {
    assert (received + [(t, at)])[..|received|] == received;
  }

  /** Whatever was received, the deadline is no later than the one it asked for. */
  lemma {:induction false} EarliestIsLeast(first: int, received: seq<(Timeout, int)>, k: nat)
    ensures Earliest(first, received) <= first
    ensures k < |received| ==> Earliest(first, received) <= received[k].1 + received[k].0.seconds
    ensures Earliest(first, received) == first || exists j :: 0 <= j < |received| && Earliest(first, received) == received[j].1 + received[j].0.seconds
    decreases |received|
  {
    if received != [] {
      EarliestIsLeast(first, received[..|received| - 1], k);
      var last := received[|received| - 1];
      assert k < |received| - 1 ==> received[..|received| - 1][k] == received[k];
      if Earliest(first, received) != last.1 + last.0.seconds && Earliest(first, received) != first {
        var j :| 0 <= j < |received| - 1 && Earliest(first, received[..|received| - 1]) == received[..|received| - 1][j].1 + received[..|received| - 1][j].0.seconds;
        assert received[j] == received[..|received| - 1][j];
      }
    }
  }

  ghost predicate SentBy(timeouts: seq<Timeout>, now: int) {
    forall k :: 0 <= k < |timeouts| ==> timeouts[k].sent <= now
  }

  ghost predicate ReceivedBy(received: seq<(Timeout, int)>, now: int) {
    forall k :: 0 <= k < |received| ==> received[k].0.sent <= received[k].1 <= now
  }

  lemma ReceiveKeepsDeadline(s: State)
    requires DeadlineInv(s) && Enabled(s, Receive)
    ensures DeadlineInv(Next(s, Receive))
  {
    EarliestAfter(s.yearAhead, s.received, s.shared.timeouts[0], s.now);
  }

  lemma RestKeepsDeadline(s: State, a: Action)
    requires DeadlineInv(s) && Enabled(s, a) && !a.Receive? && LoopInv(s)
    ensures DeadlineInv(Next(s, a))
  {
    if a.Wait? {
      var t := Next(s, a);
      forall k | 0 <= k < |t.shared.timeouts|
        ensures t.shared.timeouts[k].sent <= t.now
      {
        if k < |s.shared.timeouts| {
          assert t.shared.timeouts[k] == s.shared.timeouts[k];
        }
      }
    }
  }

  // ---- all runs ----

  ghost predicate Inv(s: State) {
    LoopInv(s) && WatcherInv(s) && ExecInv(s) && DeadlineInv(s)
  }

  lemma StepKeeps(s: State, a: Action)
    requires Inv(s) && Enabled(s, a)
    ensures Inv(Next(s, a))
  {
    StepKeepsLoop(s, a);
    StepKeepsWatchers(s, a);
    if a.Visit? {
      VisitKeepsExecs(s, a.pid, a.refused);
    } else {
      RestKeepsExecs(s, a);
    }
    if a.Receive? {
      ReceiveKeepsDeadline(s);
    } else {
      RestKeepsDeadline(s, a);
    }
  }

  lemma {:induction false} RunInvariant(run: seq<State>, actions: seq<Action>, i: nat)
    requires IsRun(run, actions) && i < |run|
    ensures Inv(run[i])
    decreases i
  {
    if i > 0 {
      RunInvariant(run, actions, i - 1);
      StepKeeps(run[i - 1], actions[i - 1]);
    }
  }

  /** However many stoppers there are, at most one stop loop is ever started. */
  lemma OneStopLoop(run: seq<State>, actions: seq<Action>, i: nat)
    requires IsRun(run, actions) && i < |run|
    ensures run[i].loopsStarted <= 1 && (run[i].loopsStarted == 1 <==> run[i].shared.stopping)
  {
    RunInvariant(run, actions, i);
  }

  lemma StepOnceStopping(s: State, a: Action)
    requires s.shared.stopping && Enabled(s, a)
    ensures var t := Next(s, a);
            t.shared.stopping && t.added == s.added && t.shared.execPIDs.Keys <= s.shared.execPIDs.Keys &&
            forall pid :: pid in t.shared.execPIDs ==> t.shared.execPIDs[pid] == s.shared.execPIDs[pid]
  {
  }

  /** Once the container is stopping, no exec PID is admitted: later ones were there before. */
  lemma {:induction false} NoExecOnceStopping(run: seq<State>, actions: seq<Action>, i: nat, j: nat)
    requires IsRun(run, actions) && i <= j < |run| && run[i].shared.stopping
    ensures run[j].shared.stopping && run[j].added == run[i].added
    ensures forall pid :: pid in run[j].shared.execPIDs ==>
              pid in run[i].shared.execPIDs && run[j].shared.execPIDs[pid] == run[i].shared.execPIDs[pid]
    decreases j
  {
    if i < j {
      NoExecOnceStopping(run, actions, i, j - 1);
      StepOnceStopping(run[j - 1], actions[j - 1]);
    }
  }

  /** When the loop has finished, every non-zero exec PID still registered has been sent the
      signal it asked for, successfully; and no signal ever goes to PID 0 or to a process that
      was not registered with that signal. */
  lemma ExecsSignalled(run: seq<State>, actions: seq<Action>, i: nat)
    requires IsRun(run, actions) && i < |run|
    ensures run[i].loop == Finished ==> forall pid :: pid in run[i].shared.execPIDs && pid != 0 ==>
              (pid, if run[i].shared.execPIDs[pid] then SIGKILL else SIGINT) in run[i].delivered
    ensures forall pid, signal :: (pid, signal) in run[i].sent ==>
              pid != 0 && (pid, signal == SIGKILL) in run[i].added
    ensures run[i].delivered <= run[i].sent
  {
    RunInvariant(run, actions, i);
    if run[i].loop == Finished {
      forall pid | pid in run[i].shared.execPIDs && pid != 0
        ensures (pid, if run[i].shared.execPIDs[pid] then SIGKILL else SIGINT) in run[i].delivered
      {
        assert Accounted(run[i], pid);
      }
    }
    forall pid, signal | (pid, signal) in run[i].sent
      ensures pid != 0 && (pid, signal == SIGKILL) in run[i].added
    {
      var x := (pid, signal);
      assert x.0 != 0 && exists kill :: (x.0, kill) in run[i].added && x.1 == SignalFor(kill);
    }
  }

  predicate HasExec(s: State, pid: Pid, kill: bool) {
    pid in s.shared.execPIDs && s.shared.execPIDs[pid] == kill
  }

  lemma ExecAdmitted(s: State, pid: Pid, kill: bool)
    requires !s.shared.stopping
    ensures HasExec(Next(s, AddExec(pid, kill)), pid, kill)
  {
  }

  lemma ExecKept(s: State, a: Action, t: State, pid: Pid, kill: bool)
    requires HasExec(s, pid, kill) && Enabled(s, a) && t == Next(s, a)
    requires !(a.AddExec? && a.pid == pid) && !(a.DeleteExec? && a.pid == pid)
    ensures HasExec(t, pid, kill)
  {
  }

  /** Nothing is done about the exec PID between the two steps. */
  ghost predicate LeftAlone(actions: seq<Action>, pid: Pid, i: nat, j: nat) {
    forall m :: i <= m < j && m < |actions| ==> !(actions[m].AddExec? && actions[m].pid == pid) && !(actions[m].DeleteExec? && actions[m].pid == pid)
  }

  /** An exec PID admitted before the stop stays registered with its signal until it is deregistered. */
  lemma {:induction false} ExecStaysRegistered(run: seq<State>, actions: seq<Action>, i: nat, j: nat, pid: Pid, kill: bool)
    requires IsRun(run, actions) && i < j <= |actions| && actions[i] == AddExec(pid, kill) && !run[i].shared.stopping
    requires LeftAlone(actions, pid, i + 1, j)
    ensures HasExec(run[j], pid, kill)
    decreases j
  {
    var k := j - 1;
    assert Enabled(run[k], actions[k]) && run[k + 1] == Next(run[k], actions[k]);
    if k == i {
      ExecAdmitted(run[i], pid, kill);
    } else {
      ExecStaysRegistered(run, actions, i, k, pid, kill);
      ExecKept(run[k], actions[k], run[j], pid, kill);
    }
  }

  /** So when the loop has finished such a PID has received the signal it was registered for. */
  lemma {:induction false} ExecGetsItsSignal(run: seq<State>, actions: seq<Action>, i: nat, j: nat, pid: Pid, kill: bool)
    requires IsRun(run, actions) && i < j <= |actions| && actions[i] == AddExec(pid, kill) && !run[i].shared.stopping
    requires LeftAlone(actions, pid, i + 1, j) && run[j].loop == Finished && pid != 0
    ensures (pid, if kill then SIGKILL else SIGINT) in run[j].delivered
  {
    ExecStaysRegistered(run, actions, i, j, pid, kill);
    ExecsSignalled(run, actions, j);
  }

  // ---- every timeout is received ----

  /** The timeouts the waiting stoppers have sent by the i-th state, in order. */
  ghost function AskedBy(run: seq<State>, actions: seq<Action>, i: nat): seq<Timeout>
    requires i <= |actions| < |run|
  {
    if i == 0 then []
    else AskedBy(run, actions, i - 1) + if actions[i - 1].Wait? then [Timeout(actions[i - 1].seconds, run[i - 1].now)] else []
  }

  function Senders(received: seq<(Timeout, int)>): (r: seq<Timeout>)
    ensures |r| == |received| && forall k :: 0 <= k < |r| ==> r[k] == received[k].0
  {
    seq(|received|, k requires 0 <= k < |received| => received[k].0)
  }

  /** What the loop has received and what waits in the channel are the timeouts sent, in the order in
      which they were sent. */
  lemma {:induction false} TimeoutsInOrder(run: seq<State>, actions: seq<Action>, i: nat)
    requires IsRun(run, actions) && i < |run|
    ensures AskedBy(run, actions, i) == Senders(run[i].received) + run[i].shared.timeouts
    decreases i
  {
    if i > 0 {
      TimeoutsInOrder(run, actions, i - 1);
      var s, a, t := run[i - 1], actions[i - 1], run[i];
      assert Enabled(s, a) && run[i - 1 + 1] == Next(s, a);
      if a.Wait? {
        assert t.shared.timeouts == s.shared.timeouts + [Timeout(a.seconds, s.now)];
      } else if a.Receive? {
        assert Senders(t.received) == Senders(s.received) + [s.shared.timeouts[0]];
      } else {
        OtherTimeouts(s, a);
      }
    }
  }

  lemma OtherTimeouts(s: State, a: Action)
    requires Enabled(s, a) && !a.Wait? && !a.Receive?
    ensures Next(s, a).received == s.received && Next(s, a).shared.timeouts == s.shared.timeouts
  {
  }

  /** No watcher is closed twice, none is closed that was not registered, and when the loop has
      finished each one registered has been closed and none is left. */
  lemma WatchersClosedOnce(run: seq<State>, actions: seq<Action>, i: nat)
    requires IsRun(run, actions) && i < |run|
    ensures NoDuplicates(run[i].closed)
    ensures forall w :: w in run[i].closed ==> w in run[i].created && w !in run[i].shared.watchers
    ensures run[i].loop == Finished ==> run[i].shared.watchers == [] && run[i].closed == run[i].created
  {
    RunInvariant(run, actions, i);
    var s := run[i];
    assert s.closed + s.shared.watchers == s.created;
    forall k | 0 <= k < |s.closed|
      ensures s.closed[k] == k
    {
      assert s.created[k] == s.closed[k];
    }
    forall k | 0 <= k < |s.shared.watchers|
      ensures s.shared.watchers[k] == |s.closed| + k
    {
      assert s.created[|s.closed| + k] == s.shared.watchers[k];
    }
    assert s.loop == Finished ==> s.closed + [] == s.closed;
  }

  lemma {:induction false} SkippedWasGone(run: seq<State>, actions: seq<Action>, i: nat, stopper: Stopper)
    requires IsRun(run, actions) && i < |run| && stopper in run[i].calls && run[i].calls[stopper] == Skipped
    ensures exists j :: 0 <= j < i && actions[j] == CallStop(stopper, false)
    decreases i
  {
    var last := i - 1;
    assert Enabled(run[last], actions[last]) && run[last + 1] == Next(run[last], actions[last]);
    if actions[last] != CallStop(stopper, false) {
      SkippedWasGone(run, actions, last, stopper);
    }
  }

  /** A stop returns only if it found the container gone, was cancelled, or the loop has finished. */
  lemma {:induction false} StopReturnsWhenDone(run: seq<State>, actions: seq<Action>, i: nat, stopper: Stopper)
    requires IsRun(run, actions) && i < |run| && stopper in run[i].calls
    requires run[i].calls[stopper].Returned? || run[i].calls[stopper].Skipped?
    ensures run[i].loop == Finished || run[i].calls[stopper] == Returned(true) ||
            exists j :: 0 <= j < i && actions[j] == CallStop(stopper, false)
  {
    RunInvariant(run, actions, i);
    if run[i].calls[stopper].Skipped? {
      SkippedWasGone(run, actions, i, stopper);
    }
  }

  ghost predicate CallsInv(s: State) {
    forall k :: k in s.calls && s.calls[k] == Asked ==> s.shared.stopping
  }

  lemma {:induction false} RunKeepsCalls(run: seq<State>, actions: seq<Action>, i: nat)
    requires IsRun(run, actions) && i < |run|
    ensures CallsInv(run[i])
    decreases i
  {
    if i > 0 {
      RunKeepsCalls(run, actions, i - 1);
      assert Enabled(run[i - 1], actions[i - 1]) && run[i - 1 + 1] == Next(run[i - 1], actions[i - 1]);
    }
  }

  /** A stopper that has still to wait panics exactly when the loop has finished by then, and blocks
      exactly when the channel is full before that. */
  lemma WaitExactly(run: seq<State>, actions: seq<Action>, i: nat, stopper: Stopper)
    requires IsRun(run, actions) && i < |run| && stopper in run[i].calls && run[i].calls[stopper] == Asked
    ensures WaitsAs(run[i].shared) == Panics <==> run[i].loop == Finished
    ensures WaitsAs(run[i].shared) == Blocks <==> run[i].loop != Finished && |run[i].shared.timeouts| == TimeoutBuffer
    ensures WaitsAs(run[i].shared) != NotStopping
  {
    RunInvariant(run, actions, i);
    RunKeepsCalls(run, actions, i);
  }

  /** A stopper delayed after it found the container alive comes to wait when the loop is over. */
  lemma LateWaitPanics() returns (run: seq<State>, actions: seq<Action>)
    ensures IsRun(run, actions) && |run| == 5
    ensures 0 in run[4].calls && run[4].calls[0] == Asked && WaitsAs(run[4].shared) == Panics
  {
    var a := CallStop(0, true);
    var s := Next(Initial, a);
    var t := Next(s, Start(false, 0));
    var u := Next(t, SnapshotExecs);
    var v := Next(u, Finish);
    run, actions := [Initial, s, t, u, v], [a, Start(false, 0), SnapshotExecs, Finish];
  }

  /** SIGKILL is due by timeout only at or after the earliest of the first deadline and of
      receipt plus timeout over all timeouts received, and no timeout is received before it was sent. */
  lemma KillNotBeforeDeadline(run: seq<State>, actions: seq<Action>, i: nat)
    requires IsRun(run, actions) && i < |actions| && actions[i] == TimeOut
    ensures run[i].now >= Earliest(run[i].yearAhead, run[i].received)
    ensures run[i].now >= run[i].yearAhead ||
            exists j :: 0 <= j < |run[i].received| &&
              run[i].now >= run[i].received[j].1 + run[i].received[j].0.seconds >= run[i].received[j].0.sent + run[i].received[j].0.seconds
  {
    RunInvariant(run, actions, i);
    assert Enabled(run[i], actions[i]);
    EarliestIsLeast(run[i].yearAhead, run[i].received, 0);
  }

  predicate Underway(s: State) {
    s.shared.stopping && !s.loop.NotStarted? && !s.loop.Begun?
  }

  lemma StepUnderway(s: State, a: Action)
    requires Underway(s) && Enabled(s, a)
    ensures var t := Next(s, a);
            Underway(t) && t.yearAhead == s.yearAhead && t.target <= s.target
  {
  }

  /** The deadline never moves to a later time once the loop waits, and while it waits is met for
      every timeout received. */
  lemma {:induction false} DeadlineNeverPostponed(run: seq<State>, actions: seq<Action>, i: nat, j: nat)
    requires IsRun(run, actions) && i <= j < |run| && Underway(run[i])
    ensures Underway(run[j]) && run[j].target <= run[i].target && run[j].yearAhead == run[i].yearAhead
    ensures run[j].loop == Waiting ==> forall k :: 0 <= k < |run[j].received| ==>
              run[j].target <= run[j].received[k].1 + run[j].received[k].0.seconds
    decreases j
  {
    if i < j {
      DeadlineNeverPostponed(run, actions, i, j - 1);
      StepUnderway(run[j - 1], actions[j - 1]);
    }
    TargetMeetsAll(run, actions, j);
  }

  lemma TargetMeetsAll(run: seq<State>, actions: seq<Action>, j: nat)
    requires IsRun(run, actions) && j < |run|
    ensures run[j].loop == Waiting ==> forall k :: 0 <= k < |run[j].received| ==>
              run[j].target <= run[j].received[k].1 + run[j].received[k].0.seconds
  {
    RunInvariant(run, actions, j);
    forall k | 0 <= k < |run[j].received|
      ensures Earliest(run[j].yearAhead, run[j].received) <= run[j].received[k].1 + run[j].received[k].0.seconds
    {
      EarliestIsLeast(run[j].yearAhead, run[j].received, k);
    }
  }
}
