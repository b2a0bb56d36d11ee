/** What a container keeps under its stopLock while it is being stopped (internal/oci/container.go). */
module Stop {
  type Pid = int
  type Watcher = nat

  /** A stop timeout in seconds, waiting in the channel since the given time. */
  datatype Timeout = Timeout(seconds: int, sent: int)

  datatype Signal = SIGINT | SIGKILL

  const TimeoutBuffer: nat := 10

  /** The fields the stopLock protects. An exec PID is mapped to whether it has to be killed. */
  datatype Shared = Shared(
    stopping: bool,
    watchers: seq<Watcher>,
    timeouts: seq<Timeout>,
    channelOpen: bool,
    execPIDs: map<Pid, bool>)

  const NewShared: Shared := Shared(false, [], [], true, map[])

  function SetStopping(s: Shared): Shared {
    s.(stopping := true)
  }

  /** What happens to a caller that wants to wait: it returns at once, it waits, its send blocks on a
      full channel, or it panics on a closed one. */
  datatype Waiting = NotStopping | Waits | Blocks | Panics

  function WaitsAs(s: Shared): Waiting {
    if !s.stopping then NotStopping
    else if !s.channelOpen then Panics
    else if |s.timeouts| >= TimeoutBuffer then Blocks else Waits
  }

  function Registered(s: Shared, timeout: Timeout, watcher: Watcher): Shared {
    s.(timeouts := s.timeouts + [timeout], watchers := s.watchers + [watcher])
  }

  function DoneStopping(s: Shared): Shared {
    s.(watchers := [], channelOpen := false)
  }

  function WithExec(s: Shared, pid: Pid, shouldKill: bool): Shared {
    if s.stopping then s else s.(execPIDs := s.execPIDs[pid := shouldKill])
  }

  function WithoutExec(s: Shared, pid: Pid): Shared {
    s.(execPIDs := s.execPIDs - {pid})
  }

  function SignalFor(shouldKill: bool): Signal {
    if shouldKill then SIGKILL else SIGINT
  }

  class Container {
    var stopping: bool
    var stopWatchers: seq<Watcher>
    var stopTimeoutChan: seq<Timeout>
    var channelOpen: bool
    var execPIDs: map<Pid, bool>
    var closed: seq<Watcher>

    function View(): Shared
      reads this
    {
      Shared(stopping, stopWatchers, stopTimeoutChan, channelOpen, execPIDs)
    }

    constructor ()
      ensures View() == NewShared && closed == []
    {
      stopping, stopWatchers, stopTimeoutChan, channelOpen, execPIDs, closed := false, [], [], true, map[], [];
    }

    method SetAsStopping() returns (setToStopping: bool)
      modifies this
      ensures View() == SetStopping(old(View())) && setToStopping == !old(stopping) && closed == old(closed)
    {
      if !stopping {
        stopping := true;
        return true;
      }
      return false;
    }

    /** The part under the lock: a caller that does not come to wait changes nothing. */
    method WaitOnStopTimeout(timeout: Timeout, watcher: Watcher) returns (r: Waiting)
      modifies this
      ensures r == WaitsAs(old(View())) && closed == old(closed)
      ensures View() == if r == Waits then Registered(old(View()), timeout, watcher) else old(View())
    {
      if !stopping {
        return NotStopping;
      }
      if !channelOpen {
        return Panics;
      }
      if |stopTimeoutChan| >= TimeoutBuffer {
        return Blocks;
      }
      stopTimeoutChan := stopTimeoutChan + [timeout];
      stopWatchers := stopWatchers + [watcher];
      return Waits;
    }

    /** Closes each watcher, in order, and the channel. */
    method SetAsDoneStopping()
      requires channelOpen
      modifies this
      ensures View() == DoneStopping(old(View())) && closed == old(closed) + old(stopWatchers)
    {
      for i := 0 to |stopWatchers|
        invariant View() == old(View()) && closed == old(closed) + stopWatchers[..i]
      {
        closed := closed + [stopWatchers[i]];
      }
      assert stopWatchers[..|stopWatchers|] == stopWatchers;
      stopWatchers := [];
      channelOpen := false;
    }

    method AddExecPID(pid: Pid, shouldKill: bool) returns (ok: bool)
      modifies this
      ensures ok == !old(stopping) && View() == WithExec(old(View()), pid, shouldKill) && closed == old(closed)
    {
      if stopping {
        return false;
      }
      execPIDs := execPIDs[pid := shouldKill];
      return true;
    }

    method DeleteExecPID(pid: Pid)
      modifies this
      ensures View() == WithoutExec(old(View()), pid) && closed == old(closed)
    {
      execPIDs := execPIDs - {pid};
    }

    /** Rounds of signals, each to those the round before could not reach, until all have been
        reached: by round `last` at the latest. */
    method KillExecPIDs(refused: (nat, Pid) -> bool, last: nat) returns (delivered: map<Pid, Signal>)
      requires forall round, pid :: round >= last ==> !refused(round, pid)
      ensures delivered.Keys == execPIDs.Keys - {0}
      ensures forall pid :: pid in delivered ==> delivered[pid] == if execPIDs[pid] then SIGKILL else SIGINT
    {
      delivered := map[];
      var toKill := execPIDs;
      var round := 0;
      while |toKill.Keys| > 0
        invariant round > last ==> toKill.Keys == {}
        invariant forall pid :: pid in toKill ==> pid in execPIDs && toKill[pid] == execPIDs[pid]
        invariant forall pid :: pid in delivered ==> pid != 0 && pid in execPIDs && delivered[pid] == SignalFor(execPIDs[pid])
        invariant forall pid :: pid in execPIDs && pid != 0 ==> pid in delivered || pid in toKill
        decreases last + 1 - round
      {
        var unkilled, reached := SignalRound(toKill, round, refused);
        delivered := delivered + reached;
        if round >= last {
          assert forall pid :: pid !in unkilled.Keys;
        }
        toKill := unkilled;
        round := round + 1;
      }
      assert toKill.Keys == {};
      assert forall pid :: pid in delivered.Keys <==> pid in execPIDs.Keys - {0};
    }
  }

  method SignalRound(toKill: map<Pid, bool>, round: nat, refused: (nat, Pid) -> bool)
    returns (unkilled: map<Pid, bool>, reached: map<Pid, Signal>)
    ensures forall pid :: pid in unkilled <==> pid in toKill && pid != 0 && refused(round, pid)
    ensures forall pid :: pid in unkilled ==> unkilled[pid] == toKill[pid]
    ensures forall pid :: pid in reached <==> pid in toKill && pid != 0 && !refused(round, pid)
    ensures forall pid :: pid in reached ==> reached[pid] == if toKill[pid] then SIGKILL else SIGINT
  {
    unkilled, reached := map[], map[];
    var left: set<Pid> := set pid | pid in toKill;
    while left != {}
      invariant left <= toKill.Keys
      invariant forall pid :: pid in unkilled <==> pid in toKill && pid !in left && pid != 0 && refused(round, pid)
      invariant forall pid :: pid in unkilled ==> unkilled[pid] == toKill[pid]
      invariant forall pid :: pid in reached <==> pid in toKill && pid !in left && pid != 0 && !refused(round, pid)
      invariant forall pid :: pid in reached ==> reached[pid] == SignalFor(toKill[pid])
      decreases |left|
    {
      var pid :| pid in left;
      left := left - {pid};
      if pid != 0 {
        if refused(round, pid) {
          unkilled := unkilled[pid := toKill[pid]];
        } else {
          reached := reached[pid := SignalFor(toKill[pid])];
        }
      }
    }
  }
}
