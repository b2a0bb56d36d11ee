/** The runtime's side of NRI (internal/nri/nri.go): container events are relayed to the plugins,
    and a map of container states decides which stop and remove events are sent. */
module Nri {
  type Id = string

  /** A container the map does not hold is Removed. */
  datatype Status = Created | Running | Stopped | Removed

  /** What a container reports when a plugin is synchronized. */
  datatype Reported = ReportsCreated | ReportsRunning | ReportsPaused | ReportsStopped | ReportsOther

  /** What the plugins see of a container; Relay stands for the events that do not touch the map. */
  datatype Event =
    | Create(id: Id)
    | Start(id: Id)
    | Stop(id: Id)
    | Remove(id: Id)
    | Sync(id: Id, reported: Reported)
    | Relay(id: Id)

  datatype Local = Local(state: map<Id, Status>, log: seq<Event>)

  const NewLocal: Local := Local(map[], [])

  function StatusOf(reported: Reported): Status {
    match reported
    case ReportsCreated => Created
    case ReportsRunning | ReportsPaused => Running
    case ReportsStopped => Stopped
    case ReportsOther => Removed
  }

  function SetState(state: map<Id, Status>, id: Id, s: Status): map<Id, Status> {
    if s != Removed then state[id := s] else state - {id}
  }

  function GetState(state: map<Id, Status>, id: Id): Status {
    if id in state then state[id] else Removed
  }

  function Sent(l: Local, e: Event, s: Status): Local {
    Local(SetState(l.state, e.id, s), l.log + [e])
  }

  // ---- the requests ----

  function Stopping(l: Local, id: Id): Local {
    if GetState(l.state, id) in {Created, Running} then Sent(l, Stop(id), Stopped) else l
  }

  function Removing(l: Local, id: Id): Local {
    if GetState(l.state, id) == Removed then l else Sent(Stopping(l, id), Remove(id), Removed)
  }

  function Synchronizing(l: Local, containers: seq<(Id, Reported)>): Local {
    if containers == [] then l
    else
      var before, c := Synchronizing(l, containers[..|containers| - 1]), containers[|containers| - 1];
      Sent(before, Sync(c.0, c.1), StatusOf(c.1))
  }

  datatype Request =
    | CreateContainer(id: Id)
    | StartContainer(id: Id)
    | StopContainer(id: Id)
    | RemoveContainer(id: Id)
    | SyncPlugin(containers: seq<(Id, Reported)>)
    | Other(id: Id)

  function Do(l: Local, r: Request): Local {
    match r
    case CreateContainer(id) => Sent(l, Create(id), Created)
    case StartContainer(id) => Sent(l, Start(id), Running)
    case StopContainer(id) => Stopping(l, id)
    case RemoveContainer(id) => Removing(l, id)
    case SyncPlugin(containers) => Synchronizing(l, containers)
    case Other(id) => l.(log := l.log + [Relay(id)])
  }

  function After(requests: seq<Request>): Local {
    if requests == [] then NewLocal
    else Do(After(requests[..|requests| - 1]), requests[|requests| - 1])
  }

  // ---- the map is what the events say ----

  /** The status a container has by its events alone. */
  function StatusFrom(log: seq<Event>, id: Id): Status {
    if log == [] then Removed
    else
      var e := log[|log| - 1];
      if e.id != id then StatusFrom(log[..|log| - 1], id)
      else
        match e
        case Create(_) => Created
        case Start(_) => Running
        case Stop(_) => Stopped
        case Remove(_) => Removed
        case Sync(_, reported) => StatusOf(reported)
        case Relay(_) => StatusFrom(log[..|log| - 1], id)
  }

  /** Each stop and each remove went out to a container in a state that calls for it. */
  ghost predicate Legal(log: seq<Event>) {
    (forall j :: 0 <= j < |log| && log[j].Stop? ==> StatusFrom(log[..j], log[j].id) in {Created, Running}) &&
    (forall j :: 0 <= j < |log| && log[j].Remove? ==> StatusFrom(log[..j], log[j].id) == Stopped)
  }

  ghost predicate Valid(l: Local) {
    Legal(l.log) && forall id :: GetState(l.state, id) == StatusFrom(l.log, id)
  }

  lemma {:induction false} StatusAfter(log: seq<Event>, e: Event, id: Id)
    ensures e.id != id || e.Relay? ==> StatusFrom(log + [e], id) == StatusFrom(log, id)
    ensures e.id == id ==> match e {
                             case Create(_) => StatusFrom(log + [e], id) == Created
                             case Start(_) => StatusFrom(log + [e], id) == Running
                             case Stop(_) => StatusFrom(log + [e], id) == Stopped
                             case Remove(_) => StatusFrom(log + [e], id) == Removed
                             case Sync(_, reported) => StatusFrom(log + [e], id) == StatusOf(reported)
                             case Relay(_) => true
                           }
  {
    assert (log + [e])[..|log|] == log;
  }

  lemma {:induction false} LegalAfter(log: seq<Event>, e: Event)
    requires Legal(log)
    requires e.Stop? ==> StatusFrom(log, e.id) in {Created, Running}
    requires e.Remove? ==> StatusFrom(log, e.id) == Stopped
    ensures Legal(log + [e])
  {
    var longer := log + [e];
    forall j | 0 <= j < |longer|
      ensures longer[j].Stop? ==> StatusFrom(longer[..j], longer[j].id) in {Created, Running}
      ensures longer[j].Remove? ==> StatusFrom(longer[..j], longer[j].id) == Stopped
    {
      if j < |log| {
        assert longer[..j] == log[..j];
      } else {
        assert longer[..j] == log;
      }
    }
  }

  /** What status an event leaves, for the events that set one. */
  predicate Leaves(e: Event, s: Status) {
    match e
    case Create(_) => s == Created
    case Start(_) => s == Running
    case Stop(_) => s == Stopped
    case Remove(_) => s == Removed
    case Sync(_, reported) => s == StatusOf(reported)
    case Relay(_) => false
  }

  lemma SentKeepsValid(l: Local, e: Event, s: Status)
    requires Valid(l) && Leaves(e, s)
    requires e.Stop? ==> GetState(l.state, e.id) in {Created, Running}
    requires e.Remove? ==> GetState(l.state, e.id) == Stopped
    ensures Valid(Sent(l, e, s))
  {
    LegalAfter(l.log, e);
    forall id
      ensures GetState(Sent(l, e, s).state, id) == StatusFrom(l.log + [e], id)
    {
      StatusAfter(l.log, e, id);
    }
  }

  lemma {:induction false} SyncKeepsValid(l: Local, containers: seq<(Id, Reported)>)
    requires Valid(l)
    ensures Valid(Synchronizing(l, containers))
    decreases |containers|
  {
    if containers != [] {
      SyncKeepsValid(l, containers[..|containers| - 1]);
      var c := containers[|containers| - 1];
      SentKeepsValid(Synchronizing(l, containers[..|containers| - 1]), Sync(c.0, c.1), StatusOf(c.1));
    }
  }

  lemma RemovingKeepsValid(l: Local, id: Id)
    requires Valid(l)
    ensures Valid(Removing(l, id))
  {
    if GetState(l.state, id) != Removed {
      if GetState(l.state, id) != Stopped {
        SentKeepsValid(l, Stop(id), Stopped);
      }
      SentKeepsValid(Stopping(l, id), Remove(id), Removed);
    }
  }

  lemma RelayKeepsValid(l: Local, id: Id)
    requires Valid(l)
    ensures Valid(l.(log := l.log + [Relay(id)]))
  {
    LegalAfter(l.log, Relay(id));
    forall other
      ensures StatusFrom(l.log + [Relay(id)], other) == StatusFrom(l.log, other)
    {
      StatusAfter(l.log, Relay(id), other);
    }
  }

  lemma RequestKeepsValid(l: Local, r: Request)
    requires Valid(l)
    ensures Valid(Do(l, r))
  {
    match r
    case CreateContainer(id) => SentKeepsValid(l, Create(id), Created);
    case StartContainer(id) => SentKeepsValid(l, Start(id), Running);
    case StopContainer(id) =>
      if GetState(l.state, id) in {Created, Running} {
        SentKeepsValid(l, Stop(id), Stopped);
      }
    case RemoveContainer(id) => RemovingKeepsValid(l, id);
    case SyncPlugin(containers) => SyncKeepsValid(l, containers);
    case Other(id) => RelayKeepsValid(l, id);
  }

  /** After any requests the map holds exactly the states the events say. */
  lemma {:induction false} RunIsValid(requests: seq<Request>)
    ensures Valid(After(requests))
    decreases |requests|
  {
    if requests != [] {
      RunIsValid(requests[..|requests| - 1]);
      RequestKeepsValid(After(requests[..|requests| - 1]), requests[|requests| - 1]);
    }
  }

  // ---- traces ----

  /** An event after which the container has to be stopped again. */
  predicate Opens(e: Event, id: Id) {
    e.id == id && (e.Create? || e.Start? || (e.Sync? && StatusOf(e.reported) in {Created, Running}))
  }

  predicate Stops(e: Event, id: Id) {
    e.id == id && (e.Stop? || (e.Sync? && e.reported == ReportsStopped))
  }

  lemma {:induction false} OpenedSince(log: seq<Event>, id: Id, i: nat)
    requires i < |log| && log[i].id == id && (log[i].Stop? || log[i].Remove?)
    requires StatusFrom(log, id) in {Created, Running}
    ensures exists k :: i < k < |log| && Opens(log[k], id)
    decreases |log|
  {
    var e := log[|log| - 1];
    if Opens(e, id) {
      assert Opens(log[|log| - 1], id);
    } else {
      var rest := log[..|log| - 1];
      assert i < |rest|;
      OpenedSince(rest, id, i);
      var k :| i < k < |rest| && Opens(rest[k], id);
      assert Opens(log[k], id);
    }
  }

  lemma {:induction false} RevivedSince(log: seq<Event>, id: Id, i: nat)
    requires i < |log| && log[i] == Remove(id) && StatusFrom(log, id) != Removed
    ensures exists k :: i < k < |log| && (Opens(log[k], id) || (Stops(log[k], id) && log[k].Sync?) || log[k] == Stop(id))
    decreases |log|
  {
    var e := log[|log| - 1];
    if Opens(e, id) || Stops(e, id) {
      assert Opens(log[|log| - 1], id) || Stops(log[|log| - 1], id);
    } else {
      var rest := log[..|log| - 1];
      assert i < |rest|;
      RevivedSince(rest, id, i);
      var k :| i < k < |rest| && (Opens(rest[k], id) || (Stops(rest[k], id) && rest[k].Sync?) || rest[k] == Stop(id));
      assert log[k] == rest[k];
    }
  }

  /** Between two stops of a container, and between a remove and a later stop, the container was
      created, started or reported alive by a sync. */
  lemma {:induction false} StopsAreSeparated(requests: seq<Request>, id: Id, i: nat, j: nat)
    requires var log := After(requests).log;
             i < j < |log| && log[j] == Stop(id) && (log[i] == Stop(id) || log[i] == Remove(id))
    ensures exists k :: i < k < j && Opens(After(requests).log[k], id)
  {
    RunIsValid(requests);
    var log := After(requests).log;
    OpenedSince(log[..j], id, i);
    var k :| i < k < j && Opens(log[..j][k], id);
    assert Opens(log[k], id);
  }

  /** Between two removes of a container it was created, started or reported by a sync. */
  lemma {:induction false} RemovesAreSeparated(requests: seq<Request>, id: Id, i: nat, j: nat)
    requires var log := After(requests).log;
             i < j < |log| && log[i] == Remove(id) && log[j] == Remove(id)
    ensures exists k :: i < k < j && (Opens(After(requests).log[k], id) || (Stops(After(requests).log[k], id) && After(requests).log[k].Sync?))
  {
    RunIsValid(requests);
    var log := After(requests).log;
    RevivedSince(log[..j], id, i);
    var k :| i < k < j && (Opens(log[..j][k], id) || (Stops(log[..j][k], id) && log[..j][k].Sync?) || log[..j][k] == Stop(id));
    assert log[..j][k] == log[k];
    if log[k] == Stop(id) {
      StopsAreSeparated(requests, id, i, k);
    }
  }

  // ---- what a remove follows ----

  /** The container's latest event, relayed ones aside, is e. */
  ghost predicate Latest(log: seq<Event>, e: Event) {
    !e.Relay? && exists k :: LatestAt(log, e, k)
  }

  ghost predicate LatestAt(log: seq<Event>, e: Event, k: int) {
    0 <= k < |log| && log[k] == e && forall m :: k < m < |log| ==> log[m].id != e.id || log[m].Relay?
  }

  lemma LatestAfter(log: seq<Event>, last: Event, e: Event)
    requires !e.Relay?
    ensures Latest(log + [last], e) <==> if last.id == e.id && !last.Relay? then last == e else Latest(log, e)
  {
    var longer := log + [last];
    assert longer[|log|] == last;
    if k :| LatestAt(longer, e, k) && k < |log| {
      forall m | k < m < |log|
        ensures log[m].id != e.id || log[m].Relay?
      {
        assert log[m] == longer[m];
      }
      assert LatestAt(log, e, k);
    }
    if last == e {
      assert LatestAt(longer, e, |log|);
    }
    if k :| LatestAt(log, e, k) && !(last.id == e.id && !last.Relay?) {
      assert LatestAt(longer, e, k);
    }
  }

  /** A container counts as stopped because of a stop or because of a sync, never of anything else. */
  lemma {:induction false} StoppedBy(log: seq<Event>, id: Id)
    ensures StatusFrom(log, id) == Stopped <==> Latest(log, Stop(id)) || Latest(log, Sync(id, ReportsStopped))
    decreases |log|
  {
    if log != [] {
      var rest, last := log[..|log| - 1], log[|log| - 1];
      assert log == rest + [last];
      StoppedBy(rest, id);
      LatestAfter(rest, last, Stop(id));
      LatestAfter(rest, last, Sync(id, ReportsStopped));
    }
  }

  /** Every remove directly follows a stop of the container or a sync that reported it stopped. */
  lemma {:induction false} RemoveFollows(requests: seq<Request>, j: nat)
    requires j < |After(requests).log| && After(requests).log[j].Remove?
    ensures var log, id := After(requests).log, After(requests).log[j].id;
            Latest(log[..j], Stop(id)) || Latest(log[..j], Sync(id, ReportsStopped))
  {
    RunIsValid(requests);
    var log := After(requests).log;
    StoppedBy(log[..j], log[j].id);
  }

  /** The log just before the remove that a removal sends. */
  function BeforeRemove(l: Local, id: Id): seq<Event> {
    Stopping(l, id).log
  }

  lemma RemovalSends(l: Local, id: Id)
    requires GetState(l.state, id) != Removed
    ensures Removing(l, id).log == BeforeRemove(l, id) + [Remove(id)]
  {
  }

  /** A removal that is sent directly follows a stop exactly when the container's latest event
      was not a sync that reported it stopped. */
  lemma {:induction false} RemoveFollowsStop(requests: seq<Request>, id: Id)
    requires GetState(After(requests).state, id) != Removed
    ensures Removing(After(requests), id).log == BeforeRemove(After(requests), id) + [Remove(id)]
    ensures Latest(BeforeRemove(After(requests), id), Stop(id)) <==> !Latest(After(requests).log, Sync(id, ReportsStopped))
  {
    RunIsValid(requests);
    RemovalSends(After(requests), id);
    BeforeRemoveEnds(After(requests), id);
  }

  lemma {:induction false} BeforeRemoveEnds(l: Local, id: Id)
    requires GetState(l.state, id) != Removed && GetState(l.state, id) == StatusFrom(l.log, id)
    ensures Latest(BeforeRemove(l, id), Stop(id)) <==> !Latest(l.log, Sync(id, ReportsStopped))
  {
    StoppedBy(l.log, id);
    if GetState(l.state, id) == Stopped {
      if Latest(l.log, Stop(id)) {
        LatestUnique(l.log, Stop(id), Sync(id, ReportsStopped));
      } else {
        assert BeforeRemove(l, id) == l.log;
      }
    } else {
      LatestAfter(l.log, Stop(id), Stop(id));
    }
  }

  lemma LatestUnique(log: seq<Event>, a: Event, b: Event)
    requires a.id == b.id && a != b && Latest(log, a)
    ensures !Latest(log, b)
  {
    var k :| LatestAt(log, a, k);
    forall j
      ensures !LatestAt(log, b, j) || b.Relay?
    {
    }
  }

  /** So a remove can go out with no stop before it. */
  lemma RemovedWithoutStop(id: Id)
    ensures After([SyncPlugin([(id, ReportsStopped)]), RemoveContainer(id)]).log == [Sync(id, ReportsStopped), Remove(id)]
  {
    var first := [SyncPlugin([(id, ReportsStopped)])];
    var both := first + [RemoveContainer(id)];
    assert both[..1] == first && first[..0] == [];
    var c := [(id, ReportsStopped)];
    assert c[..0] == [];
    assert Synchronizing(NewLocal, c) == Sent(NewLocal, Sync(id, ReportsStopped), Stopped);
    assert After(first) == Synchronizing(After([]), c);
    assert After(both) == Removing(After(first), id);
  }

  // ---- what each request sends, by the log alone ----

  /** The container was last created, started, or reported created, running or paused. */
  ghost predicate Alive(log: seq<Event>, id: Id) {
    || Latest(log, Create(id))
    || Latest(log, Start(id))
    || Latest(log, Sync(id, ReportsCreated))
    || Latest(log, Sync(id, ReportsRunning))
    || Latest(log, Sync(id, ReportsPaused))
  }

  /** The container was last removed or reported in some other state, or never heard of. */
  ghost predicate Gone(log: seq<Event>, id: Id) {
    || Latest(log, Remove(id))
    || Latest(log, Sync(id, ReportsOther))
    || forall k :: 0 <= k < |log| ==> log[k].id != id || log[k].Relay?
  }

  lemma {:induction false} AliveStatus(log: seq<Event>, id: Id)
    ensures StatusFrom(log, id) in {Created, Running} <==> Alive(log, id)
    decreases |log|
  {
    if log != [] {
      var rest, last := log[..|log| - 1], log[|log| - 1];
      assert log == rest + [last];
      AliveStatus(rest, id);
      LatestAfter(rest, last, Create(id));
      LatestAfter(rest, last, Start(id));
      LatestAfter(rest, last, Sync(id, ReportsCreated));
      LatestAfter(rest, last, Sync(id, ReportsRunning));
      LatestAfter(rest, last, Sync(id, ReportsPaused));
    }
  }

  lemma {:induction false} GoneStatus(log: seq<Event>, id: Id)
    ensures StatusFrom(log, id) == Removed <==> Gone(log, id)
    decreases |log|
  {
    if log != [] {
      var rest, last := log[..|log| - 1], log[|log| - 1];
      assert log == rest + [last];
      GoneStatus(rest, id);
      LatestAfter(rest, last, Remove(id));
      LatestAfter(rest, last, Sync(id, ReportsOther));
      assert forall k :: 0 <= k < |rest| ==> log[k] == rest[k];
    }
  }

  function SyncEvents(containers: seq<(Id, Reported)>): (r: seq<Event>)
    ensures |r| == |containers| && forall k :: 0 <= k < |r| ==> r[k] == Sync(containers[k].0, containers[k].1)
  {
    seq(|containers|, k requires 0 <= k < |containers| => Sync(containers[k].0, containers[k].1))
  }

  lemma {:induction false} SyncAdds(l: Local, containers: seq<(Id, Reported)>)
    ensures Synchronizing(l, containers).log == l.log + SyncEvents(containers)
    decreases |containers|
  {
    if containers == [] {
      assert SyncEvents(containers) == [];
    } else {
      var init := containers[..|containers| - 1];
      SyncAdds(l, init);
      assert SyncEvents(containers) == SyncEvents(init) + [SyncEvents(containers)[|init|]];
    }
  }

  ghost function RemovalEvents(log: seq<Event>, id: Id): seq<Event> {
    if Gone(log, id) then [] else if Alive(log, id) then [Stop(id), Remove(id)] else [Remove(id)]
  }

  lemma {:induction false} StopSends(l: Local, id: Id)
    requires Valid(l)
    ensures Stopping(l, id).log == l.log + if Alive(l.log, id) then [Stop(id)] else []
  {
    AliveStatus(l.log, id);
    assert l.log + [] == l.log;
  }

  lemma {:induction false} RemoveSends(l: Local, id: Id)
    requires Valid(l)
    ensures Removing(l, id).log == l.log + RemovalEvents(l.log, id)
  {
    GoneStatus(l.log, id);
    StopSends(l, id);
    assert l.log + [] == l.log;
    assert l.log + [Stop(id)] + [Remove(id)] == l.log + [Stop(id), Remove(id)];
  }

  /** What a request sends to the plugins, as a function of what they have seen. */
  ghost function Due(log: seq<Event>, r: Request): seq<Event> {
    match r
    case CreateContainer(id) => [Create(id)]
    case StartContainer(id) => [Start(id)]
    case StopContainer(id) => if Alive(log, id) then [Stop(id)] else []
    case RemoveContainer(id) => RemovalEvents(log, id)
    case SyncPlugin(containers) => SyncEvents(containers)
    case Other(id) => [Relay(id)]
  }

  /** After any requests, the next one sends exactly the events that are due. */
  lemma {:induction false} SendsExactly(requests: seq<Request>, r: Request)
    ensures Do(After(requests), r).log == After(requests).log + Due(After(requests).log, r)
  {
    RunIsValid(requests);
    match r
    case StopContainer(id) => StopSends(After(requests), id);
    case RemoveContainer(id) => RemoveSends(After(requests), id);
    case SyncPlugin(containers) => SyncAdds(After(requests), containers);
    case _ =>
  }

  // ---- the interface ----

  /** What the plugins answer to an event, and whether the updates they ask for succeed. */
  datatype Answer = Answer(accepted: bool, updated: bool)

  class LocalNri {
    var enabled: bool
    var state: map<Id, Status>
    var log: seq<Event>

    function View(): Local
      reads this
    {
      Local(state, log)
    }

    constructor (on: bool)
      ensures enabled == on && View() == NewLocal
    {
      enabled, state, log := on, map[], [];
    }

    /** An event goes out, and the map is changed whatever the plugins answer. */
    method Send(e: Event, s: Status)
      modifies this
      ensures View() == Sent(old(View()), e, s) && enabled == old(enabled)
    {
      log := log + [e];
      if s != Removed {
        state := state[e.id := s];
      } else {
        state := state - {e.id};
      }
    }

    method CreateContainer(id: Id, answer: Answer) returns (ok: bool)
      modifies this
      ensures View() == (if enabled then Do(old(View()), Request.CreateContainer(id)) else old(View())) && enabled == old(enabled)
      ensures enabled ==> log == old(log) + [Create(id)]
      ensures ok == (!enabled || (answer.accepted && answer.updated))
    {
      if !enabled {
        return true;
      }
      Send(Create(id), Created);
      return answer.accepted && answer.updated;
    }

    method StartContainer(id: Id, answer: Answer) returns (ok: bool)
      modifies this
      ensures View() == (if enabled then Do(old(View()), Request.StartContainer(id)) else old(View())) && enabled == old(enabled)
      ensures enabled ==> log == old(log) + [Start(id)]
      ensures ok == (!enabled || answer.accepted)
    {
      if !enabled {
        return true;
      }
      Send(Start(id), Running);
      return answer.accepted;
    }

    method StopLocked(id: Id, answer: Answer) returns (ok: bool)
      modifies this
      ensures View() == Stopping(old(View()), id) && enabled == old(enabled)
      ensures ok <==> (GetState(old(state), id) in {Created, Running} ==> answer.accepted && answer.updated)
    {
      var s := GetState(state, id);
      if !(s == Created || s == Running) {
        return true;
      }
      Send(Stop(id), Stopped);
      return answer.accepted && answer.updated;
    }

    method StopContainer(id: Id, answer: Answer) returns (ok: bool)
      modifies this
      ensures View() == (if enabled then Do(old(View()), Request.StopContainer(id)) else old(View())) && enabled == old(enabled)
      ensures enabled && Valid(old(View())) ==> log == old(log) + if Alive(old(log), id) then [Stop(id)] else []
      ensures Valid(old(View())) ==> (ok <==> (enabled && Alive(old(log), id) ==> answer.accepted && answer.updated))
    {
      if !enabled {
        return true;
      }
      if Valid(View()) {
        AliveStatus(log, id);
      }
      ok := StopLocked(id, answer);
    }

    method RemoveContainer(id: Id, stopAnswer: Answer, answer: Answer) returns (ok: bool)
      modifies this
      ensures View() == (if enabled then Do(old(View()), Request.RemoveContainer(id)) else old(View())) && enabled == old(enabled)
      ensures enabled && Valid(old(View())) ==> log == old(log) + RemovalEvents(old(log), id)
      ensures Valid(old(View())) ==> (ok <==> (enabled && !Gone(old(log), id) ==> answer.accepted))
    {
      if !enabled {
        return true;
      }
      if Valid(View()) {
        AliveStatus(log, id);
        GoneStatus(log, id);
      }
      var s := GetState(state, id);
      if !(s == Created || s == Running || s == Stopped) {
        return true;
      }
      var stopped := StopLocked(id, stopAnswer);
      Send(Remove(id), Removed);
      return answer.accepted;
    }

    method SyncPlugin(containers: seq<(Id, Reported)>, answer: Answer) returns (ok: bool)
      modifies this
      ensures View() == Do(old(View()), Request.SyncPlugin(containers)) && enabled == old(enabled)
      ensures log == old(log) + SyncEvents(containers) && (ok <==> answer.accepted && answer.updated)
    {
      for i := 0 to |containers|
        invariant View() == Synchronizing(old(View()), containers[..i]) && enabled == old(enabled)
      {
        assert containers[..i + 1][..i] == containers[..i];
        Send(Sync(containers[i].0, containers[i].1), StatusOf(containers[i].1));
      }
      assert containers[..|containers|] == containers;
      SyncAdds(old(View()), containers);
      return answer.accepted && answer.updated;
    }
  }
}
