/** The idempotent-creation protocol: every CreateContainer request in flight, the sweeper that
    reaps parked containers, and the removal of created ones, interleaved at will. Each critical
    section of the source is one atomic step; environment outcomes (a failing runtime, an expired
    context, an undo function given up) are choices carried by the action. */
module Creation {
  import opened Sequences
  import opened ResourceStore

  type Id = string

  datatype Undo = ReleaseName | DeleteStorage | RemoveFromTable | DeleteFromIndex | DeleteFromRuntime

  /** A container's name and ID with the undo functions still to run, newest first. */
  datatype Job = Job(name: string, id: Id, cleaner: seq<Undo>)

  datatype Pc =
    // retry: the name was already reserved
    | Reserving | Lookup | Inspect(other: Id) | CheckCreated(other: Id) | TryStore | Register | Waiting
    // creation
    | Staging | Storing | Adding | Indexing | StagingRuntime | Launching | Deciding | Parking | Unstoring | Marking
    // outcome
    | Replying(other: Id) | Undoing | Done

  datatype Request = Request(name: string, id: Id, pc: Pc, cleaner: seq<Undo>)

  /** What a removal of a created container does next. */
  datatype Stage = FromRuntime | FromStorage | FromNames | FromTable | FromIndex | Over

  datatype Removal = Removal(id: Id, stage: Stage)

  datatype State = State(
    names: map<string, Id>,          // the registrar
    store: Store<Job>,
    storage: set<Id>, table: set<Id>, index: set<Id>, runtime: set<Id>,
    created: set<Id>,                // the flag on the container object
    ids: map<Id, string>,            // every ID ever generated, with the name it was generated for
    reqs: seq<Request>,
    reaper: seq<Job>,                // what the sweeper still has to clean up, head first
    cleaned: set<Id>,                // IDs whose cleaner has been started
    removals: seq<Removal>,          // every RemoveContainer request that found its container
    answers: map<nat, Id>,           // by request, the ID its client was sent
    lost: set<Id>)                   // IDs the server has lost sight of: an undo function was given up,
                                     // or the store did not take or keep the container

  datatype Action =
    | Arrive(name: string, id: Id)
    | Proceed(r: nat, ok: bool)
    | SweepNow(order: seq<string>)
    | Reap(ok: bool)
    | Remove(id: Id)
    | RemoveMore(k: nat, ok: bool)

  const INIT := State(map[], Empty(), {}, {}, {}, {}, {}, map[], [], [], {}, [], map[], {})

  // ---- the program of one request ----

  function Undone(s: State, u: Undo, name: string, id: Id): State {
    match u
    case ReleaseName => s.(names := s.names - {name})
    case DeleteStorage => s.(storage := s.storage - {id})
    case RemoveFromTable => s.(table := s.table - {id})
    case DeleteFromIndex => s.(index := s.index - {id})
    case DeleteFromRuntime => s.(runtime := s.runtime - {id})
  }

  function Moved(s: State, r: nat, pc: Pc): State
    requires r < |s.reqs|
  {
    s.(reqs := s.reqs[r := s.reqs[r].(pc := pc)])
  }

  function Pushed(s: State, r: nat, u: Undo, pc: Pc): State
    requires r < |s.reqs|
  {
    s.(reqs := s.reqs[r := s.reqs[r].(pc := pc, cleaner := [u] + s.reqs[r].cleaner)])
  }

  /** The deferred clean-up begins. */
  function Failed(s: State, r: nat): State
    requires r < |s.reqs|
  {
    Moved(s, r, Undoing).(cleaned := s.cleaned + {s.reqs[r].id})
  }

  function RetryStep(s: State, r: nat): State
    requires r < |s.reqs|
  {
    var q := s.reqs[r];
    match q.pc
    case Reserving =>
      if q.name in s.names && s.names[q.name] != q.id then Moved(s, r, Lookup)
      else Moved(s, r, Staging).(names := s.names[q.name := q.id])
    case Lookup => if q.name in s.names then Moved(s, r, Inspect(s.names[q.name])) else Failed(s, r)
    case Inspect(o) => if o in s.table then Moved(s, r, CheckCreated(o)) else Moved(s, r, TryStore)
    case CheckCreated(o) => if o in s.created then Moved(s, r, Replying(o)) else Moved(s, r, TryStore)
    case TryStore =>
      var (store, found) := GetFrom(s.store, q.name);
      if found.Some?
      then Moved(s, r, Replying(found.value.id)).(store := store, created := s.created + {found.value.id})
      else Moved(s, r, Register)
    case Register => Moved(s, r, Waiting).(store := Watch(s.store, q.name).0)
    case Waiting => Failed(s, r)
    case _ => s
  }

  function CreateStep(s: State, r: nat, ok: bool): State
    requires r < |s.reqs|
  {
    var q := s.reqs[r];
    match q.pc
    case Staging => Pushed(s, r, ReleaseName, Storing).(store := SetStage(s.store, q.name, "container creating"))
    case Storing => if ok then Pushed(s, r, DeleteStorage, Adding).(storage := s.storage + {q.id}) else Failed(s, r)
    case Adding => Pushed(s, r, RemoveFromTable, Indexing).(table := s.table + {q.id})
    case Indexing => if ok then Pushed(s, r, DeleteFromIndex, StagingRuntime).(index := s.index + {q.id}) else Failed(s, r)
    case StagingRuntime => Moved(s, r, Launching).(store := SetStage(s.store, q.name, "container runtime creation"))
    case Launching => if ok then Pushed(s, r, DeleteFromRuntime, Deciding).(runtime := s.runtime + {q.id}) else Failed(s, r)
    case _ => s
  }

  function FinishStep(s: State, r: nat, ok: bool): State
    requires r < |s.reqs|
  {
    var q := s.reqs[r];
    match q.pc
    case Deciding => if ok then Moved(s, r, Unstoring) else Moved(s, r, Parking)   // ok: the context is still live
    case Parking =>
      var (store, taken) := PutInto(s.store, q.name, Job(q.name, q.id, q.cleaner));
      Moved(s, r, Done).(store := store, lost := if taken then s.lost else s.lost + {q.id})
    case Unstoring =>
      Moved(s, r, Marking).(store := DeleteFrom(s.store, q.name),
        lost := if s.store.Holds(q.name) then s.lost + {s.store.entries[q.name].resource.value.id} else s.lost)
    case Marking => Moved(s, r, Replying(q.id)).(created := s.created + {q.id})
    case Replying(o) => Moved(s, r, Done).(answers := s.answers[r := o])
    case Undoing =>
      if q.cleaner == [] then Moved(s, r, Done)
      else if !ok then Moved(s, r, Done).(lost := s.lost + {q.id})
      else Undone(s, q.cleaner[0], q.name, q.id).(reqs := s.reqs[r := q.(cleaner := q.cleaner[1..])])
    case _ => s
  }

  // ---- the program of a removal ----

  function Staged(s: State, k: nat, stage: Stage): State
    requires k < |s.removals|
  {
    s.(removals := s.removals[k := s.removals[k].(stage := stage)])
  }

  /** removeContainerInPod after the container has stopped. The name goes before the table and the
      index do, and it is released by name, whoever holds it. Deleting from the index fails only for
      an ID that is not in it. */
  function RemoveStep(s: State, k: nat, ok: bool): State
    requires k < |s.removals| && s.removals[k].id in s.ids
  {
    var id := s.removals[k].id;
    match s.removals[k].stage
    case FromRuntime => if ok then Staged(s, k, FromStorage).(runtime := s.runtime - {id}) else Staged(s, k, Over)
    case FromStorage => if ok then Staged(s, k, FromNames).(storage := s.storage - {id}) else Staged(s, k, Over)
    case FromNames => Staged(s, k, FromTable).(names := s.names - {s.ids[id]})
    case FromTable => Staged(s, k, FromIndex).(table := s.table - {id})
    case FromIndex => Staged(s, k, Over).(index := s.index - {id})
    case Over => s
  }

  predicate IsRetry(pc: Pc) {
    pc.Reserving? || pc.Lookup? || pc.Inspect? || pc.CheckCreated? || pc.TryStore? || pc.Register? || pc.Waiting?
  }

  predicate IsCreate(pc: Pc) {
    pc.Staging? || pc.Storing? || pc.Adding? || pc.Indexing? || pc.StagingRuntime? || pc.Launching?
  }

  // ---- the transition system ----

  ghost predicate Enabled(s: State, a: Action) {
    match a
    case Arrive(name, id) => id !in s.ids
    case Proceed(r, ok) => r < |s.reqs| && s.reqs[r].pc != Done
    case SweepNow(order) =>
      s.reaper == [] && NoDuplicates(order) && forall n :: n in order <==> n in Reaped(s.store)
    case Reap(ok) => s.reaper != []
    case Remove(id) => id in s.table && id in s.created && id in s.ids
    case RemoveMore(k, ok) => k < |s.removals| && s.removals[k].stage != Over && s.removals[k].id in s.ids
  }

  function Apply(s: State, a: Action): State
    requires Enabled(s, a)
  {
    match a
    case Arrive(name, id) =>
      s.(ids := s.ids[id := name], reqs := s.reqs + [Request(name, id, Reserving, [])])
    case Proceed(r, ok) =>
      if IsRetry(s.reqs[r].pc) then RetryStep(s, r)
      else if IsCreate(s.reqs[r].pc) then CreateStep(s, r, ok)
      else FinishStep(s, r, ok)
    case SweepNow(order) =>
      var jobs := seq(|order|, i requires 0 <= i < |order| => assert order[i] in order; Reaped(s.store)[order[i]]);
      s.(store := Sweep(s.store), reaper := jobs, cleaned := s.cleaned + set j | j in jobs :: j.id)
    case Reap(ok) =>
      var j := s.reaper[0];
      if j.cleaner == [] then s.(reaper := s.reaper[1..])
      else if !ok then s.(reaper := s.reaper[1..], lost := s.lost + {j.id})
      else Undone(s, j.cleaner[0], j.name, j.id).(reaper := [j.(cleaner := j.cleaner[1..])] + s.reaper[1..])
    case Remove(id) => s.(removals := s.removals + [Removal(id, FromRuntime)])
    case RemoveMore(k, ok) => RemoveStep(s, k, ok)
  }

  ghost predicate IsRun(states: seq<State>, actions: seq<Action>) {
    && |states| == |actions| + 1
    && states[0] == INIT
    && forall i :: 0 <= i < |actions| ==> Enabled(states[i], actions[i]) && states[i + 1] == Apply(states[i], actions[i])
  }

  // ---- the invariant ----

  /** The cleaner after the first `k` undo functions were added. */
  function Stack(k: nat): (r: seq<Undo>)
    ensures |r| == if k <= 5 then k else 5
  {
    [DeleteFromRuntime, DeleteFromIndex, RemoveFromTable, DeleteStorage, ReleaseName][if k <= 5 then 5 - k else 0..]
  }

  /** The ID holds its name in the registrar. */
  ghost predicate HoldsName(s: State, id: Id) {
    id in s.ids && s.ids[id] in s.names && s.names[s.ids[id]] == id
  }

  /** The pieces of the container that exist are among those the `k` undo functions undo. */
  ghost predicate Undoable(s: State, id: Id, k: nat) {
    && (id in s.storage ==> 2 <= k)
    && (id in s.table ==> 3 <= k)
    && (id in s.index ==> 4 <= k)
    && (id in s.runtime ==> 5 <= k)
  }

  /** How many undo functions a request in creation has added. */
  function Level(pc: Pc): nat {
    match pc
    case Storing => 1
    case Adding => 2
    case Indexing => 3
    case StagingRuntime | Launching => 4
    case Deciding | Parking | Unstoring | Marking => 5
    case _ => 0
  }

  predicate IsCreating(pc: Pc) {
    IsCreate(pc) || pc.Deciding? || pc.Parking? || pc.Unstoring? || pc.Marking?
  }

  /** A request that may still create, park, publish or undo its own container. */
  predicate Owns(q: Request) {
    IsRetry(q.pc) || IsCreating(q.pc) || q.pc.Undoing?
  }

  ghost predicate RequestOk(s: State, q: Request) {
    && q.id in s.ids && s.ids[q.id] == q.name
    && (Owns(q) ==> q.id !in s.created && q.cleaner == Stack(|q.cleaner|) && Undoable(s, q.id, |q.cleaner|))
    && (Owns(q) && !q.pc.Undoing? ==> q.id !in s.cleaned && |q.cleaner| == Level(q.pc))
    && (q.pc.Undoing? ==> q.id in s.cleaned)
    && (IsCreating(q.pc) || (q.pc.Undoing? && q.cleaner != []) ==> HoldsName(s, q.id))
    && (q.pc.Replying? ==> q.pc.other in s.created)
  }

  ghost predicate JobOk(s: State, j: Job) {
    && j.id in s.ids && s.ids[j.id] == j.name
    && j.id !in s.created
    && j.cleaner == Stack(|j.cleaner|) && Undoable(s, j.id, |j.cleaner|)
    && (j.cleaner != [] ==> HoldsName(s, j.id))
  }

  ghost predicate Unowned(s: State, id: Id) {
    forall i :: 0 <= i < |s.reqs| && Owns(s.reqs[i]) ==> s.reqs[i].id != id
  }

  ghost predicate ParkedOk(s: State, n: string)
    requires s.store.Holds(n)
  {
    var j := s.store.entries[n].resource.value;
    j.name == n && JobOk(s, j) && |j.cleaner| == 5 && j.id !in s.cleaned && Unowned(s, j.id)
  }

  /** A removal has released the container's name and has not finished. */
  ghost predicate Leaving(s: State, id: Id) {
    exists k :: 0 <= k < |s.removals| && s.removals[k].id == id && (s.removals[k].stage.FromTable? || s.removals[k].stage.FromIndex?)
  }

  ghost predicate Registered(s: State) {
    && (forall n :: n in s.names ==> HoldsName(s, s.names[n]) && s.ids[s.names[n]] == n)
    && (forall id :: id in s.storage || id in s.runtime ==> HoldsName(s, id))
    && (forall id :: id in s.table || id in s.index ==> HoldsName(s, id) || Leaving(s, id))
  }

  ghost predicate RemovalOk(s: State, m: Removal) {
    && m.id in s.ids && m.id in s.created
    && (m.stage.FromStorage? ==> m.id !in s.runtime)
    && (m.stage.FromNames? || m.stage.FromTable? || m.stage.FromIndex? ==> m.id !in s.runtime && m.id !in s.storage)
    && (m.stage.FromTable? || m.stage.FromIndex? ==> !HoldsName(s, m.id))
    && (m.stage.FromIndex? ==> m.id !in s.table)
  }

  ghost predicate Removals(s: State) {
    forall k :: 0 <= k < |s.removals| ==> RemovalOk(s, s.removals[k])
  }

  ghost predicate Requests(s: State) {
    && (forall i :: 0 <= i < |s.reqs| ==> RequestOk(s, s.reqs[i]))
    && (forall i, j :: 0 <= i < j < |s.reqs| ==> s.reqs[i].id != s.reqs[j].id)
  }

  ghost predicate Parked(s: State) {
    forall n :: s.store.Holds(n) ==> ParkedOk(s, n)
  }

  ghost predicate Reaping(s: State) {
    && (forall i :: 0 <= i < |s.reaper| ==> JobOk(s, s.reaper[i]) && s.reaper[i].id in s.cleaned && Unowned(s, s.reaper[i].id))
    && (forall i, j :: 0 <= i < j < |s.reaper| ==> s.reaper[i].id != s.reaper[j].id)
  }

  ghost predicate Published(s: State) {
    && (forall r :: r in s.answers ==> s.answers[r] in s.created)
    && s.created !! s.cleaned
    && (forall id :: id in s.created || id in s.cleaned ==> id in s.ids)
  }

  ghost predicate Inv(s: State) {
    Registered(s) && Requests(s) && Parked(s) && Reaping(s) && Published(s) && Removals(s)
  }

  // ---- the release of a name ----

  /** Nothing of the container exists, and nobody is creating it, keeping it or has parts of it to undo. */
  ghost predicate Idle(s: State, id: Id) {
    && id !in s.storage && id !in s.table && id !in s.index && id !in s.runtime
    && (forall i :: 0 <= i < |s.reqs| && s.reqs[i].id == id ==>
         !IsCreating(s.reqs[i].pc) && !(s.reqs[i].pc.Undoing? && s.reqs[i].cleaner != []))
    && (forall n :: s.store.Holds(n) ==> s.store.entries[n].resource.value.id != id)
    && (forall i :: 0 <= i < |s.reaper| && s.reaper[i].id == id ==> s.reaper[i].cleaner == [])
  }

  /** A removal about to release its container's name finds the name free, held by that container, or
      held by one of which nothing is left. */
  ghost predicate ReleasesSafely(s: State, k: nat)
    requires k < |s.removals| && s.removals[k].id in s.ids
  {
    var id := s.removals[k].id;
    var n := s.ids[id];
    s.removals[k].stage.FromNames? && n in s.names && s.names[n] != id ==> Idle(s, s.names[n])
  }

  ghost predicate Safe(s: State, a: Action)
    requires Enabled(s, a)
  {
    a.RemoveMore? ==> ReleasesSafely(s, a.k)
  }

  /** No removal of the run releases a name that a successor of its container needs. */
  ghost predicate SafeRun(states: seq<State>, actions: seq<Action>)
    requires IsRun(states, actions)
  {
    forall i :: 0 <= i < |actions| ==> Safe(states[i], actions[i])
  }
}
