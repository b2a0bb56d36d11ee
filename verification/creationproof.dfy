/** The creation protocol keeps its invariant, and what follows for every run. */
module CreationProof {
  import opened ResourceStore
  import opened Creation

  /** From `s` to `t` only the pieces, the flags and the name of `id` may differ. */
  ghost predicate Touches(s: State, t: State, id: Id) {
    && t.removals == s.removals
    && t.ids == s.ids && id in s.ids
    && s.created <= t.created && s.cleaned <= t.cleaned
    && (forall n :: n != s.ids[id] ==> (n in t.names <==> n in s.names))
    && (forall n :: n != s.ids[id] && n in s.names ==> t.names[n] == s.names[n])
    && (s.ids[id] in s.names && s.names[s.ids[id]] != id ==> s.ids[id] in t.names && t.names[s.ids[id]] == s.names[s.ids[id]])
    && (s.ids[id] in t.names && t.names[s.ids[id]] != id ==> s.ids[id] in s.names && s.names[s.ids[id]] == t.names[s.ids[id]])
    && (forall x :: x != id ==> (x in t.storage <==> x in s.storage))
    && (forall x :: x != id ==> (x in t.table <==> x in s.table))
    && (forall x :: x != id ==> (x in t.index <==> x in s.index))
    && (forall x :: x != id ==> (x in t.runtime <==> x in s.runtime))
    && (forall x :: x != id ==> (x in t.created <==> x in s.created))
    && (forall x :: x != id ==> (x in t.cleaned <==> x in s.cleaned))
  }

  lemma FrameJob(s: State, t: State, id: Id, j: Job)
    requires Touches(s, t, id) && j.id != id && JobOk(s, j)
    ensures JobOk(t, j)
  {
  }

  lemma FrameRequest(s: State, t: State, id: Id, q: Request)
    requires Touches(s, t, id) && RequestOk(s, q) && (Owns(q) ==> q.id != id)
    ensures RequestOk(t, q)
  {
  }

  lemma FrameRegistered(s: State, t: State, id: Id)
    requires Touches(s, t, id) && Registered(s)
    requires id in t.storage || id in t.runtime ==> HoldsName(t, id)
    requires id in t.table || id in t.index ==> HoldsName(t, id) || Leaving(t, id)
    ensures Registered(t)
  {
    assert forall x :: Leaving(t, x) <==> Leaving(s, x);
  }

  /** A step about a container that is not created yet leaves the removals alone. */
  lemma FrameRemovals(s: State, t: State, id: Id)
    requires Touches(s, t, id) && Removals(s) && id !in s.created
    ensures Removals(t)
  {
    forall k | 0 <= k < |t.removals|
      ensures RemovalOk(t, t.removals[k])
    {
      assert RemovalOk(s, s.removals[k]);
    }
  }

  /** What is not created is not being removed. */
  lemma NotLeaving(s: State, id: Id)
    requires Removals(s) && id !in s.created
    ensures !Leaving(s, id)
  {
    forall k | 0 <= k < |s.removals|
      ensures s.removals[k].id != id
    {
      assert RemovalOk(s, s.removals[k]);
    }
  }

  /** A step of request `r` that touches only `id`, which nobody else owns. */
  lemma FrameStep(s: State, t: State, id: Id, r: nat, q: Request)
    requires Inv(s) && Touches(s, t, id) && r < |s.reqs| && id !in s.created
    requires t.reqs == s.reqs[r := q] && q.id == s.reqs[r].id && (Owns(q) ==> Owns(s.reqs[r]))
    requires RequestOk(t, q) && Registered(t) && Published(t)
    requires forall i :: 0 <= i < |s.reqs| && i != r && Owns(s.reqs[i]) ==> s.reqs[i].id != id
    requires t.reaper == s.reaper && forall i :: 0 <= i < |s.reaper| ==> s.reaper[i].id != id
    requires forall n :: t.store.Holds(n) ==>
               && s.store.Holds(n) && t.store.entries[n].resource == s.store.entries[n].resource
               && s.store.entries[n].resource.value.id != id
    ensures Inv(t)
  {
    FrameRemovals(s, t, id);
    forall i | 0 <= i < |t.reqs|
      ensures RequestOk(t, t.reqs[i])
    {
      if i != r {
        assert RequestOk(s, s.reqs[i]);
        FrameRequest(s, t, id, s.reqs[i]);
      }
    }
    forall x | Unowned(s, x)
      ensures Unowned(t, x)
    {
    }
    forall n | t.store.Holds(n)
      ensures ParkedOk(t, n)
    {
      assert ParkedOk(s, n);
      FrameJob(s, t, id, s.store.entries[n].resource.value);
    }
    forall i | 0 <= i < |t.reaper|
      ensures JobOk(t, t.reaper[i])
    {
      FrameJob(s, t, id, s.reaper[i]);
    }
  }

  /** What is parked or being reaped belongs to no request in flight. */
  lemma OwnerIsAlone(s: State, r: nat)
    requires Inv(s) && r < |s.reqs| && Owns(s.reqs[r])
    ensures forall n :: s.store.Holds(n) ==> s.store.entries[n].resource.value.id != s.reqs[r].id
    ensures forall i :: 0 <= i < |s.reaper| ==> s.reaper[i].id != s.reqs[r].id
  {
    forall n | s.store.Holds(n)
      ensures s.store.entries[n].resource.value.id != s.reqs[r].id
    {
      assert ParkedOk(s, n);
    }
  }

  /** Steps that leave the parked resources alone. */
  ghost predicate SameParked(a: Store<Job>, b: Store<Job>) {
    forall n :: b.Holds(n) ==> a.Holds(n) && b.entries[n].resource == a.entries[n].resource
  }

  lemma FailKeeps(s: State, r: nat)
    requires Inv(s) && r < |s.reqs| && Owns(s.reqs[r]) && !s.reqs[r].pc.Undoing?
    ensures Inv(Failed(s, r))
  {
    assert RequestOk(s, s.reqs[r]);
    OwnerIsAlone(s, r);
    FrameRegistered(s, Failed(s, r), s.reqs[r].id);
    FrameStep(s, Failed(s, r), s.reqs[r].id, r, Failed(s, r).reqs[r]);
  }

  /** A step that only moves the request on, and perhaps edits placeholders. */
  lemma MoveKeeps(s: State, r: nat, pc: Pc, store: Store<Job>)
    requires Inv(s) && r < |s.reqs| && SameParked(s.store, store)
    requires var q := s.reqs[r].(pc := pc); RequestOk(s, q) && (Owns(q) ==> Owns(s.reqs[r]))
    ensures Inv(Moved(s, r, pc).(store := store))
  {
    var t := Moved(s, r, pc).(store := store);
    forall i | 0 <= i < |t.reqs|
      ensures RequestOk(t, t.reqs[i])
    {
      assert i != r ==> RequestOk(s, s.reqs[i]);
    }
    forall x | Unowned(s, x)
      ensures Unowned(t, x)
    {
    }
    forall n | t.store.Holds(n)
      ensures ParkedOk(t, n)
    {
      assert ParkedOk(s, n);
    }
  }

  lemma GoKeeps(s: State, r: nat, pc: Pc)
    requires Inv(s) && r < |s.reqs|
    requires var q := s.reqs[r].(pc := pc); RequestOk(s, q) && (Owns(q) ==> Owns(s.reqs[r]))
    ensures Inv(Moved(s, r, pc))
  {
    MoveKeeps(s, r, pc, s.store);
    assert Moved(s, r, pc) == Moved(s, r, pc).(store := s.store);
  }

  lemma TakeKeeps(s: State, r: nat)
    requires Inv(s) && r < |s.reqs| && s.reqs[r].pc.TryStore? && s.store.Holds(s.reqs[r].name)
    ensures Inv(RetryStep(s, r))
  {
    var t, name := RetryStep(s, r), s.reqs[r].name;
    var j := s.store.entries[name].resource.value;
    assert ParkedOk(s, name);
    forall n | t.store.Holds(n)
      ensures s.store.Holds(n) && s.store.entries[n].resource.value.id != j.id
    {
      assert ParkedOk(s, n);
    }
    assert RequestOk(s, s.reqs[r]);
    FrameRegistered(s, t, j.id);
    FrameStep(s, t, j.id, r, t.reqs[r]);
  }

  lemma ReserveKeeps(s: State, r: nat)
    requires Inv(s) && r < |s.reqs| && s.reqs[r].pc.Reserving?
    ensures Inv(RetryStep(s, r))
  {
    var q, t := s.reqs[r], RetryStep(s, r);
    assert RequestOk(s, q);
    if q.name in s.names && s.names[q.name] != q.id {
      GoKeeps(s, r, Lookup);
    } else {
      OwnerIsAlone(s, r);
      FrameRegistered(s, t, q.id);
      FrameStep(s, t, q.id, r, t.reqs[r]);
    }
  }

  lemma RetryKeeps(s: State, r: nat)
    requires Inv(s) && r < |s.reqs| && IsRetry(s.reqs[r].pc)
    ensures Inv(RetryStep(s, r))
  {
    var q := s.reqs[r];
    assert RequestOk(s, q);
    match q.pc
    case Reserving => ReserveKeeps(s, r);
    case Lookup => if q.name in s.names { GoKeeps(s, r, Inspect(s.names[q.name])); } else { FailKeeps(s, r); }
    case Inspect(o) => GoKeeps(s, r, if o in s.table then CheckCreated(o) else TryStore);
    case CheckCreated(o) => GoKeeps(s, r, if o in s.created then Replying(o) else TryStore);
    case TryStore => if s.store.Holds(q.name) { TakeKeeps(s, r); } else { GoKeeps(s, r, Register); }
    case Register =>
      MoveKeeps(s, r, Waiting, Watch(s.store, q.name).0);
    case Waiting => FailKeeps(s, r);
  }

  /** A step that adds one piece of the container together with the function that undoes it. */
  lemma BuildKeeps(s: State, t: State, r: nat)
    requires Inv(s) && r < |s.reqs| && IsCreating(s.reqs[r].pc)
    requires Touches(s, t, s.reqs[r].id) && t.names == s.names && t.created == s.created && t.cleaned == s.cleaned
    requires t.answers == s.answers && t.reaper == s.reaper && SameParked(s.store, t.store)
    requires |t.reqs| == |s.reqs| && t.reqs == s.reqs[r := t.reqs[r]]
    requires t.reqs[r].id == s.reqs[r].id && RequestOk(t, t.reqs[r])
    ensures Inv(t)
  {
    var id := s.reqs[r].id;
    assert RequestOk(s, s.reqs[r]);
    OwnerIsAlone(s, r);
    FrameRegistered(s, t, id);
    FrameStep(s, t, id, r, t.reqs[r]);
  }

  lemma StackGrows(u: Undo, k: nat)
    requires k < 5 && u == Stack(5)[4 - k]
    ensures [u] + Stack(k) == Stack(k + 1)
  {
  }

  lemma StagingKeeps(s: State, r: nat)
    requires Inv(s) && r < |s.reqs| && s.reqs[r].pc.Staging?
    ensures Inv(Pushed(s, r, ReleaseName, Storing).(store := SetStage(s.store, s.reqs[r].name, "container creating")))
  {
    assert RequestOk(s, s.reqs[r]);
    StackGrows(ReleaseName, 0);
    BuildKeeps(s, Pushed(s, r, ReleaseName, Storing).(store := SetStage(s.store, s.reqs[r].name, "container creating")), r);
  }

  lemma StoringKeeps(s: State, r: nat)
    requires Inv(s) && r < |s.reqs| && s.reqs[r].pc.Storing?
    ensures Inv(Pushed(s, r, DeleteStorage, Adding).(storage := s.storage + {s.reqs[r].id}))
  {
    assert RequestOk(s, s.reqs[r]);
    StackGrows(DeleteStorage, 1);
    BuildKeeps(s, Pushed(s, r, DeleteStorage, Adding).(storage := s.storage + {s.reqs[r].id}), r);
  }

  lemma AddingKeeps(s: State, r: nat)
    requires Inv(s) && r < |s.reqs| && s.reqs[r].pc.Adding?
    ensures Inv(Pushed(s, r, RemoveFromTable, Indexing).(table := s.table + {s.reqs[r].id}))
  {
    assert RequestOk(s, s.reqs[r]);
    StackGrows(RemoveFromTable, 2);
    BuildKeeps(s, Pushed(s, r, RemoveFromTable, Indexing).(table := s.table + {s.reqs[r].id}), r);
  }

  lemma IndexingKeeps(s: State, r: nat)
    requires Inv(s) && r < |s.reqs| && s.reqs[r].pc.Indexing?
    ensures Inv(Pushed(s, r, DeleteFromIndex, StagingRuntime).(index := s.index + {s.reqs[r].id}))
  {
    assert RequestOk(s, s.reqs[r]);
    StackGrows(DeleteFromIndex, 3);
    BuildKeeps(s, Pushed(s, r, DeleteFromIndex, StagingRuntime).(index := s.index + {s.reqs[r].id}), r);
  }

  lemma LaunchedOk(s: State, r: nat, t: State)
    requires Inv(s) && r < |s.reqs| && s.reqs[r].pc.Launching?
    requires t == Pushed(s, r, DeleteFromRuntime, Deciding).(runtime := s.runtime + {s.reqs[r].id})
    ensures RequestOk(t, t.reqs[r])
  {
    assert RequestOk(s, s.reqs[r]);
    StackGrows(DeleteFromRuntime, 4);
    assert t.reqs[r] == Request(s.reqs[r].name, s.reqs[r].id, Deciding, Stack(5));
  }

  lemma LaunchingKeeps(s: State, r: nat)
    requires Inv(s) && r < |s.reqs| && s.reqs[r].pc.Launching?
    ensures Inv(Pushed(s, r, DeleteFromRuntime, Deciding).(runtime := s.runtime + {s.reqs[r].id}))
  {
    var t := Pushed(s, r, DeleteFromRuntime, Deciding).(runtime := s.runtime + {s.reqs[r].id});
    LaunchedOk(s, r, t);
    assert RequestOk(s, s.reqs[r]);
    BuildKeeps(s, t, r);
  }

  lemma CreateKeeps(s: State, r: nat, ok: bool)
    requires Inv(s) && r < |s.reqs| && IsCreate(s.reqs[r].pc)
    ensures Inv(CreateStep(s, r, ok))
  {
    var q := s.reqs[r];
    match q.pc
    case Staging => StagingKeeps(s, r);
    case Storing => if ok { StoringKeeps(s, r); } else { FailKeeps(s, r); }
    case Adding => AddingKeeps(s, r);
    case Indexing => if ok { IndexingKeeps(s, r); } else { FailKeeps(s, r); }
    case StagingRuntime =>
      assert RequestOk(s, q);
        MoveKeeps(s, r, Launching, SetStage(s.store, q.name, "container runtime creation"));
    case Launching => if ok { LaunchingKeeps(s, r); } else { FailKeeps(s, r); }
  }

  /** The name the request is about to park under holds no resource yet. */
  lemma NothingParkedUnderOwnName(s: State, r: nat)
    requires Inv(s) && r < |s.reqs| && IsCreating(s.reqs[r].pc)
    ensures !s.store.Holds(s.reqs[r].name)
  {
    assert RequestOk(s, s.reqs[r]);
    OwnerIsAlone(s, r);
    assert s.store.Holds(s.reqs[r].name) ==> ParkedOk(s, s.reqs[r].name);
  }

  lemma AddParked(s: State, j: Job)
    requires Inv(s) && JobOk(s, j) && |j.cleaner| == 5 && j.id !in s.cleaned && Unowned(s, j.id) && !s.store.Holds(j.name)
    ensures Inv(s.(store := PutInto(s.store, j.name, j).0))
  {
    var t := s.(store := PutInto(s.store, j.name, j).0);
    forall n | t.store.Holds(n)
      ensures ParkedOk(t, n)
    {
      if n != j.name {
        assert ParkedOk(s, n);
      }
    }
  }

  /** The invariant does not look at what was answered or lost sight of. */
  lemma Unrecorded(s: State, t: State)
    requires Inv(s) && t == s.(answers := t.answers, lost := t.lost) && forall r :: r in t.answers ==> t.answers[r] in s.created
    ensures Inv(t)
  {
    SameRegistered(s, t);
    forall i | 0 <= i < |t.reqs|
      ensures RequestOk(t, t.reqs[i])
    {
      assert RequestOk(s, s.reqs[i]);
    }
    forall n | t.store.Holds(n)
      ensures ParkedOk(t, n)
    {
      assert ParkedOk(s, n);
    }
    forall i | 0 <= i < |t.reaper|
      ensures JobOk(t, t.reaper[i])
    {
      assert JobOk(s, s.reaper[i]);
    }
    forall k | 0 <= k < |t.removals|
      ensures RemovalOk(t, t.removals[k])
    {
      assert RemovalOk(s, s.removals[k]);
    }
  }

  lemma ParkKeeps(s: State, r: nat)
    requires Inv(s) && r < |s.reqs| && s.reqs[r].pc.Parking?
    ensures Inv(FinishStep(s, r, true))
    ensures PutInto(s.store, s.reqs[r].name, Job(s.reqs[r].name, s.reqs[r].id, s.reqs[r].cleaner)).1
  {
    var q := s.reqs[r];
    assert RequestOk(s, q);
    NothingParkedUnderOwnName(s, r);
    GoKeeps(s, r, Done);
    AddParked(Moved(s, r, Done), Job(q.name, q.id, q.cleaner));
  }

  lemma MarkKeeps(s: State, r: nat)
    requires Inv(s) && r < |s.reqs| && s.reqs[r].pc.Marking?
    ensures Inv(Moved(s, r, Replying(s.reqs[r].id)).(created := s.created + {s.reqs[r].id}))
  {
    var q := s.reqs[r];
    var t := Moved(s, r, Replying(q.id)).(created := s.created + {q.id});
    assert RequestOk(s, q);
    OwnerIsAlone(s, r);
    FrameRegistered(s, t, q.id);
    FrameStep(s, t, q.id, r, t.reqs[r]);
  }

  lemma ReplyKeeps(s: State, r: nat)
    requires Inv(s) && r < |s.reqs| && s.reqs[r].pc.Replying?
    ensures Inv(FinishStep(s, r, true))
  {
    assert RequestOk(s, s.reqs[r]);
    GoKeeps(s, r, Done);
    var m, t := Moved(s, r, Done), FinishStep(s, r, true);
    Unrecorded(m, t);
  }

  lemma UndoneShrinks(s: State, id: Id, name: string, k: nat)
    requires 1 <= k <= 5 && Registered(s) && HoldsName(s, id) && s.ids[id] == name && Undoable(s, id, k) && !Leaving(s, id)
    ensures Stack(k)[1..] == Stack(k - 1)
    ensures var t := Undone(s, Stack(k)[0], name, id);
            && Touches(s, t, id) && Registered(t) && Undoable(t, id, k - 1) && (1 < k ==> HoldsName(t, id))
            && t == s.(names := t.names, storage := t.storage, table := t.table, index := t.index, runtime := t.runtime)
  {
    var t := Undone(s, Stack(k)[0], name, id);
    FrameRegistered(s, t, id);
  }

  function UndoneRequest(s: State, r: nat): State
    requires r < |s.reqs| && s.reqs[r].cleaner != []
  {
    var q := s.reqs[r];
    Undone(s, q.cleaner[0], q.name, q.id).(reqs := s.reqs[r := q.(cleaner := q.cleaner[1..])])
  }

  lemma UndoKeeps(s: State, r: nat)
    requires Inv(s) && r < |s.reqs| && s.reqs[r].pc.Undoing? && s.reqs[r].cleaner != []
    ensures Inv(UndoneRequest(s, r))
  {
    var q, t := s.reqs[r], UndoneRequest(s, r);
    assert RequestOk(s, q);
    OwnerIsAlone(s, r);
    NotLeaving(s, q.id);
    UndoneShrinks(s, q.id, q.name, |q.cleaner|);
    var u := Undone(s, q.cleaner[0], q.name, q.id);
    assert t == u.(reqs := t.reqs);
    FrameStep(s, t, q.id, r, t.reqs[r]);
  }

  lemma DecideKeeps(s: State, r: nat, ok: bool)
    requires Inv(s) && r < |s.reqs| && s.reqs[r].pc.Deciding?
    ensures Inv(Moved(s, r, if ok then Unstoring else Parking))
  {
    assert RequestOk(s, s.reqs[r]);
    GoKeeps(s, r, if ok then Unstoring else Parking);
  }

  lemma UnstoreKeeps(s: State, r: nat)
    requires Inv(s) && r < |s.reqs| && s.reqs[r].pc.Unstoring?
    ensures Inv(FinishStep(s, r, true))
  {
    assert RequestOk(s, s.reqs[r]);
    MoveKeeps(s, r, Marking, DeleteFrom(s.store, s.reqs[r].name));
    Unrecorded(Moved(s, r, Marking).(store := DeleteFrom(s.store, s.reqs[r].name)), FinishStep(s, r, true));
  }

  lemma GiveUpKeeps(s: State, r: nat)
    requires Inv(s) && r < |s.reqs| && s.reqs[r].pc.Undoing?
    ensures Inv(Moved(s, r, Done)) && Inv(Moved(s, r, Done).(lost := s.lost + {s.reqs[r].id}))
  {
    assert RequestOk(s, s.reqs[r]);
    GoKeeps(s, r, Done);
    Unrecorded(Moved(s, r, Done), Moved(s, r, Done).(lost := s.lost + {s.reqs[r].id}));
  }

  lemma FinishKeeps(s: State, r: nat, ok: bool)
    requires Inv(s) && r < |s.reqs| && s.reqs[r].pc != Done && !IsRetry(s.reqs[r].pc) && !IsCreate(s.reqs[r].pc)
    ensures Inv(FinishStep(s, r, ok))
  {
    match s.reqs[r].pc
    case Deciding => DecideKeeps(s, r, ok);
    case Parking => ParkKeeps(s, r);
    case Unstoring => UnstoreKeeps(s, r);
    case Marking => MarkKeeps(s, r);
    case Replying(o) => ReplyKeeps(s, r);
    case Undoing => if s.reqs[r].cleaner == [] || !ok { GiveUpKeeps(s, r); } else { UndoKeeps(s, r); }
  }

  // ---- arrivals, the sweeper, removals ----

  lemma ArriveKeepsRequests(s: State, name: string, id: Id)
    requires Inv(s) && id !in s.ids
    ensures var t := Apply(s, Arrive(name, id)); Registered(t) && Requests(t)
  {
    var t := Apply(s, Arrive(name, id));
    forall i | 0 <= i < |t.reqs|
      ensures RequestOk(t, t.reqs[i])
    {
      assert i < |s.reqs| ==> RequestOk(s, s.reqs[i]);
    }
    forall i, j | 0 <= i < j < |t.reqs|
      ensures t.reqs[i].id != t.reqs[j].id
    {
      assert RequestOk(s, s.reqs[i]);
    }
  }

  lemma ArriveKeeps(s: State, name: string, id: Id)
    requires Inv(s) && id !in s.ids
    ensures Inv(Apply(s, Arrive(name, id)))
  {
    var t := Apply(s, Arrive(name, id));
    ArriveKeepsRequests(s, name, id);
    forall n | t.store.Holds(n)
      ensures ParkedOk(t, n)
    {
      assert ParkedOk(s, n);
    }
  }

  /** The sweep only takes stale resources out and ages the others. */
  lemma SweptFromParked(store: Store<Job>)
    ensures SameParked(store, Sweep(store))
    ensures forall n :: n in Reaped(store) ==> store.Holds(n) && !Sweep(store).Holds(n) && store.entries[n].resource.value == Reaped(store)[n]
  {
  }

  lemma SweepKeeps(s: State, order: seq<string>)
    requires Inv(s) && Enabled(s, SweepNow(order))
    ensures Inv(Apply(s, SweepNow(order)))
  {
    var t := Apply(s, SweepNow(order));
    SweepReaps(s, order);
    SweepKeepsParked(s, order, t);
    SweepKeepsRest(s, order, t);
  }

  /** What the sweep hands to the reaper was parked, and is what it marks as cleaned. */
  lemma SweepReaps(s: State, order: seq<string>)
    requires Parked(s) && Enabled(s, SweepNow(order))
    ensures var t := Apply(s, SweepNow(order));
            (forall i :: 0 <= i < |order| ==> t.reaper[i].name == order[i] && JobOk(s, t.reaper[i]) && Unowned(s, t.reaper[i].id)) &&
            (forall id :: id in t.cleaned ==> id in s.cleaned || exists i :: 0 <= i < |order| && t.reaper[i].id == id)
  {
    var t := Apply(s, SweepNow(order));
    SweptFromParked(s.store);
    forall i | 0 <= i < |order|
      ensures t.reaper[i].name == order[i] && JobOk(s, t.reaper[i]) && Unowned(s, t.reaper[i].id)
    {
      assert order[i] in order;
      assert ParkedOk(s, order[i]);
    }
  }

  lemma SweepKeepsParked(s: State, order: seq<string>, t: State)
    requires Inv(s) && Enabled(s, SweepNow(order)) && t == Apply(s, SweepNow(order))
    requires forall i :: 0 <= i < |order| ==> t.reaper[i].name == order[i] && JobOk(s, t.reaper[i])
    requires forall id :: id in t.cleaned ==> id in s.cleaned || exists i :: 0 <= i < |order| && t.reaper[i].id == id
    ensures Parked(t)
  {
    SweptFromParked(s.store);
    forall n | t.store.Holds(n)
      ensures ParkedOk(t, n)
    {
      assert ParkedOk(s, n);
      assert n !in order;
    }
  }

  lemma SweepKeepsRest(s: State, order: seq<string>, t: State)
    requires Inv(s) && Enabled(s, SweepNow(order)) && t == Apply(s, SweepNow(order))
    requires forall i :: 0 <= i < |order| ==> t.reaper[i].name == order[i] && JobOk(s, t.reaper[i]) && Unowned(s, t.reaper[i].id)
    requires forall id :: id in t.cleaned ==> id in s.cleaned || exists i :: 0 <= i < |order| && t.reaper[i].id == id
    ensures Registered(t) && Requests(t) && Reaping(t) && Published(t)
  {
    forall i | 0 <= i < |t.reqs|
      ensures RequestOk(t, t.reqs[i])
    {
      assert RequestOk(s, s.reqs[i]);
    }
    forall i | 0 <= i < |t.reaper|
      ensures JobOk(t, t.reaper[i]) && t.reaper[i].id in t.cleaned && Unowned(t, t.reaper[i].id)
    {
      assert t.reaper[i] in t.reaper;
    }
  }

  lemma ReapKeeps(s: State, ok: bool)
    requires Inv(s) && s.reaper != []
    ensures Inv(Apply(s, Reap(ok)))
  {
    var j := s.reaper[0];
    if j.cleaner == [] || !ok {
      DropHead(s);
      Unrecorded(s.(reaper := s.reaper[1..]), Apply(s, Reap(ok)));
    } else {
      UndoHead(s);
    }
  }

  lemma DropHead(s: State)
    requires Inv(s) && s.reaper != []
    ensures Inv(s.(reaper := s.reaper[1..]))
  {
    var t := s.(reaper := s.reaper[1..]);
    forall n | t.store.Holds(n)
      ensures ParkedOk(t, n)
    {
      assert ParkedOk(s, n);
    }
  }

  /** The registrar and the removals look at these parts of the state only. */
  lemma SameRegistered(s: State, t: State)
    requires Registered(s) && t.names == s.names && t.ids == s.ids && t.removals == s.removals
    requires t.storage == s.storage && t.table == s.table && t.index == s.index && t.runtime == s.runtime
    ensures Registered(t)
  {
  }

  lemma UndoHead(s: State)
    requires Inv(s) && s.reaper != [] && s.reaper[0].cleaner != []
    ensures var j := s.reaper[0];
            Inv(Undone(s, j.cleaner[0], j.name, j.id).(reaper := [j.(cleaner := j.cleaner[1..])] + s.reaper[1..]))
  {
    var j := s.reaper[0];
    assert JobOk(s, j);
    NotLeaving(s, j.id);
    UndoneShrinks(s, j.id, j.name, |j.cleaner|);
    HeadShrunk(s, Undone(s, j.cleaner[0], j.name, j.id), j);
  }

  lemma HeadShrunk(s: State, u: State, j: Job)
    requires Inv(s) && s.reaper != [] && j == s.reaper[0] && j.cleaner != []
    requires Touches(s, u, j.id) && Registered(u) && Undoable(u, j.id, |j.cleaner| - 1) && (1 < |j.cleaner| ==> HoldsName(u, j.id))
    requires Stack(|j.cleaner|)[1..] == Stack(|j.cleaner| - 1)
    requires u == s.(names := u.names, storage := u.storage, table := u.table, index := u.index, runtime := u.runtime)
    ensures Inv(u.(reaper := [j.(cleaner := j.cleaner[1..])] + s.reaper[1..]))
  {
    var t := u.(reaper := [j.(cleaner := j.cleaner[1..])] + s.reaper[1..]);
    SameRegistered(u, t);
    FrameRemovals(s, t, j.id);
    forall i | 0 <= i < |t.reqs|
      ensures RequestOk(t, t.reqs[i])
    {
      assert RequestOk(s, s.reqs[i]);
      FrameRequest(s, t, j.id, s.reqs[i]);
    }
    forall n | t.store.Holds(n)
      ensures ParkedOk(t, n)
    {
      assert ParkedOk(s, n);
      FrameJob(s, t, j.id, s.store.entries[n].resource.value);
    }
    forall i | 0 <= i < |t.reaper|
      ensures JobOk(t, t.reaper[i]) && t.reaper[i].id == s.reaper[i].id
    {
      if i > 0 {
        FrameJob(s, t, j.id, s.reaper[i]);
      }
    }
  }

  /** Any piece of the container exists: in storage, in the table, in the index or in the runtime. */
  ghost predicate Live(s: State, id: Id) {
    id in s.storage || id in s.table || id in s.index || id in s.runtime
  }

  // ---- removals ----

  /** A step of a removal: `id` is a created container, so nobody creates, parks or reaps it. */
  lemma FrameRemoval(s: State, t: State, id: Id)
    requires Inv(s) && Touches(s.(removals := t.removals), t, id) && id in s.created
    requires t.reqs == s.reqs && t.store == s.store && t.reaper == s.reaper
    requires t.created == s.created && t.cleaned == s.cleaned && t.answers == s.answers
    requires Registered(t) && Removals(t)
    ensures Inv(t)
  {
    forall i | 0 <= i < |t.reqs|
      ensures RequestOk(t, t.reqs[i])
    {
      assert RequestOk(s, s.reqs[i]);
    }
    forall n | t.store.Holds(n)
      ensures ParkedOk(t, n)
    {
      assert ParkedOk(s, n);
    }
    forall i | 0 <= i < |t.reaper|
      ensures JobOk(t, t.reaper[i])
    {
      assert JobOk(s, s.reaper[i]);
    }
  }

  /** A second removal of a container may begin while the first is under way. */
  lemma BeginRemoval(s: State, id: Id)
    requires Inv(s) && Enabled(s, Remove(id))
    ensures Inv(Apply(s, Remove(id)))
  {
    var t := Apply(s, Remove(id));
    forall x | Leaving(s, x)
      ensures Leaving(t, x)
    {
      var k :| 0 <= k < |s.removals| && s.removals[k].id == x && (s.removals[k].stage.FromTable? || s.removals[k].stage.FromIndex?);
      assert t.removals[k] == s.removals[k];
    }
    forall k | 0 <= k < |t.removals|
      ensures RemovalOk(t, t.removals[k])
    {
      assert k < |s.removals| ==> RemovalOk(s, s.removals[k]) && t.removals[k] == s.removals[k];
    }
    FrameRemoval(s, t, id);
  }

  lemma OtherRemovals(s: State, t: State, k: nat)
    requires Removals(s) && k < |s.removals|
    requires Touches(s.(removals := t.removals), t, s.removals[k].id) && t.created == s.created && t.names == s.names
    requires t.storage <= s.storage && t.table <= s.table && t.runtime <= s.runtime
    requires |t.removals| == |s.removals| && t.removals == s.removals[k := t.removals[k]]
    requires RemovalOk(t, t.removals[k])
    ensures Removals(t)
  {
    forall i | 0 <= i < |t.removals|
      ensures RemovalOk(t, t.removals[i])
    {
      if i != k {
        assert RemovalOk(s, s.removals[i]) && t.removals[i] == s.removals[i];
      }
    }
  }

  /** Who is leaving stays so, but for a container whose removal ends. */
  lemma StillLeaving(s: State, t: State, k: nat)
    requires k < |s.removals| && |t.removals| == |s.removals| && t.removals == s.removals[k := t.removals[k]]
    requires t.removals[k].id == s.removals[k].id
    requires s.removals[k].stage.FromTable? ==> t.removals[k].stage.FromIndex?
    ensures forall x :: Leaving(s, x) && (x != s.removals[k].id || !s.removals[k].stage.FromIndex?) ==> Leaving(t, x)
  {
    forall x | Leaving(s, x) && (x != s.removals[k].id || !s.removals[k].stage.FromIndex?)
      ensures Leaving(t, x)
    {
      var i :| 0 <= i < |s.removals| && s.removals[i].id == x && (s.removals[i].stage.FromTable? || s.removals[i].stage.FromIndex?);
      assert i != k ==> t.removals[i] == s.removals[i];
    }
  }

  lemma RegisteredAfter(s: State, t: State, k: nat, ok: bool)
    requires Registered(s) && k < |s.removals| && s.removals[k].stage != Over && !s.removals[k].stage.FromNames?
    requires RemovalOk(s, s.removals[k]) && t == RemoveStep(s, k, ok)
    ensures Registered(t)
  {
    StillLeaving(s, t, k);
    forall x | x in t.table || x in t.index
      ensures HoldsName(t, x) || Leaving(t, x)
    {
      assert x in s.table || x in s.index;
    }
  }

  /** Who is created is neither creating nor parked nor being reaped, and no longer in storage or the
      runtime when its name is released; so the name is missed by nobody but an heir. */
  lemma ReleaseKeeps(s: State, k: nat, ok: bool)
    requires Inv(s) && Enabled(s, RemoveMore(k, ok)) && s.removals[k].stage.FromNames? && ReleasesSafely(s, k)
    ensures Inv(RemoveStep(s, k, ok))
  {
    var t, id := RemoveStep(s, k, ok), s.removals[k].id;
    assert RemovalOk(s, s.removals[k]);
    StillLeaving(s, t, k);
    assert t.removals[k] == Removal(id, FromTable) && Leaving(t, id);
    assert forall x :: HoldsName(t, x) <==> HoldsName(s, x) && s.ids[x] != s.ids[id];
    ReleasedRequests(s, t, k);
    forall i | 0 <= i < |t.removals|
      ensures RemovalOk(t, t.removals[i])
    {
      assert RemovalOk(s, s.removals[i]);
    }
  }

  lemma ReleasedRequests(s: State, t: State, k: nat)
    requires Inv(s) && k < |s.removals| && s.removals[k].stage.FromNames? && s.removals[k].id in s.ids && ReleasesSafely(s, k)
    requires t == RemoveStep(s, k, true)
    requires forall x :: HoldsName(t, x) <==> HoldsName(s, x) && s.ids[x] != s.ids[s.removals[k].id]
    ensures Requests(t) && Parked(t) && Reaping(t)
  {
    assert RemovalOk(s, s.removals[k]);
    forall i | 0 <= i < |t.reqs|
      ensures RequestOk(t, t.reqs[i])
    {
      assert RequestOk(s, s.reqs[i]);
    }
    forall n | t.store.Holds(n)
      ensures ParkedOk(t, n)
    {
      assert ParkedOk(s, n);
    }
    forall i | 0 <= i < |t.reaper|
      ensures JobOk(t, t.reaper[i])
    {
      assert JobOk(s, s.reaper[i]);
    }
  }

  /** Each step of a removal keeps the invariant, however many removals of the container there are,
      as long as it releases no name that an heir needs. */
  lemma RemovalKeeps(s: State, k: nat, ok: bool)
    requires Inv(s) && Enabled(s, RemoveMore(k, ok)) && ReleasesSafely(s, k)
    ensures Inv(RemoveStep(s, k, ok))
  {
    var t := RemoveStep(s, k, ok);
    assert RemovalOk(s, s.removals[k]);
    if s.removals[k].stage.FromNames? {
      ReleaseKeeps(s, k, ok);
    } else {
      RegisteredAfter(s, t, k, ok);
      PieceRemoved(s, t, k, ok);
      OtherRemovals(s, t, k);
      FrameRemoval(s, t, s.removals[k].id);
    }
  }

  lemma PieceRemoved(s: State, t: State, k: nat, ok: bool)
    requires k < |s.removals| && s.removals[k].stage != Over && !s.removals[k].stage.FromNames?
    requires RemovalOk(s, s.removals[k]) && t == RemoveStep(s, k, ok)
    ensures Touches(s.(removals := t.removals), t, s.removals[k].id) && RemovalOk(t, t.removals[k])
  {
  }

  /** The condition is exact: a release that takes the name from an heir breaks the invariant, and if
      any piece of the heir exists it is live without its name at once. */
  lemma ReleaseExactly(s: State, k: nat, ok: bool)
    requires Inv(s) && Enabled(s, RemoveMore(k, ok)) && s.removals[k].stage.FromNames?
    ensures Inv(RemoveStep(s, k, ok)) <==> ReleasesSafely(s, k)
    ensures var t, n := RemoveStep(s, k, ok), s.ids[s.removals[k].id];
            n in s.names && s.names[n] != s.removals[k].id && Live(s, s.names[n]) ==>
              Live(t, s.names[n]) && !HoldsName(t, s.names[n]) && !Leaving(t, s.names[n])
  {
    var t, id := RemoveStep(s, k, ok), s.removals[k].id;
    var n := s.ids[id];
    if ReleasesSafely(s, k) {
      ReleaseKeeps(s, k, ok);
    }
    if n in s.names && s.names[n] != id {
      HeirLosesName(s, t, k);
      if Inv(t) {
        HeirIsIdle(s, t, s.names[n]);
      }
    }
  }

  lemma HeirLosesName(s: State, t: State, k: nat)
    requires Inv(s) && k < |s.removals| && s.removals[k].stage.FromNames? && s.removals[k].id in s.ids
    requires t == RemoveStep(s, k, true) && s.ids[s.removals[k].id] in s.names
    requires s.names[s.ids[s.removals[k].id]] != s.removals[k].id
    ensures var o := s.names[s.ids[s.removals[k].id]]; !HoldsName(t, o) && !Leaving(t, o)
  {
    var o := s.names[s.ids[s.removals[k].id]];
    assert HoldsName(s, o);
    forall i | 0 <= i < |t.removals| && t.removals[i].id == o
      ensures !t.removals[i].stage.FromTable? && !t.removals[i].stage.FromIndex?
    {
      assert RemovalOk(s, s.removals[i]) && t.removals[i] == s.removals[i];
    }
  }

  lemma HeirIsIdle(s: State, t: State, o: Id)
    requires Inv(t) && !HoldsName(t, o) && !Leaving(t, o)
    requires t.storage == s.storage && t.table == s.table && t.index == s.index && t.runtime == s.runtime
    requires t.reqs == s.reqs && t.store == s.store && t.reaper == s.reaper
    ensures Idle(s, o)
  {
    forall i | 0 <= i < |s.reqs| && s.reqs[i].id == o
      ensures !IsCreating(s.reqs[i].pc) && !(s.reqs[i].pc.Undoing? && s.reqs[i].cleaner != [])
    {
      assert RequestOk(t, t.reqs[i]);
    }
    forall n | s.store.Holds(n)
      ensures s.store.entries[n].resource.value.id != o
    {
      assert ParkedOk(t, n);
    }
    forall i | 0 <= i < |s.reaper| && s.reaper[i].id == o
      ensures s.reaper[i].cleaner == []
    {
      assert JobOk(t, t.reaper[i]);
    }
  }

  lemma StepKeeps(s: State, a: Action)
    requires Inv(s) && Enabled(s, a) && Safe(s, a)
    ensures Inv(Apply(s, a))
  {
    match a
    case Arrive(name, id) => ArriveKeeps(s, name, id);
    case Proceed(r, ok) =>
      if IsRetry(s.reqs[r].pc) {
        RetryKeeps(s, r);
      } else if IsCreate(s.reqs[r].pc) {
        CreateKeeps(s, r, ok);
      } else {
        FinishKeeps(s, r, ok);
      }
    case SweepNow(order) => SweepKeeps(s, order);
    case Reap(ok) => ReapKeeps(s, ok);
    case Remove(id) => BeginRemoval(s, id);
    case RemoveMore(k, ok) => RemovalKeeps(s, k, ok);
  }

  lemma RetryKeepsStore(s: State, r: nat)
    requires r < |s.reqs| && Valid(s.store)
    ensures Valid(RetryStep(s, r).store)
  {
    match s.reqs[r].pc
    case TryStore => GetKeepsValid(s.store, s.reqs[r].name);
    case Register => WatchKeepsValid(s.store, s.reqs[r].name);
    case _ =>
  }

  lemma CreateKeepsStore(s: State, r: nat, ok: bool)
    requires r < |s.reqs| && Valid(s.store)
    ensures Valid(CreateStep(s, r, ok).store)
  {
    match s.reqs[r].pc
    case Staging => SetStageKeepsValid(s.store, s.reqs[r].name, "container creating");
    case StagingRuntime => SetStageKeepsValid(s.store, s.reqs[r].name, "container runtime creation");
    case _ =>
  }

  lemma FinishKeepsStore(s: State, r: nat, ok: bool)
    requires r < |s.reqs| && Valid(s.store)
    ensures Valid(FinishStep(s, r, ok).store)
  {
    var q := s.reqs[r];
    match q.pc
    case Parking => PutKeepsValid(s.store, q.name, Job(q.name, q.id, q.cleaner));
    case Unstoring => DeleteKeepsValid(s.store, q.name);
    case _ =>
  }

  lemma StepKeepsStore(s: State, a: Action)
    requires Enabled(s, a) && Valid(s.store)
    ensures Valid(Apply(s, a).store)
  {
    match a
    case SweepNow(order) => SweepKeepsValid(s.store);
    case Proceed(r, ok) => RetryKeepsStore(s, r); CreateKeepsStore(s, r, ok); FinishKeepsStore(s, r, ok);
    case _ =>
  }

  ghost predicate Later(s: State, t: State) {
    s.created <= t.created && s.cleaned <= t.cleaned && s.lost <= t.lost
  }

  lemma ProceedLater(s: State, r: nat, ok: bool)
    requires r < |s.reqs|
    ensures Later(s, RetryStep(s, r)) && Later(s, CreateStep(s, r, ok))
  {
  }

  lemma FinishLater(s: State, r: nat, ok: bool)
    requires r < |s.reqs|
    ensures Later(s, FinishStep(s, r, ok))
  {
  }

  // ---- every run ----

  lemma {:induction false} RunInvariant(states: seq<State>, actions: seq<Action>, i: nat)
    requires IsRun(states, actions) && SafeRun(states, actions) && i < |states|
    ensures Inv(states[i]) && Valid(states[i].store)
  {
    if i > 0 {
      RunInvariant(states, actions, i - 1);
      StepKeeps(states[i - 1], actions[i - 1]);
      StepKeepsStore(states[i - 1], actions[i - 1]);
    }
  }

  /** The invariant holds throughout a run if and only if no removal releases the name of an heir. */
  lemma RunInvariantExactly(states: seq<State>, actions: seq<Action>)
    requires IsRun(states, actions)
    ensures (forall i :: 0 <= i < |states| ==> Inv(states[i])) <==> SafeRun(states, actions)
  {
    if SafeRun(states, actions) {
      forall i | 0 <= i < |states|
        ensures Inv(states[i])
      {
        RunInvariant(states, actions, i);
      }
    }
    if forall i :: 0 <= i < |states| ==> Inv(states[i]) {
      forall i | 0 <= i < |actions|
        ensures Safe(states[i], actions[i])
      {
        StepSafe(states[i], actions[i], states[i + 1]);
      }
    }
  }

  lemma StepSafe(s: State, a: Action, t: State)
    requires Inv(s) && Enabled(s, a) && t == Apply(s, a) && Inv(t)
    ensures Safe(s, a)
  {
    if a.RemoveMore? && s.removals[a.k].stage.FromNames? {
      ReleaseExactly(s, a.k, a.ok);
    }
  }

  /** What is created, has been handed to a cleaner or was lost sight of stays so. */
  lemma {:induction false} RunMonotone(states: seq<State>, actions: seq<Action>, i: nat, j: nat)
    requires IsRun(states, actions) && i <= j < |states|
    ensures Later(states[i], states[j])
  {
    forall k | 0 <= k < |actions|
      ensures Later(states[k], states[k + 1])
    {
      NextLater(states, actions, k);
    }
    ChainLater(states, i, j);
  }

  lemma {:induction false} ChainLater(states: seq<State>, i: nat, j: nat)
    requires i <= j < |states| && forall k :: 0 <= k < |states| - 1 ==> Later(states[k], states[k + 1])
    ensures Later(states[i], states[j])
    decreases j
  {
    if i < j {
      ChainLater(states, i, j - 1);
      assert Later(states[j - 1], states[j - 1 + 1]);
    }
  }

  lemma NextLater(states: seq<State>, actions: seq<Action>, i: nat)
    requires IsRun(states, actions) && i < |actions|
    ensures Later(states[i], states[i + 1])
  {
    StepLater(states[i], actions[i]);
  }

  lemma StepLater(s: State, a: Action)
    requires Enabled(s, a)
    ensures Later(s, Apply(s, a))
  {
    if a.Proceed? {
      ProceedLater(s, a.r, a.ok);
      FinishLater(s, a.r, a.ok);
    }
  }

  /** A container any piece of which still exists holds its name exactly when no removal of it has
      released it and is still to clear the table and the index, all that is left of it then. So at
      most one container per name is ever in storage or in the runtime, and of two in the table or
      the index one is on its way out. */
  lemma OneLiveContainerPerName(states: seq<State>, actions: seq<Action>, i: nat, a: Id, b: Id)
    requires IsRun(states, actions) && SafeRun(states, actions) && i < |states|
    requires Live(states[i], a) && Live(states[i], b)
    requires a in states[i].ids && b in states[i].ids && states[i].ids[a] == states[i].ids[b]
    ensures HoldsName(states[i], a) <==> !Leaving(states[i], a)
    ensures Leaving(states[i], a) ==> a !in states[i].storage && a !in states[i].runtime
    ensures a == b || Leaving(states[i], a) || Leaving(states[i], b)
  {
    RunInvariant(states, actions, i);
    var s := states[i];
    if Leaving(s, a) {
      var k :| 0 <= k < |s.removals| && s.removals[k].id == a && (s.removals[k].stage.FromTable? || s.removals[k].stage.FromIndex?);
      assert RemovalOk(s, s.removals[k]);
    }
  }

  /** A resource held by the store under a name is the container the registrar knows by it, and
      the Put of a parking request always finds its slot free. */
  lemma StoreAgreesWithRegistrar(states: seq<State>, actions: seq<Action>, i: nat)
    requires IsRun(states, actions) && SafeRun(states, actions) && i < |states|
    ensures forall n :: states[i].store.Holds(n) ==>
              n in states[i].names && states[i].names[n] == states[i].store.entries[n].resource.value.id
    ensures forall r :: 0 <= r < |states[i].reqs| && states[i].reqs[r].pc.Parking? ==>
              !states[i].store.Holds(states[i].reqs[r].name)
  {
    var s := states[i];
    RunInvariant(states, actions, i);
    forall n | s.store.Holds(n)
      ensures n in s.names && s.names[n] == s.store.entries[n].resource.value.id
    {
      assert ParkedOk(s, n);
    }
    forall r | 0 <= r < |s.reqs| && s.reqs[r].pc.Parking?
      ensures !s.store.Holds(s.reqs[r].name)
    {
      NothingParkedUnderOwnName(s, r);
    }
  }

  /** A cleaner, whether run by the sweeper or by a failing request, releases its own name and
      only once nothing else is left of the container. */
  lemma NameReleasedLast(states: seq<State>, actions: seq<Action>, i: nat)
    requires IsRun(states, actions) && SafeRun(states, actions) && i < |states|
    ensures var s := states[i];
            s.reaper != [] && s.reaper[0].cleaner != [] && s.reaper[0].cleaner[0] == ReleaseName ==>
              var j := s.reaper[0]; !Live(s, j.id) && j.name in s.names && s.names[j.name] == j.id
    ensures var s := states[i];
            forall r :: 0 <= r < |s.reqs| && s.reqs[r].pc.Undoing? && s.reqs[r].cleaner != [] && s.reqs[r].cleaner[0] == ReleaseName ==>
              var q := s.reqs[r]; !Live(s, q.id) && q.name in s.names && s.names[q.name] == q.id
  {
    var s := states[i];
    RunInvariant(states, actions, i);
    forall r | 0 <= r < |s.reqs| && s.reqs[r].pc.Undoing? && s.reqs[r].cleaner != [] && s.reqs[r].cleaner[0] == ReleaseName
      ensures !Live(s, s.reqs[r].id) && s.reqs[r].name in s.names && s.names[s.reqs[r].name] == s.reqs[r].id
    {
      assert RequestOk(s, s.reqs[r]);
    }
  }
}
