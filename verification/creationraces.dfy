/** Runs that show where the promise of one container per name ends: a removal releases the name
    before it clears the table, and it releases it by name, whoever holds it by then. */
module CreationRaces {
  import opened ResourceStore
  import opened Creation
  import opened CreationProof
  import opened CreationClaims

  // ---- removals that do not overlap are safe ----

  /** No two removals of one container are under way. */
  ghost predicate Serial(s: State) {
    forall i, j :: 0 <= i < j < |s.removals| && s.removals[i].stage != Over && s.removals[j].stage != Over ==>
      s.removals[i].id != s.removals[j].id
  }

  predicate Early(stage: Stage) {
    stage.FromRuntime? || stage.FromStorage? || stage.FromNames?
  }

  /** A container whose removal has not released the name yet holds it. */
  ghost predicate EarlyHold(s: State) {
    forall k :: 0 <= k < |s.removals| && Early(s.removals[k].stage) ==> HoldsName(s, s.removals[k].id)
  }

  lemma RequestKeepsName(s: State, r: nat, ok: bool, x: Id)
    requires Inv(s) && Enabled(s, Proceed(r, ok)) && x in s.created && HoldsName(s, x)
    ensures HoldsName(Apply(s, Proceed(r, ok)), x)
  {
    assert RequestOk(s, s.reqs[r]);
    if IsRetry(s.reqs[r].pc) {
      RetryRecords(s, r);
    } else if IsCreate(s.reqs[r].pc) {
      CreateRecords(s, r, ok);
    } else {
      FinishRecords(s, r, ok);
    }
  }

  lemma ReapKeepsName(s: State, ok: bool, x: Id)
    requires Inv(s) && s.reaper != [] && x in s.created && HoldsName(s, x)
    ensures HoldsName(Apply(s, Reap(ok)), x)
  {
    assert JobOk(s, s.reaper[0]);
  }

  /** Nobody but a removal takes the name from a created container. */
  lemma NameKept(s: State, a: Action, x: Id)
    requires Inv(s) && Enabled(s, a) && x in s.created && HoldsName(s, x)
    requires a.RemoveMore? && s.removals[a.k].stage.FromNames? ==> s.ids[x] != s.ids[s.removals[a.k].id]
    ensures HoldsName(Apply(s, a), x)
  {
    match a
    case Proceed(r, ok) => RequestKeepsName(s, r, ok, x);
    case Reap(ok) => ReapKeepsName(s, ok, x);
    case _ =>
  }

  lemma RemoveKeepsEarly(s: State, k: nat, ok: bool)
    requires Inv(s) && Serial(s) && EarlyHold(s) && Enabled(s, RemoveMore(k, ok))
    ensures EarlyHold(Apply(s, RemoveMore(k, ok)))
  {
    var t := Apply(s, RemoveMore(k, ok));
    forall i | 0 <= i < |t.removals| && Early(t.removals[i].stage)
      ensures HoldsName(t, t.removals[i].id)
    {
      assert RemovalOk(s, s.removals[i]) && HoldsName(s, s.removals[i].id);
      assert i != k ==> s.removals[i].id != s.removals[k].id;
      NameKept(s, RemoveMore(k, ok), s.removals[i].id);
    }
  }

  lemma BeginKeepsEarly(s: State, id: Id)
    requires Inv(s) && EarlyHold(s) && Enabled(s, Remove(id)) && Serial(Apply(s, Remove(id)))
    ensures EarlyHold(Apply(s, Remove(id)))
  {
    var t := Apply(s, Remove(id));
    forall k | 0 <= k < |s.removals| && s.removals[k].id == id
      ensures s.removals[k].stage == Over
    {
      assert t.removals[k] == s.removals[k] && t.removals[|s.removals|].stage != Over;
    }
    assert !Leaving(s, id);
  }

  lemma StepKeepsEarly(s: State, a: Action)
    requires Inv(s) && Serial(s) && EarlyHold(s) && Enabled(s, a) && Serial(Apply(s, a))
    ensures EarlyHold(Apply(s, a))
  {
    match a
    case Remove(id) => BeginKeepsEarly(s, id);
    case RemoveMore(k, ok) => RemoveKeepsEarly(s, k, ok);
    case _ =>
      var t := Apply(s, a);
      SameRemovals(s, a);
      forall k | 0 <= k < |t.removals| && Early(t.removals[k].stage)
        ensures HoldsName(t, t.removals[k].id)
      {
        assert RemovalOk(s, s.removals[k]);
        NameKept(s, a, s.removals[k].id);
      }
  }

  lemma SameRemovals(s: State, a: Action)
    requires Enabled(s, a) && !a.Remove? && !a.RemoveMore?
    ensures Apply(s, a).removals == s.removals
  {
    match a
    case Proceed(r, ok) =>
      if IsRetry(s.reqs[r].pc) {
        RetryRecords(s, r);
      } else if IsCreate(s.reqs[r].pc) {
        CreateRecords(s, r, ok);
      } else {
        FinishRecords(s, r, ok);
      }
    case Reap(ok) => ReapRecords(s, ok);
    case _ =>
  }

  lemma {:induction false} SerialInvariant(states: seq<State>, actions: seq<Action>, i: nat)
    requires IsRun(states, actions) && i < |states| && forall k :: 0 <= k < |states| ==> Serial(states[k])
    ensures Inv(states[i]) && EarlyHold(states[i])
  {
    if i > 0 {
      SerialInvariant(states, actions, i - 1);
      StepKeepsEarly(states[i - 1], actions[i - 1]);
      SerialStepSafe(states[i - 1], actions[i - 1]);
      StepKeeps(states[i - 1], actions[i - 1]);
    }
  }

  lemma SerialStepSafe(s: State, a: Action)
    requires EarlyHold(s) && Enabled(s, a)
    ensures Safe(s, a)
  {
    if a.RemoveMore? && s.removals[a.k].stage.FromNames? {
      assert HoldsName(s, s.removals[a.k].id);
    }
  }

  /** If no two removals of one container overlap, every removal releases its own container's name. */
  lemma SerialIsSafe(states: seq<State>, actions: seq<Action>)
    requires IsRun(states, actions) && forall k :: 0 <= k < |states| ==> Serial(states[k])
    ensures SafeRun(states, actions)
  {
    forall i | 0 <= i < |actions|
      ensures Safe(states[i], actions[i])
    {
      SerialInvariant(states, actions, i);
      SerialStepSafe(states[i], actions[i]);
    }
  }

  // ---- building runs ----

  /** The run leads to the state. */
  ghost predicate Ends(states: seq<State>, actions: seq<Action>, s: State) {
    IsRun(states, actions) && states[|actions|] == s
  }

  /** No more than `n` removals have begun. */
  ghost predicate Removed(states: seq<State>, n: nat) {
    forall k :: 0 <= k < |states| ==> |states[k].removals| <= n
  }

  lemma Extend(states: seq<State>, actions: seq<Action>, s: State, a: Action) returns (longer: seq<State>, more: seq<Action>)
    requires Ends(states, actions, s) && Enabled(s, a)
    ensures Ends(longer, more, Apply(s, a)) && longer == states + [Apply(s, a)] && more == actions + [a]
  {
    longer, more := states + [Apply(s, a)], actions + [a];
  }

  // ---- a request that meets no failure ----

  function WithRequest(s: State, name: string, id: Id, pc: Pc, k: nat): State {
    s.(ids := s.ids[id := name], names := s.names[name := id], reqs := s.reqs + [Request(name, id, pc, Stack(k))])
  }

  function LastAt(t: State, pc: Pc): State
    requires t.reqs != []
  {
    Moved(t, |t.reqs| - 1, pc)
  }

  function Stored(s: State, name: string, id: Id): State {
    WithRequest(s, name, id, Adding, 2).(store := SetStage(s.store, name, "container creating"), storage := s.storage + {id})
  }

  function Added(s: State, name: string, id: Id): State {
    WithRequest(s, name, id, Indexing, 3).(store := SetStage(s.store, name, "container creating"),
      storage := s.storage + {id}, table := s.table + {id})
  }

  function Indexed(s: State, name: string, id: Id): State {
    WithRequest(s, name, id, StagingRuntime, 4).(store := SetStage(s.store, name, "container creating"),
      storage := s.storage + {id}, table := s.table + {id}, index := s.index + {id})
  }

  function ToLaunch(s: State, name: string, id: Id): State {
    var t := Indexed(s, name, id);
    LastAt(t, Launching).(store := SetStage(t.store, name, "container runtime creation"))
  }

  function Launched(s: State, name: string, id: Id): State {
    var t := ToLaunch(s, name, id);
    t.(reqs := s.reqs + [Request(name, id, Deciding, Stack(5))], runtime := s.runtime + {id})
  }

  function CreatedBy(s: State, name: string, id: Id): State {
    var t := Launched(s, name, id);
    LastAt(t, Replying(id)).(store := DeleteFrom(t.store, name), created := s.created + {id})
  }

  lemma StoreSteps(s: State, name: string, id: Id)
    ensures Apply(WithRequest(s, name, id, Staging, 0), Proceed(|s.reqs|, true)) ==
            WithRequest(s, name, id, Storing, 1).(store := SetStage(s.store, name, "container creating"))
    ensures Apply(WithRequest(s, name, id, Storing, 1).(store := SetStage(s.store, name, "container creating")), Proceed(|s.reqs|, true)) ==
            Stored(s, name, id)
  {
    StackGrows(ReleaseName, 0);
    StackGrows(DeleteStorage, 1);
  }

  lemma Stores(states: seq<State>, actions: seq<Action>, s: State, name: string, id: Id, n: nat)
    returns (longer: seq<State>, more: seq<Action>)
    requires Ends(states, actions, s) && Removed(states, n) && id !in s.ids && name !in s.names
    ensures Ends(longer, more, Stored(s, name, id)) && Removed(longer, n)
  {
    var r := |s.reqs|;
    longer, more := Extend(states, actions, s, Arrive(name, id));
    var a := Apply(s, Arrive(name, id));
    longer, more := Extend(longer, more, a, Proceed(r, true));
    var b := Apply(a, Proceed(r, true));
    assert b == WithRequest(s, name, id, Staging, 0);
    longer, more := Extend(longer, more, b, Proceed(r, true));
    StoreSteps(s, name, id);
    var c := WithRequest(s, name, id, Storing, 1).(store := SetStage(s.store, name, "container creating"));
    longer, more := Extend(longer, more, c, Proceed(r, true));
  }

  lemma Adds(states: seq<State>, actions: seq<Action>, s: State, name: string, id: Id, n: nat)
    returns (longer: seq<State>, more: seq<Action>)
    requires Ends(states, actions, s) && Removed(states, n) && id !in s.ids && name !in s.names
    ensures Ends(longer, more, Added(s, name, id)) && Removed(longer, n)
  {
    var r, t := |s.reqs|, Stored(s, name, id);
    longer, more := Stores(states, actions, s, name, id, n);
    longer, more := Extend(longer, more, t, Proceed(r, true));
    StackGrows(RemoveFromTable, 2);
    assert Apply(t, Proceed(r, true)) == Added(s, name, id);
  }

  lemma Indexes(states: seq<State>, actions: seq<Action>, s: State, name: string, id: Id, n: nat)
    returns (longer: seq<State>, more: seq<Action>)
    requires Ends(states, actions, s) && Removed(states, n) && id !in s.ids && name !in s.names
    ensures Ends(longer, more, Indexed(s, name, id)) && Removed(longer, n)
  {
    var r, a := |s.reqs|, Added(s, name, id);
    longer, more := Adds(states, actions, s, name, id, n);
    longer, more := Extend(longer, more, a, Proceed(r, true));
    StackGrows(DeleteFromIndex, 3);
    assert Apply(a, Proceed(r, true)) == Indexed(s, name, id);
  }

  lemma StageStep(t: State)
    requires t.reqs != [] && t.reqs[|t.reqs| - 1].pc == StagingRuntime
    ensures var r := |t.reqs| - 1;
            Apply(t, Proceed(r, true)) == LastAt(t, Launching).(store := SetStage(t.store, t.reqs[r].name, "container runtime creation"))
  {
  }

  lemma LaunchStep(t: State, q: Request)
    requires t.reqs != [] && q == t.reqs[|t.reqs| - 1] && q.pc == Launching && q.cleaner == Stack(4)
    ensures var r := |t.reqs| - 1;
            Apply(t, Proceed(r, true)) == t.(reqs := t.reqs[r := Request(q.name, q.id, Deciding, Stack(5))], runtime := t.runtime + {q.id})
  {
    StackGrows(DeleteFromRuntime, 4);
  }

  lemma Launches(states: seq<State>, actions: seq<Action>, s: State, name: string, id: Id, n: nat)
    returns (longer: seq<State>, more: seq<Action>)
    requires Ends(states, actions, s) && Removed(states, n) && id !in s.ids && name !in s.names
    ensures Ends(longer, more, Launched(s, name, id)) && Removed(longer, n)
  {
    var r := |s.reqs|;
    longer, more := Indexes(states, actions, s, name, id, n);
    StageStep(Indexed(s, name, id));
    longer, more := Extend(longer, more, Indexed(s, name, id), Proceed(r, true));
    LaunchStep(ToLaunch(s, name, id), Request(name, id, Launching, Stack(4)));
    longer, more := Extend(longer, more, ToLaunch(s, name, id), Proceed(r, true));
  }

  lemma Finishes(t: State, store: Store<Job>)
    requires t.reqs != [] && t.reqs[|t.reqs| - 1].pc == Deciding && !t.store.Holds(t.reqs[|t.reqs| - 1].name) && store == DeleteFrom(t.store, t.reqs[|t.reqs| - 1].name)
    ensures var r := |t.reqs| - 1; Apply(t, Proceed(r, true)) == LastAt(t, Unstoring)
    ensures var r := |t.reqs| - 1; Apply(LastAt(t, Unstoring), Proceed(r, true)) == LastAt(t, Marking).(store := store)
    ensures var r, id := |t.reqs| - 1, t.reqs[|t.reqs| - 1].id;
            Apply(LastAt(t, Marking).(store := store), Proceed(r, true)) ==
            LastAt(t, Replying(id)).(store := store, created := t.created + {id})
  {
  }

  lemma Creates(states: seq<State>, actions: seq<Action>, s: State, name: string, id: Id, n: nat)
    returns (longer: seq<State>, more: seq<Action>)
    requires Ends(states, actions, s) && Removed(states, n) && id !in s.ids && name !in s.names && !s.store.Holds(name)
    ensures Ends(longer, more, CreatedBy(s, name, id)) && Removed(longer, n)
  {
    var r, t := |s.reqs|, Launched(s, name, id);
    var store := DeleteFrom(t.store, name);
    longer, more := Launches(states, actions, s, name, id, n);
    Finishes(t, store);
    longer, more := Extend(longer, more, t, Proceed(r, true));
    longer, more := Extend(longer, more, LastAt(t, Unstoring), Proceed(r, true));
    longer, more := Extend(longer, more, LastAt(t, Marking).(store := store), Proceed(r, true));
  }

  // ---- a removal up to the release of the name ----

  function Released(s: State, k: nat): State
    requires k < |s.removals| && s.removals[k].id in s.ids
  {
    var id := s.removals[k].id;
    s.(runtime := s.runtime - {id}, storage := s.storage - {id}, names := s.names - {s.ids[id]},
       removals := s.removals[k := Removal(id, FromTable)])
  }

  lemma Releases(states: seq<State>, actions: seq<Action>, s: State, k: nat, n: nat) returns (longer: seq<State>, more: seq<Action>)
    requires Ends(states, actions, s) && Removed(states, n)
    requires k < |s.removals| && s.removals[k].id in s.ids && s.removals[k].stage == FromRuntime
    ensures Ends(longer, more, Released(s, k)) && Removed(longer, n)
  {
    longer, more := Extend(states, actions, s, RemoveMore(k, true));
    var a := Apply(s, RemoveMore(k, true));
    longer, more := Extend(longer, more, a, RemoveMore(k, true));
    var b := Apply(a, RemoveMore(k, true));
    longer, more := Extend(longer, more, b, RemoveMore(k, true));
    assert Apply(b, RemoveMore(k, true)) == Released(s, k);
  }

  // ---- the races ----

  lemma Begins() returns (states: seq<State>, actions: seq<Action>, s: State)
    ensures Ends(states, actions, s) && s == CreatedBy(INIT, "name", "a") && Removed(states, 0)
  {
    states, actions, s := [INIT], [], CreatedBy(INIT, "name", "a");
    states, actions := Creates(states, actions, INIT, "name", "a", 0);
  }

  /** With a single removal under way, two containers of one name are in the table. */
  lemma TwoInTable() returns (states: seq<State>, actions: seq<Action>)
    ensures IsRun(states, actions) && SafeRun(states, actions)
    ensures var s := states[|actions|];
            "a" in s.table && "b" in s.table && "a" in s.ids && "b" in s.ids && s.ids["a"] == s.ids["b"] && Leaving(s, "a")
  {
    var s: State;
    states, actions, s := Begins();
    states, actions := Extend(states, actions, s, Remove("a"));
    s := Apply(s, Remove("a"));
    states, actions := Releases(states, actions, s, 0, 1);
    s := Released(s, 0);
    states, actions := Adds(states, actions, s, "name", "b", 1);
    s := Added(s, "name", "b");
    assert s.removals[0] == Removal("a", FromTable);
    SerialIsSafe(states, actions);
  }

  /** The name of a removed container is taken while another removal of it is still to come. */
  lemma NameTaken() returns (states: seq<State>, actions: seq<Action>, s: State)
    ensures Ends(states, actions, s) && Removed(states, 2)
    ensures |s.removals| == 2 && s.removals[1] == Removal("a", FromRuntime)
    ensures s.ids == map["a" := "name", "b" := "name"] && s.names == map["name" := "b"] && s.storage == {"b"}
    ensures s.removals[0].id == "a"
  {
    states, actions, s := Begins();
    states, actions := Extend(states, actions, s, Remove("a"));
    s := Apply(s, Remove("a"));
    states, actions := Extend(states, actions, s, Remove("a"));
    s := Apply(s, Remove("a"));
    states, actions := Releases(states, actions, s, 0, 2);
    s := Released(s, 0);
    states, actions := Stores(states, actions, s, "name", "b", 2);
    s := Stored(s, "name", "b");
  }

  lemma NotSafe(states: seq<State>, actions: seq<Action>, id: Id)
    requires IsRun(states, actions) && Live(states[|actions|], id) && id in states[|actions|].ids
    requires !HoldsName(states[|actions|], id) && !Leaving(states[|actions|], id)
    ensures !SafeRun(states, actions)
  {
    if SafeRun(states, actions) {
      OneLiveContainerPerName(states, actions, |actions|, id, id);
    }
  }

  /** Two overlapping removals of one container: the second releases the name of the container
      created meanwhile, and a third container of that name joins it in storage. */
  lemma OverlappingRemovals() returns (states: seq<State>, actions: seq<Action>)
    ensures IsRun(states, actions) && !SafeRun(states, actions)
    ensures var s := states[|actions|];
            && "b" in s.storage && "c" in s.storage && "b" in s.ids && "c" in s.ids && s.ids["b"] == s.ids["c"]
            && !HoldsName(s, "b") && !Leaving(s, "b")
  {
    var s: State;
    states, actions, s := NameTaken();
    states, actions := Releases(states, actions, s, 1, 2);
    s := Released(s, 1);
    states, actions := Stores(states, actions, s, "name", "c", 2);
    NotSafe(states, actions, "b");
  }
}
