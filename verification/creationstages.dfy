/** What a retry is told of the creation it waits for: the stage that creation has reached. */
module CreationStages {
  import opened ResourceStore
  import opened Creation
  import opened CreationProof
  import opened CreationClaims

  /** Between setting its first stage and leaving the store to others. */
  predicate AtStage(pc: Pc) {
    pc.Storing? || pc.Adding? || pc.Indexing? || pc.StagingRuntime? || pc.Launching? || pc.Deciding? || pc.Parking? || pc.Unstoring?
  }

  function StageOf(pc: Pc): string {
    if pc.Storing? || pc.Adding? || pc.Indexing? || pc.StagingRuntime? then "container creating" else "container runtime creation"
  }

  predicate HasStage(s: Store<Job>, name: string, stage: string) {
    name in s.entries && s.entries[name].stage == stage
  }

  ghost predicate Told(s: State, q: Request) {
    AtStage(q.pc) ==> HasStage(s.store, q.name, StageOf(q.pc))
  }

  /** No entry of the name loses its stage. */
  predicate KeepsStage(a: Store<Job>, b: Store<Job>, name: string) {
    name in a.entries ==> name in b.entries && b.entries[name].stage == a.entries[name].stage
  }

  lemma RetryKeepsStage(s: State, r: nat, name: string)
    requires r < |s.reqs| && IsRetry(s.reqs[r].pc) && !s.store.Holds(name)
    ensures KeepsStage(s.store, RetryStep(s, r).store, name)
  {
    match s.reqs[r].pc
    case TryStore =>
    case Register =>
    case _ =>
  }

  lemma CreateKeepsStage(s: State, r: nat, ok: bool, name: string)
    requires r < |s.reqs| && IsCreate(s.reqs[r].pc) && s.reqs[r].name != name
    ensures KeepsStage(s.store, CreateStep(s, r, ok).store, name)
  {
    match s.reqs[r].pc
    case Staging =>
    case StagingRuntime =>
    case _ =>
  }

  lemma FinishKeepsStage(s: State, r: nat, ok: bool, name: string)
    requires r < |s.reqs| && s.reqs[r].pc != Done && !IsRetry(s.reqs[r].pc) && !IsCreate(s.reqs[r].pc)
    requires IsCreating(s.reqs[r].pc) ==> s.reqs[r].name != name
    ensures KeepsStage(s.store, FinishStep(s, r, ok).store, name)
  {
    match s.reqs[r].pc
    case Undoing => UndoneRecords(s, r, ok);
    case Deciding =>
    case Parking =>
    case Unstoring =>
    case Marking =>
    case Replying(_) =>
  }

  /** Of two requests that create, each holds a name of its own. */
  lemma OwnNames(s: State, i: nat, j: nat)
    requires Inv(s) && i < |s.reqs| && j < |s.reqs| && i != j && IsCreating(s.reqs[i].pc) && IsCreating(s.reqs[j].pc)
    ensures s.reqs[i].name != s.reqs[j].name
  {
    assert RequestOk(s, s.reqs[i]) && RequestOk(s, s.reqs[j]);
  }

  /** Nobody else touches the stage of a creation. */
  lemma OthersKeepStage(s: State, a: Action, i: nat)
    requires Inv(s) && Enabled(s, a) && i < |s.reqs| && AtStage(s.reqs[i].pc) && !(a.Proceed? && a.r == i)
    ensures KeepsStage(s.store, Apply(s, a).store, s.reqs[i].name)
  {
    var name := s.reqs[i].name;
    NothingParkedUnderOwnName(s, i);
    match a
    case Proceed(r, ok) =>
      if IsRetry(s.reqs[r].pc) {
        RetryKeepsStage(s, r, name);
      } else {
        if IsCreating(s.reqs[r].pc) {
          OwnNames(s, i, r);
        }
        if IsCreate(s.reqs[r].pc) {
          CreateKeepsStage(s, r, ok, name);
        } else {
          FinishKeepsStage(s, r, ok, name);
        }
      }
    case Reap(ok) => ReapRecords(s, ok);
    case RemoveMore(k, ok) => RemoveRecords(s, k, ok);
    case _ =>
  }

  lemma CreateTold(s: State, r: nat, ok: bool)
    requires r < |s.reqs| && IsCreate(s.reqs[r].pc) && Told(s, s.reqs[r])
    ensures Told(CreateStep(s, r, ok), CreateStep(s, r, ok).reqs[r])
  {
    match s.reqs[r].pc
    case Staging =>
    case Storing =>
    case Adding =>
    case Indexing =>
    case StagingRuntime =>
    case Launching =>
  }

  lemma OwnTold(s: State, r: nat, ok: bool)
    requires r < |s.reqs| && s.reqs[r].pc != Done && Told(s, s.reqs[r])
    ensures var t := Apply(s, Proceed(r, ok)); r < |t.reqs| && Told(t, t.reqs[r])
  {
    if IsRetry(s.reqs[r].pc) {
      RetryRecords(s, r);
      RetryNotAtStage(s, r);
    } else if IsCreate(s.reqs[r].pc) {
      CreateTold(s, r, ok);
      CreateRecords(s, r, ok);
    } else {
      FinishTold(s, r, ok);
    }
  }

  lemma RetryNotAtStage(s: State, r: nat)
    requires r < |s.reqs| && IsRetry(s.reqs[r].pc)
    ensures !AtStage(RetryStep(s, r).reqs[r].pc)
  {
    match s.reqs[r].pc
    case Reserving =>
    case Lookup =>
    case Inspect(_) =>
    case CheckCreated(_) =>
    case TryStore =>
    case Register =>
    case Waiting =>
  }

  lemma FinishTold(s: State, r: nat, ok: bool)
    requires r < |s.reqs| && s.reqs[r].pc != Done && !IsRetry(s.reqs[r].pc) && !IsCreate(s.reqs[r].pc) && Told(s, s.reqs[r])
    ensures var t := FinishStep(s, r, ok); r < |t.reqs| && Told(t, t.reqs[r])
  {
    FinishRecords(s, r, ok);
    if s.reqs[r].pc.Deciding? {
      assert FinishStep(s, r, ok).store == s.store;
    }
  }

  lemma OtherRequests(s: State, a: Action, i: nat)
    requires Enabled(s, a) && i < |s.reqs| && !(a.Proceed? && a.r == i)
    ensures var t := Apply(s, a); i < |t.reqs| && t.reqs[i] == s.reqs[i]
  {
    match a
    case Proceed(r, ok) =>
      if IsRetry(s.reqs[r].pc) {
        RetryRecords(s, r);
      } else if IsCreate(s.reqs[r].pc) {
        CreateRecords(s, r, ok);
      } else {
        FinishRecords(s, r, ok);
      }
    case Reap(ok) => ReapRecords(s, ok);
    case RemoveMore(k, ok) => RemoveRecords(s, k, ok);
    case _ =>
  }

  lemma NewTold(s: State, a: Action, r: nat)
    requires Enabled(s, a) && |s.reqs| <= r < |Apply(s, a).reqs|
    ensures Told(Apply(s, a), Apply(s, a).reqs[r])
  {
    if !a.Arrive? {
      SameRequests(s, a);
    }
  }

  lemma SameRequests(s: State, a: Action)
    requires Enabled(s, a) && !a.Arrive?
    ensures |Apply(s, a).reqs| == |s.reqs|
  {
    match a
    case Proceed(r, ok) =>
      if IsRetry(s.reqs[r].pc) {
        RetryRecords(s, r);
      } else if IsCreate(s.reqs[r].pc) {
        CreateRecords(s, r, ok);
      } else {
        FinishRecords(s, r, ok);
      }
    case Reap(ok) => ReapRecords(s, ok);
    case RemoveMore(k, ok) => RemoveRecords(s, k, ok);
    case _ =>
  }

  lemma StepTold(s: State, a: Action, i: nat)
    requires Inv(s) && Enabled(s, a) && i < |s.reqs| && Told(s, s.reqs[i])
    ensures var t := Apply(s, a); i < |t.reqs| && Told(t, t.reqs[i])
  {
    if a.Proceed? && a.r == i {
      OwnTold(s, i, a.ok);
    } else {
      OtherRequests(s, a, i);
      if AtStage(s.reqs[i].pc) {
        OthersKeepStage(s, a, i);
      }
    }
  }

  lemma NextTold(s: State, a: Action, r: nat)
    requires Inv(s) && Enabled(s, a) && r < |Apply(s, a).reqs|
    ensures Told(Apply(s, a), Apply(s, a).reqs[r]) || (r < |s.reqs| && !Told(s, s.reqs[r]))
  {
    if r >= |s.reqs| {
      NewTold(s, a, r);
    } else if Told(s, s.reqs[r]) {
      StepTold(s, a, r);
    }
  }

  lemma {:induction false} RunTold(states: seq<State>, actions: seq<Action>, i: nat, r: nat)
    requires IsRun(states, actions) && SafeRun(states, actions) && i < |states| && r < |states[i].reqs|
    ensures Told(states[i], states[i].reqs[r])
    decreases i
  {
    if i > 0 {
      var s, a := states[i - 1], actions[i - 1];
      assert Enabled(s, a) && states[i] == Apply(s, a);
      RunInvariant(states, actions, i - 1);
      NextTold(s, a, r);
      if r < |s.reqs| {
        RunTold(states, actions, i - 1, r);
      }
    }
  }

  /** In a run without the release of an heir's name, whoever registers to wait for a creation is told the
      stage it has reached. */
  lemma {:induction false} RetryToldStage(states: seq<State>, actions: seq<Action>, i: nat, r: nat)
    requires IsRun(states, actions) && SafeRun(states, actions) && i < |states| && r < |states[i].reqs| && AtStage(states[i].reqs[r].pc)
    ensures Watch(states[i].store, states[i].reqs[r].name).1 == StageOf(states[i].reqs[r].pc)
  {
    RunTold(states, actions, i, r);
  }
}
