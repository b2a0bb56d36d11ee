/** What exists of each container, in every interleaving: one that is created has all its pieces until it
    is removed, and one that is not is owned, parked, being taken apart, lost sight of, or gone. */
module CreationPieces {
  import opened ResourceStore
  import opened Creation
  import opened CreationProof
  import opened CreationClaims

  // ---- the pieces that must be there ----

  /** The pieces that the first k undo functions undo are all there. */
  ghost predicate HasPieces(s: State, id: Id, k: nat) {
    && (2 <= k ==> id in s.storage)
    && (3 <= k ==> id in s.table)
    && (4 <= k ==> id in s.index)
    && (5 <= k ==> id in s.runtime)
  }

  ghost predicate Untouched(s: State, id: Id) {
    forall k :: 0 <= k < |s.removals| ==> s.removals[k].id != id
  }

  ghost predicate ParkedWhole(s: State, n: string)
    requires s.store.Holds(n)
  {
    HasPieces(s, s.store.entries[n].resource.value.id, 5)
  }

  /** A creating request has built what its state says, and what is parked or created is whole. */
  ghost predicate Whole(s: State) {
    && (forall i :: 0 <= i < |s.reqs| && IsCreating(s.reqs[i].pc) ==> HasPieces(s, s.reqs[i].id, Level(s.reqs[i].pc)))
    && (forall n :: s.store.Holds(n) ==> ParkedWhole(s, n))
    && (forall id :: id in s.created && Untouched(s, id) ==> HasPieces(s, id, 5))
  }

  ghost predicate SamePieces(s: State, t: State, x: Id) {
    && (x in t.storage <==> x in s.storage) && (x in t.table <==> x in s.table)
    && (x in t.index <==> x in s.index) && (x in t.runtime <==> x in s.runtime)
  }

  ghost predicate FewerPieces(s: State, t: State, x: Id) {
    && (x in t.storage ==> x in s.storage) && (x in t.table ==> x in s.table)
    && (x in t.index ==> x in s.index) && (x in t.runtime ==> x in s.runtime)
  }

  lemma CreatePieces(s: State, r: nat, ok: bool)
    requires r < |s.reqs| && IsCreate(s.reqs[r].pc)
    ensures var q, t := s.reqs[r], CreateStep(s, r, ok);
            && (forall x :: x != q.id ==> SamePieces(s, t, x))
            && FewerPieces(t, s, q.id) && t.lost == s.lost
  {
    match s.reqs[r].pc
    case Staging =>
    case Storing =>
    case Adding =>
    case Indexing =>
    case StagingRuntime =>
    case Launching =>
  }

  lemma CreateHas(s: State, r: nat, ok: bool)
    requires r < |s.reqs| && IsCreate(s.reqs[r].pc) && HasPieces(s, s.reqs[r].id, Level(s.reqs[r].pc))
    ensures var q, t := s.reqs[r], CreateStep(s, r, ok);
            r < |t.reqs| && (IsCreating(t.reqs[r].pc) ==> HasPieces(t, q.id, Level(t.reqs[r].pc)))
  {
    match s.reqs[r].pc
    case Staging =>
    case Storing =>
    case Adding =>
    case Indexing =>
    case StagingRuntime =>
    case Launching =>
  }

  lemma UndonePieces(s: State, u: Undo, name: string, id: Id)
    ensures var t := Undone(s, u, name, id); (forall x :: x != id ==> SamePieces(s, t, x)) && FewerPieces(s, t, id)
  {
    match u
    case ReleaseName =>
    case DeleteStorage =>
    case RemoveFromTable =>
    case DeleteFromIndex =>
    case DeleteFromRuntime =>
  }

  lemma FinishPieces(s: State, r: nat, ok: bool)
    requires r < |s.reqs| && s.reqs[r].pc != Done && !IsRetry(s.reqs[r].pc) && !IsCreate(s.reqs[r].pc)
    ensures var q, t := s.reqs[r], FinishStep(s, r, ok);
            && (forall x :: x != q.id || !q.pc.Undoing? ==> SamePieces(s, t, x)) && FewerPieces(s, t, q.id)
  {
    match s.reqs[r].pc
    case Undoing =>
      if s.reqs[r].cleaner != [] {
        UndonePieces(s, s.reqs[r].cleaner[0], s.reqs[r].name, s.reqs[r].id);
      }
    case Deciding =>
    case Parking =>
    case Unstoring =>
    case Marking =>
    case Replying(o) =>
  }

  lemma ReapPieces(s: State, ok: bool)
    requires s.reaper != []
    ensures var j, t := s.reaper[0], Apply(s, Reap(ok));
            (forall x :: x != j.id ==> SamePieces(s, t, x)) && FewerPieces(s, t, j.id)
  {
    var j := s.reaper[0];
    if j.cleaner != [] {
      UndonePieces(s, j.cleaner[0], j.name, j.id);
    }
  }

  lemma RemovePieces(s: State, k: nat, ok: bool)
    requires Enabled(s, RemoveMore(k, ok))
    ensures var id, t := s.removals[k].id, RemoveStep(s, k, ok);
            (forall x :: x != id ==> SamePieces(s, t, x)) && FewerPieces(s, t, id)
  {
    match s.removals[k].stage
    case FromRuntime =>
    case FromStorage =>
    case _ =>
  }

  /** Taking pieces from a container that is being cleaned up or removed leaves the others whole. */
  lemma WholeWithout(s: State, t: State, id: Id)
    requires Claims(s) && Whole(s) && (id in s.cleaned || (id in s.created && !Untouched(s, id)))
    requires forall x :: x != id ==> SamePieces(s, t, x)
    requires t.store == s.store && t.created == s.created && forall x :: Untouched(t, x) ==> Untouched(s, x)
    requires |t.reqs| == |s.reqs| && forall i :: 0 <= i < |t.reqs| && IsCreating(t.reqs[i].pc) ==> t.reqs[i] == s.reqs[i]
    ensures Whole(t)
  {
    forall i | 0 <= i < |t.reqs| && IsCreating(t.reqs[i].pc)
      ensures HasPieces(t, t.reqs[i].id, Level(t.reqs[i].pc))
    {
      assert RequestClaims(s, s.reqs[i]) && Owns(s.reqs[i]) && s.reqs[i].id != id;
      assert SamePieces(s, t, s.reqs[i].id);
    }
    forall n | t.store.Holds(n)
      ensures ParkedWhole(t, n)
    {
      assert ParkedClaims(s, n) && ParkedWhole(s, n);
      assert SamePieces(s, t, s.store.entries[n].resource.value.id);
    }
    forall x | x in t.created && Untouched(t, x)
      ensures HasPieces(t, x, 5)
    {
      assert SamePieces(s, t, x);
    }
  }

  lemma RetryWhole(s: State, r: nat)
    requires Claims(s) && Whole(s) && r < |s.reqs| && IsRetry(s.reqs[r].pc)
    ensures Whole(RetryStep(s, r))
  {
    var q, t := s.reqs[r], RetryStep(s, r);
    RetryRecords(s, r);
    var taken := q.pc.TryStore? && s.store.Holds(q.name);
    if taken {
      assert ParkedWhole(s, q.name);
      assert t.created == s.created + {s.store.entries[q.name].resource.value.id};
    }
    forall n | t.store.Holds(n)
      ensures ParkedWhole(t, n)
    {
      assert s.store.Holds(n) && t.store.entries[n].resource == s.store.entries[n].resource;
      assert ParkedWhole(s, n);
    }
    forall i | 0 <= i < |t.reqs| && IsCreating(t.reqs[i].pc)
      ensures HasPieces(t, t.reqs[i].id, Level(t.reqs[i].pc))
    {
      assert i != r ==> t.reqs[i] == s.reqs[i];
      assert i == r ==> t.reqs[i].pc.Staging?;
    }
  }

  lemma CreateWhole(s: State, r: nat, ok: bool)
    requires Claims(s) && Whole(s) && r < |s.reqs| && IsCreate(s.reqs[r].pc)
    ensures Whole(CreateStep(s, r, ok))
  {
    var t := CreateStep(s, r, ok);
    CreateRecords(s, r, ok);
    CreatePieces(s, r, ok);
    CreateHas(s, r, ok);
    forall n | t.store.Holds(n)
      ensures ParkedWhole(t, n)
    {
      assert ParkedWhole(s, n);
    }
    forall i | 0 <= i < |t.reqs| && IsCreating(t.reqs[i].pc)
      ensures HasPieces(t, t.reqs[i].id, Level(t.reqs[i].pc))
    {
      assert i != r ==> t.reqs[i] == s.reqs[i];
    }
  }

  lemma FinishWhole(s: State, r: nat, ok: bool)
    requires Claims(s) && Whole(s) && r < |s.reqs| && s.reqs[r].pc != Done && !IsRetry(s.reqs[r].pc) && !IsCreate(s.reqs[r].pc)
    ensures Whole(FinishStep(s, r, ok))
  {
    var q, t := s.reqs[r], FinishStep(s, r, ok);
    FinishRecords(s, r, ok);
    FinishPieces(s, r, ok);
    assert RequestClaims(s, q);
    if q.pc.Undoing? {
      UndoneRecords(s, r, ok);
      WholeWithout(s, t, q.id);
    } else {
      forall n | t.store.Holds(n)
        ensures ParkedWhole(t, n)
      {
        if s.store.Holds(n) {
          assert ParkedWhole(s, n) && t.store.entries[n].resource == s.store.entries[n].resource;
        }
      }
      forall i | 0 <= i < |t.reqs| && IsCreating(t.reqs[i].pc)
        ensures HasPieces(t, t.reqs[i].id, Level(t.reqs[i].pc))
      {
        assert i != r ==> t.reqs[i] == s.reqs[i];
      }
    }
  }

  lemma SweepWhole(s: State, order: seq<string>)
    requires Claims(s) && Whole(s) && Enabled(s, SweepNow(order))
    ensures Whole(Apply(s, SweepNow(order)))
  {
    var t := Apply(s, SweepNow(order));
    SweptFromParked(s.store);
    forall n | t.store.Holds(n)
      ensures ParkedWhole(t, n)
    {
      assert ParkedWhole(s, n);
    }
  }

  lemma ReapWhole(s: State, ok: bool)
    requires Claims(s) && Whole(s) && Enabled(s, Reap(ok))
    ensures Whole(Apply(s, Reap(ok)))
  {
    ReapRecords(s, ok);
    ReapPieces(s, ok);
    assert ReaperClaims(s, s.reaper[0]);
    WholeWithout(s, Apply(s, Reap(ok)), s.reaper[0].id);
  }

  lemma RemoveWhole(s: State, k: nat, ok: bool)
    requires Claims(s) && Whole(s) && Enabled(s, RemoveMore(k, ok))
    ensures Whole(RemoveStep(s, k, ok))
  {
    RemoveRecords(s, k, ok);
    RemovePieces(s, k, ok);
    WholeWithout(s, RemoveStep(s, k, ok), s.removals[k].id);
  }

  lemma BeginWhole(s: State, id: Id)
    requires Whole(s) && Enabled(s, Remove(id))
    ensures Whole(Apply(s, Remove(id)))
  {
    var t := Apply(s, Remove(id));
    forall n | t.store.Holds(n)
      ensures ParkedWhole(t, n)
    {
      assert ParkedWhole(s, n);
    }
    forall x | Untouched(t, x)
      ensures Untouched(s, x)
    {
      assert forall k :: 0 <= k < |s.removals| ==> t.removals[k] == s.removals[k];
    }
  }

  lemma ArriveWhole(s: State, name: string, id: Id)
    requires Whole(s) && id !in s.ids
    ensures Whole(Apply(s, Arrive(name, id)))
  {
    var t := Apply(s, Arrive(name, id));
    forall n | t.store.Holds(n)
      ensures ParkedWhole(t, n)
    {
      assert ParkedWhole(s, n);
    }
  }

  lemma StepWhole(s: State, a: Action)
    requires Claims(s) && Whole(s) && Enabled(s, a)
    ensures Whole(Apply(s, a))
  {
    match a
    case Arrive(name, id) => ArriveWhole(s, name, id);
    case Proceed(r, ok) =>
      if IsRetry(s.reqs[r].pc) {
        RetryWhole(s, r);
      } else if IsCreate(s.reqs[r].pc) {
        CreateWhole(s, r, ok);
      } else {
        FinishWhole(s, r, ok);
      }
    case SweepNow(order) => SweepWhole(s, order);
    case Reap(ok) => ReapWhole(s, ok);
    case Remove(id) => BeginWhole(s, id);
    case RemoveMore(k, ok) => RemoveWhole(s, k, ok);
  }

  lemma {:induction false} RunWhole(states: seq<State>, actions: seq<Action>, i: nat)
    requires IsRun(states, actions) && i < |states|
    ensures Whole(states[i])
  {
    if i > 0 {
      RunWhole(states, actions, i - 1);
      RunClaims(states, actions, i - 1);
      StepWhole(states[i - 1], actions[i - 1]);
    }
  }

  /** In every interleaving, what a client was sent is in storage, in the table, in the index and in the
      runtime until its removal is asked for; and so is what is parked. */
  lemma AnsweredIsWhole(states: seq<State>, actions: seq<Action>, i: nat, r: nat)
    requires IsRun(states, actions) && i < |states|
    ensures var s := states[i];
            r in s.answers && Untouched(s, s.answers[r]) ==>
              var id := s.answers[r]; id in s.storage && id in s.table && id in s.index && id in s.runtime
    ensures var s := states[i];
            forall n :: s.store.Holds(n) ==>
              var id := s.store.entries[n].resource.value.id; id in s.storage && id in s.table && id in s.index && id in s.runtime
  {
    RunWhole(states, actions, i);
    RunClaims(states, actions, i);
    var s := states[i];
    if r in s.answers {
      assert AnswerClaims(s, r);
    }
    forall n | s.store.Holds(n)
      ensures HasPieces(s, s.store.entries[n].resource.value.id, 5)
    {
      assert ParkedWhole(s, n);
    }
  }
}
