/** What no interleaving of requests, sweeper and removals upsets, overlapping removals included: each
    container belongs to one request, one parked resource or one client, and a client is sent the
    container of the name it asked for. */
module CreationClaims {
  import opened ResourceStore
  import opened Creation
  import opened CreationProof

  /** The ID was generated for the name. */
  ghost predicate Named(s: State, id: Id, name: string) {
    id in s.ids && s.ids[id] == name
  }

  ghost predicate RequestClaims(s: State, q: Request) {
    && Named(s, q.id, q.name)
    && (Owns(q) ==> q.id !in s.created)
    && (Owns(q) && !q.pc.Undoing? ==> q.id !in s.cleaned)
    && (q.pc.Undoing? ==> q.id in s.cleaned)
    && (q.pc.Inspect? || q.pc.CheckCreated? || q.pc.Replying? ==> Named(s, q.pc.other, q.name))
    && (q.pc.Replying? ==> q.pc.other in s.created)
  }

  ghost predicate ParkedClaims(s: State, n: string)
    requires s.store.Holds(n)
  {
    var j := s.store.entries[n].resource.value;
    Named(s, j.id, n) && j.name == n && j.id !in s.created && j.id !in s.cleaned && Unowned(s, j.id)
  }

  /** A request that was answered is done, and its answer is a created container of its name. */
  ghost predicate AnswerClaims(s: State, r: nat)
    requires r in s.answers
  {
    r < |s.reqs| && s.reqs[r].pc.Done? && Named(s, s.answers[r], s.reqs[r].name) && s.answers[r] in s.created
  }

  ghost predicate ReaperClaims(s: State, j: Job) {
    j.id in s.cleaned && Named(s, j.id, j.name) && Unowned(s, j.id)
  }

  /** Who has been sent to a client is created, who is created has not been cleaned, and what is being
      created or kept is neither. */
  ghost predicate Claims(s: State) {
    && (forall i :: 0 <= i < |s.reqs| ==> RequestClaims(s, s.reqs[i]))
    && (forall i, j :: 0 <= i < j < |s.reqs| ==> s.reqs[i].id != s.reqs[j].id)
    && (forall n :: s.store.Holds(n) ==> ParkedClaims(s, n))
    && (forall n :: n in s.names ==> Named(s, s.names[n], n))
    && (forall r :: r in s.answers ==> AnswerClaims(s, r))
    && (forall j :: j in s.reaper ==> ReaperClaims(s, j))
    && (forall k :: 0 <= k < |s.removals| ==> s.removals[k].id in s.created)
    && s.created !! s.cleaned
    && (forall id :: id in s.created || id in s.cleaned ==> id in s.ids)
  }

  /** Request `r` takes a step: of its own container, or of one that nobody owns, only the flags may
      change. */
  lemma ClaimStep(s: State, t: State, r: nat, id: Id)
    requires Claims(s) && r < |s.reqs| && |t.reqs| == |s.reqs| && t.ids == s.ids && s.reqs[r].pc != Done
    requires t.reqs == s.reqs[r := t.reqs[r]] && t.reqs[r].id == s.reqs[r].id && (Owns(t.reqs[r]) ==> Owns(s.reqs[r]))
    requires t.reqs[r].name == s.reqs[r].name && t.reaper == s.reaper && t.removals == s.removals
    requires id == s.reqs[r].id || Unowned(s, id)
    requires s.created <= t.created <= s.created + {id} && s.cleaned <= t.cleaned <= s.cleaned + {id}
    requires RequestClaims(t, t.reqs[r]) && t.created !! t.cleaned && id in s.ids
    requires forall n :: n in t.names ==> (n in s.names && t.names[n] == s.names[n]) || Named(s, t.names[n], n)
    requires forall k :: k in t.answers ==>
               (k in s.answers && t.answers[k] == s.answers[k]) ||
               (k == r && t.reqs[r].pc.Done? && Named(s, t.answers[k], s.reqs[r].name) && t.answers[k] in t.created)
    requires forall n :: t.store.Holds(n) ==>
               s.store.Holds(n) && t.store.entries[n].resource == s.store.entries[n].resource &&
               (s.store.entries[n].resource.value.id == id ==> t.created == s.created && t.cleaned == s.cleaned)
    ensures Claims(t)
  {
    forall i | 0 <= i < |t.reqs|
      ensures RequestClaims(t, t.reqs[i])
    {
      assert i != r ==> RequestClaims(s, s.reqs[i]) && t.reqs[i] == s.reqs[i];
    }
    forall x | Unowned(s, x)
      ensures Unowned(t, x)
    {
    }
    forall n | t.store.Holds(n)
      ensures ParkedClaims(t, n)
    {
      assert ParkedClaims(s, n);
    }
    forall k | k in t.answers
      ensures AnswerClaims(t, k)
    {
      if k in s.answers && t.answers[k] == s.answers[k] {
        assert AnswerClaims(s, k);
      }
    }
  }

  /** What is parked is no request's own. */
  lemma OwnNotParked(s: State, r: nat)
    requires Claims(s) && r < |s.reqs| && Owns(s.reqs[r])
    ensures forall n :: s.store.Holds(n) ==> s.store.entries[n].resource.value.id != s.reqs[r].id
  {
    forall n | s.store.Holds(n)
      ensures s.store.entries[n].resource.value.id != s.reqs[r].id
    {
      assert ParkedClaims(s, n);
    }
  }

  lemma RetryClaims(s: State, r: nat)
    requires Claims(s) && r < |s.reqs| && IsRetry(s.reqs[r].pc)
    ensures Claims(RetryStep(s, r))
  {
    var q, t := s.reqs[r], RetryStep(s, r);
    assert RequestClaims(s, q);
    OwnNotParked(s, r);
    RetryRecords(s, r);
    if q.pc.TryStore? && s.store.Holds(q.name) {
      TakeClaims(s, r);
    } else {
      assert q.pc.Lookup? && q.name in s.names ==> Named(s, s.names[q.name], q.name);
      ClaimStep(s, t, r, q.id);
    }
  }

  /** What a step of a retry does to the request and the records. */
  lemma RetryRecords(s: State, r: nat)
    requires r < |s.reqs| && IsRetry(s.reqs[r].pc)
    ensures var q, t := s.reqs[r], RetryStep(s, r);
            && |t.reqs| == |s.reqs| && t.reqs == s.reqs[r := q.(pc := t.reqs[r].pc)]
            && t.cleaned == (if t.reqs[r].pc.Undoing? then s.cleaned + {q.id} else s.cleaned)
            && t.ids == s.ids && t.answers == s.answers && t.reaper == s.reaper && t.removals == s.removals && t.lost == s.lost
            && (t.names == s.names || (q.pc.Reserving? && t.reqs[r].pc.Staging? && t.names == s.names[q.name := q.id] && (q.name in s.names ==> s.names[q.name] == q.id)))
            && t.storage == s.storage && t.table == s.table && t.index == s.index && t.runtime == s.runtime
            && (!(q.pc.TryStore? && s.store.Holds(q.name)) ==> t.created == s.created && SameParked(s.store, t.store))
  {
    match s.reqs[r].pc
    case Reserving =>
    case Lookup =>
    case Inspect(o) =>
    case CheckCreated(o) =>
    case TryStore =>
    case Register =>
    case Waiting =>
  }

  /** And a step of a request that has created, answers or undoes. */
  lemma FinishRecords(s: State, r: nat, ok: bool)
    requires r < |s.reqs| && s.reqs[r].pc != Done && !IsRetry(s.reqs[r].pc) && !IsCreate(s.reqs[r].pc)
    ensures var q, t := s.reqs[r], FinishStep(s, r, ok);
            && |t.reqs| == |s.reqs| && t.reqs == s.reqs[r := t.reqs[r]] && t.reqs[r].id == q.id && t.reqs[r].name == q.name
            && t.cleaned == s.cleaned && t.created == (if q.pc.Marking? then s.created + {q.id} else s.created)
            && t.ids == s.ids && t.reaper == s.reaper && t.removals == s.removals
            && t.answers == (if q.pc.Replying? then s.answers[r := q.pc.other] else s.answers)
            && (t.names == s.names || (q.pc.Undoing? && q.cleaner != [] && t.names == s.names - {q.name}))
            && (!q.pc.Parking? ==> SameParked(s.store, t.store))
            && FinishPc(q, t.reqs[r])
  {
    match s.reqs[r].pc
    case Undoing => UndoneRecords(s, r, ok);
    case Deciding =>
    case Parking =>
    case Unstoring =>
    case Marking =>
    case Replying(o) =>
  }

  /** Where such a request goes. */
  predicate FinishPc(q: Request, next: Request) {
    match q.pc
    case Deciding => next.cleaner == q.cleaner && (next.pc.Unstoring? || next.pc.Parking?)
    case Parking => next == q.(pc := Done)
    case Unstoring => next == q.(pc := Marking)
    case Marking => next == q.(pc := Replying(q.id))
    case Replying(_) => next == q.(pc := Done)
    case Undoing => next == q.(pc := Done) || (q.cleaner != [] && next == q.(cleaner := q.cleaner[1..]))
    case _ => true
  }

  lemma UndoneRecords(s: State, r: nat, ok: bool)
    requires r < |s.reqs| && s.reqs[r].pc.Undoing?
    ensures var q, t := s.reqs[r], FinishStep(s, r, ok);
            && |t.reqs| == |s.reqs| && t.reqs == s.reqs[r := t.reqs[r]] && FinishPc(q, t.reqs[r])
            && t.cleaned == s.cleaned && t.created == s.created && t.answers == s.answers && t.store == s.store
            && t.ids == s.ids && t.reaper == s.reaper && t.removals == s.removals
            && (t.names == s.names || (q.cleaner != [] && t.names == s.names - {q.name}))
  {
    if s.reqs[r].cleaner != [] {
      match s.reqs[r].cleaner[0]
      case ReleaseName =>
      case _ =>
    }
  }

  lemma TakeClaims(s: State, r: nat)
    requires Claims(s) && r < |s.reqs| && s.reqs[r].pc.TryStore? && s.store.Holds(s.reqs[r].name)
    ensures Claims(RetryStep(s, r))
  {
    var name := s.reqs[r].name;
    var id := s.store.entries[name].resource.value.id;
    assert RequestClaims(s, s.reqs[r]) && ParkedClaims(s, name);
    forall n | s.store.Holds(n) && n != name
      ensures s.store.entries[n].resource.value.id != id
    {
      assert ParkedClaims(s, n);
    }
    ClaimStep(s, RetryStep(s, r), r, id);
  }

  lemma CreateClaims(s: State, r: nat, ok: bool)
    requires Claims(s) && r < |s.reqs| && IsCreate(s.reqs[r].pc)
    ensures Claims(CreateStep(s, r, ok))
  {
    assert RequestClaims(s, s.reqs[r]);
    OwnNotParked(s, r);
    CreateRecords(s, r, ok);
    ClaimStep(s, CreateStep(s, r, ok), r, s.reqs[r].id);
  }

  /** What a step of a creation does to the request and the records. */
  lemma CreateRecords(s: State, r: nat, ok: bool)
    requires r < |s.reqs| && IsCreate(s.reqs[r].pc)
    ensures var q, t := s.reqs[r], CreateStep(s, r, ok);
            && |t.reqs| == |s.reqs| && t.reqs == s.reqs[r := t.reqs[r]] && t.reqs[r].id == q.id && t.reqs[r].name == q.name
            && (if t.reqs[r].pc.Undoing? then t.cleaned == s.cleaned + {q.id} else IsCreating(t.reqs[r].pc) && t.cleaned == s.cleaned)
            && t.ids == s.ids && t.names == s.names && t.answers == s.answers && t.created == s.created
            && t.reaper == s.reaper && t.removals == s.removals && SameParked(s.store, t.store)
  {
    match s.reqs[r].pc
    case Staging =>
    case Storing =>
    case Adding =>
    case Indexing =>
    case StagingRuntime =>
    case Launching =>
  }

  lemma FinishClaims(s: State, r: nat, ok: bool)
    requires Claims(s) && r < |s.reqs| && s.reqs[r].pc != Done && !IsRetry(s.reqs[r].pc) && !IsCreate(s.reqs[r].pc)
    ensures Claims(FinishStep(s, r, ok))
  {
    assert RequestClaims(s, s.reqs[r]);
    if Owns(s.reqs[r]) {
      OwnNotParked(s, r);
    }
    FinishRecords(s, r, ok);
    if s.reqs[r].pc.Parking? {
      ParkClaims(s, r, ok);
    } else {
      ClaimStep(s, FinishStep(s, r, ok), r, s.reqs[r].id);
    }
  }

  /** A request that parks its container hands it over, or loses sight of it if the slot is taken. */
  lemma ParkClaims(s: State, r: nat, ok: bool)
    requires Claims(s) && r < |s.reqs| && s.reqs[r].pc.Parking?
    ensures Claims(FinishStep(s, r, ok))
  {
    var q, t := s.reqs[r], FinishStep(s, r, ok);
    assert RequestClaims(s, q);
    var done := Moved(s, r, Done);
    ClaimStep(s, done, r, q.id);
    assert Unowned(done, q.id);
    forall i | 0 <= i < |t.reqs|
      ensures RequestClaims(t, t.reqs[i])
    {
      assert RequestClaims(done, done.reqs[i]);
    }
    forall n | t.store.Holds(n)
      ensures ParkedClaims(t, n)
    {
      if s.store.Holds(n) {
        assert ParkedClaims(done, n) && t.store.entries[n].resource == s.store.entries[n].resource;
      }
    }
    forall k | k in t.answers
      ensures AnswerClaims(t, k)
    {
      assert AnswerClaims(done, k);
    }
  }

  lemma ArriveClaims(s: State, name: string, id: Id)
    requires Claims(s) && id !in s.ids
    ensures Claims(Apply(s, Arrive(name, id)))
  {
    var t := Apply(s, Arrive(name, id));
    forall i | 0 <= i < |t.reqs|
      ensures RequestClaims(t, t.reqs[i])
    {
      assert i < |s.reqs| ==> RequestClaims(s, s.reqs[i]) && t.reqs[i] == s.reqs[i];
    }
    forall i, j | 0 <= i < j < |t.reqs|
      ensures t.reqs[i].id != t.reqs[j].id
    {
      assert RequestClaims(s, s.reqs[i]);
    }
    forall x | x in s.ids && Unowned(s, x)
      ensures Unowned(t, x)
    {
    }
    forall n | t.store.Holds(n)
      ensures ParkedClaims(t, n)
    {
      assert ParkedClaims(s, n);
    }
    forall k | k in t.answers
      ensures AnswerClaims(t, k)
    {
      assert AnswerClaims(s, k) && t.reqs[k] == s.reqs[k];
    }
  }

  /** What a sweep hands to cleaners it lists. */
  lemma SweepCleans(s: State, order: seq<string>)
    requires Enabled(s, SweepNow(order))
    ensures var t := Apply(s, SweepNow(order));
            |t.reaper| == |order| && forall id :: id in t.cleaned && id !in s.cleaned ==> exists i :: 0 <= i < |order| && t.reaper[i].id == id
  {
    var t := Apply(s, SweepNow(order));
    forall id | id in t.cleaned && id !in s.cleaned
      ensures exists i :: 0 <= i < |order| && t.reaper[i].id == id
    {
      var j :| j in t.reaper && j.id == id;
    }
  }

  lemma SweepClaims(s: State, order: seq<string>)
    requires Claims(s) && Enabled(s, SweepNow(order))
    ensures Claims(Apply(s, SweepNow(order)))
  {
    var t := Apply(s, SweepNow(order));
    SweptFromParked(s.store);
    forall i | 0 <= i < |order|
      ensures s.store.Holds(order[i]) && ParkedClaims(s, order[i]) && t.reaper[i] == s.store.entries[order[i]].resource.value
    {
      assert order[i] in order;
      assert ParkedClaims(s, order[i]);
    }
    SweepCleans(s, order);
    forall i | 0 <= i < |t.reqs|
      ensures RequestClaims(t, t.reqs[i])
    {
      assert RequestClaims(s, s.reqs[i]);
    }
    forall n | t.store.Holds(n)
      ensures ParkedClaims(t, n)
    {
      assert ParkedClaims(s, n) && n !in order;
    }
    forall k | k in t.answers
      ensures AnswerClaims(t, k)
    {
      assert AnswerClaims(s, k);
    }
    forall j | j in t.reaper
      ensures ReaperClaims(t, j)
    {
      var i :| 0 <= i < |order| && t.reaper[i] == j;
    }
  }

  /** Steps that change neither the requests nor the store nor the flags, and only take names away. */
  lemma SameClaims(s: State, t: State)
    requires Claims(s) && t.reqs == s.reqs && t.store == s.store && t.ids == s.ids
    requires t.created == s.created && t.cleaned == s.cleaned && t.answers == s.answers
    requires forall n :: n in t.names ==> n in s.names && t.names[n] == s.names[n]
    requires forall j :: j in t.reaper ==> ReaperClaims(s, j)
    requires forall k :: 0 <= k < |t.removals| ==> t.removals[k].id in s.created
    ensures Claims(t)
  {
    forall i | 0 <= i < |t.reqs|
      ensures RequestClaims(t, t.reqs[i])
    {
      assert RequestClaims(s, s.reqs[i]);
    }
    forall n | t.store.Holds(n)
      ensures ParkedClaims(t, n)
    {
      assert ParkedClaims(s, n);
    }
    forall k | k in t.answers
      ensures AnswerClaims(t, k)
    {
      assert AnswerClaims(s, k);
    }
  }

  lemma ReapClaims(s: State, ok: bool)
    requires Claims(s) && Enabled(s, Reap(ok))
    ensures Claims(Apply(s, Reap(ok)))
  {
    var t := Apply(s, Reap(ok));
    ReapRecords(s, ok);
    assert ReaperClaims(s, s.reaper[0]);
    SameClaims(s, t);
  }

  lemma ReapRecords(s: State, ok: bool)
    requires s.reaper != []
    ensures var t, j := Apply(s, Reap(ok)), s.reaper[0];
            && t.reqs == s.reqs && t.store == s.store && t.ids == s.ids && t.answers == s.answers && t.removals == s.removals
            && t.created == s.created && t.cleaned == s.cleaned
            && (t.names == s.names || (j.cleaner != [] && t.names == s.names - {j.name}))
            && (forall x :: x in t.reaper ==> x in s.reaper || (x.id == j.id && x.name == j.name))
  {
    if s.reaper[0].cleaner != [] {
      match s.reaper[0].cleaner[0]
      case ReleaseName =>
      case _ =>
    }
  }

  lemma StepClaims(s: State, a: Action)
    requires Claims(s) && Enabled(s, a)
    ensures Claims(Apply(s, a))
  {
    match a
    case Arrive(name, id) => ArriveClaims(s, name, id);
    case Proceed(r, ok) =>
      if IsRetry(s.reqs[r].pc) {
        RetryClaims(s, r);
      } else if IsCreate(s.reqs[r].pc) {
        CreateClaims(s, r, ok);
      } else {
        FinishClaims(s, r, ok);
      }
    case SweepNow(order) => SweepClaims(s, order);
    case Reap(ok) => ReapClaims(s, ok);
    case Remove(id) => SameClaims(s, Apply(s, a));
    case RemoveMore(k, ok) => RemoveClaims(s, k, ok);
  }

  lemma RemoveClaims(s: State, k: nat, ok: bool)
    requires Claims(s) && Enabled(s, RemoveMore(k, ok))
    ensures Claims(Apply(s, RemoveMore(k, ok)))
  {
    RemoveRecords(s, k, ok);
    SameClaims(s, Apply(s, RemoveMore(k, ok)));
  }

  lemma RemoveRecords(s: State, k: nat, ok: bool)
    requires Enabled(s, RemoveMore(k, ok))
    ensures var t := RemoveStep(s, k, ok);
            && t.reqs == s.reqs && t.store == s.store && t.ids == s.ids && t.answers == s.answers && t.reaper == s.reaper
            && t.created == s.created && t.cleaned == s.cleaned && t.lost == s.lost
            && t.names == (if s.removals[k].stage.FromNames? then s.names - {s.ids[s.removals[k].id]} else s.names)
            && |t.removals| == |s.removals| && forall i :: 0 <= i < |t.removals| ==> t.removals[i].id == s.removals[i].id
  {
    match s.removals[k].stage
    case FromRuntime =>
    case FromStorage =>
    case _ =>
  }

  lemma {:induction false} RunClaims(states: seq<State>, actions: seq<Action>, i: nat)
    requires IsRun(states, actions) && i < |states|
    ensures Claims(states[i])
  {
    if i > 0 {
      RunClaims(states, actions, i - 1);
      StepClaims(states[i - 1], actions[i - 1]);
    }
  }

  lemma StepKeepsAnswer(s: State, a: Action, r: nat)
    requires Claims(s) && Enabled(s, a) && r in s.answers
    ensures var t := Apply(s, a); r in t.answers && t.answers[r] == s.answers[r]
  {
    assert AnswerClaims(s, r);
    match a
    case Proceed(k, ok) =>
      if IsRetry(s.reqs[k].pc) {
        RetryRecords(s, k);
      } else if IsCreate(s.reqs[k].pc) {
        CreateRecords(s, k, ok);
      } else {
        FinishRecords(s, k, ok);
      }
    case Reap(ok) => ReapRecords(s, ok);
    case RemoveMore(k, ok) => RemoveRecords(s, k, ok);
    case _ =>
  }

  /** An answer once given stays. */
  lemma {:induction false} AnswerStays(states: seq<State>, actions: seq<Action>, i: nat, j: nat, r: nat)
    requires IsRun(states, actions) && i <= j < |states| && r in states[i].answers
    ensures r in states[j].answers && states[j].answers[r] == states[i].answers[r]
    decreases j
  {
    if i < j {
      AnswerStays(states, actions, i, j - 1, r);
      RunClaims(states, actions, j - 1);
      StepKeepsAnswer(states[j - 1], actions[j - 1], r);
    }
  }

  /** In every interleaving the ID sent to a client was generated for the name the client asked for. */
  lemma AnsweredByName(states: seq<State>, actions: seq<Action>, i: nat, r: nat)
    requires IsRun(states, actions) && i < |states| && r in states[i].answers
    ensures var s := states[i];
            r < |s.reqs| && s.answers[r] in s.ids && s.ids[s.answers[r]] == s.reqs[r].name && s.answers[r] in s.created
  {
    RunClaims(states, actions, i);
    assert AnswerClaims(states[i], r);
  }

  /** In every interleaving, an ID that is ever sent to a client is never handed to a cleaner,
      neither before nor after. */
  lemma ReturnedNeverCleaned(states: seq<State>, actions: seq<Action>, i: nat, j: nat, r: nat)
    requires IsRun(states, actions) && i < |states| && j < |states| && r in states[i].answers
    ensures states[i].answers[r] !in states[j].cleaned
  {
    var k := if i < j then j else i;
    RunMonotone(states, actions, i, k);
    RunMonotone(states, actions, j, k);
    RunClaims(states, actions, i);
    RunClaims(states, actions, k);
    assert AnswerClaims(states[i], r);
  }
}
