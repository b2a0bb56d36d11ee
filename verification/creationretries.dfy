/** A client that gives up and asks again: what an expired context leaves behind, and what the next
    request for the name is given. */
module CreationRetries {
  import opened ResourceStore
  import opened Creation
  import opened CreationProof
  import opened CreationRaces

  lemma DecideStep(s: State, r: nat, ok: bool)
    requires r < |s.reqs| && s.reqs[r].pc.Deciding?
    ensures Apply(s, Proceed(r, ok)) == Moved(s, r, if ok then Unstoring else Parking)
  {
  }

  lemma ParkStep(s: State, r: nat, ok: bool)
    requires r < |s.reqs| && s.reqs[r].pc.Parking? && !s.store.Holds(s.reqs[r].name)
    ensures var q := s.reqs[r];
            Apply(s, Proceed(r, ok)) == Moved(s, r, Done).(store := PutInto(s.store, q.name, Job(q.name, q.id, q.cleaner)).0)
  {
  }

  lemma UnstoreStep(s: State, r: nat, ok: bool)
    requires r < |s.reqs| && s.reqs[r].pc.Unstoring? && !s.store.Holds(s.reqs[r].name)
    ensures Apply(s, Proceed(r, ok)) == Moved(s, r, Marking).(store := DeleteFrom(s.store, s.reqs[r].name))
  {
  }

  lemma MarkStep(s: State, r: nat, ok: bool)
    requires r < |s.reqs| && s.reqs[r].pc.Marking?
    ensures Apply(s, Proceed(r, ok)) == Moved(s, r, Replying(s.reqs[r].id)).(created := s.created + {s.reqs[r].id})
  {
  }

  lemma ReplyStep(s: State, r: nat, ok: bool)
    requires r < |s.reqs| && s.reqs[r].pc.Replying?
    ensures Apply(s, Proceed(r, ok)) == Moved(s, r, Done).(answers := s.answers[r := s.reqs[r].pc.other])
  {
  }

  /** With the client gone the finished container is parked, whole, under its name with its cleaner;
      nobody is sent its ID and nothing is taken apart. */
  lemma ExpiredParks(states: seq<State>, actions: seq<Action>, s: State, r: nat) returns (longer: seq<State>, more: seq<Action>, t: State)
    requires Ends(states, actions, s) && Inv(s) && r < |s.reqs| && s.reqs[r].pc.Deciding?
    ensures Ends(longer, more, t) && more == actions + [Proceed(r, false), Proceed(r, true)] && Inv(t)
    ensures var q := s.reqs[r];
            && t.store.Holds(q.name) && t.store.entries[q.name].resource.value == Job(q.name, q.id, Stack(5))
            && t == Moved(s, r, Done).(store := t.store)
  {
    assert RequestOk(s, s.reqs[r]);
    NothingParkedUnderOwnName(s, r);
    StepKeeps(s, Proceed(r, false));
    DecideStep(s, r, false);
    longer, more := Extend(states, actions, s, Proceed(r, false));
    t := Moved(s, r, Parking);
    StepKeeps(t, Proceed(r, true));
    ParkStep(t, r, true);
    longer, more := Extend(longer, more, t, Proceed(r, true));
    t := Apply(t, Proceed(r, true));
  }

  lemma Marks(states: seq<State>, actions: seq<Action>, s: State, r: nat) returns (longer: seq<State>, more: seq<Action>)
    requires Ends(states, actions, s) && r < |s.reqs| && s.reqs[r].pc.Marking?
    ensures var id := s.reqs[r].id;
            Ends(longer, more, Moved(s, r, Done).(created := s.created + {id}, answers := s.answers[r := id]))
    ensures more == actions + [Proceed(r, true), Proceed(r, true)]
  {
    MarkStep(s, r, true);
    longer, more := Extend(states, actions, s, Proceed(r, true));
    var t := Moved(s, r, Replying(s.reqs[r].id)).(created := s.created + {s.reqs[r].id});
    ReplyStep(t, r, true);
    longer, more := Extend(longer, more, t, Proceed(r, true));
  }

  lemma Unstores(states: seq<State>, actions: seq<Action>, s: State, r: nat) returns (longer: seq<State>, more: seq<Action>)
    requires Ends(states, actions, s) && r < |s.reqs| && s.reqs[r].pc.Deciding? && !s.store.Holds(s.reqs[r].name)
    ensures Ends(longer, more, Moved(s, r, Marking).(store := DeleteFrom(s.store, s.reqs[r].name)))
    ensures more == actions + [Proceed(r, true), Proceed(r, true)]
  {
    DecideStep(s, r, true);
    longer, more := Extend(states, actions, s, Proceed(r, true));
    UnstoreStep(Moved(s, r, Unstoring), r, true);
    longer, more := Extend(longer, more, Moved(s, r, Unstoring), Proceed(r, true));
  }

  /** With the client still there the container is created and its ID is the answer; nothing of that
      name is left in the store. */
  lemma LiveAnswers(states: seq<State>, actions: seq<Action>, s: State, r: nat) returns (longer: seq<State>, more: seq<Action>, t: State)
    requires Ends(states, actions, s) && Inv(s) && r < |s.reqs| && s.reqs[r].pc.Deciding?
    ensures Ends(longer, more, t) && more == actions + [Proceed(r, true), Proceed(r, true), Proceed(r, true), Proceed(r, true)]
    ensures var id := s.reqs[r].id;
            && t == Moved(s, r, Done).(store := t.store, created := s.created + {id}, answers := s.answers[r := id])
            && !t.store.Holds(s.reqs[r].name)
  {
    NothingParkedUnderOwnName(s, r);
    longer, more := Unstores(states, actions, s, r);
    t := Moved(s, r, Marking).(store := DeleteFrom(s.store, s.reqs[r].name));
    longer, more := Marks(longer, more, t, r);
    t := Moved(t, r, Done).(created := s.created + {s.reqs[r].id}, answers := s.answers[r := s.reqs[r].id]);
  }

  /** What a request that finds a parked container under its name leaves. */
  function Served(s: State, name: string, id: Id, pc: Pc): State {
    s.(ids := s.ids[id := name], reqs := s.reqs + [Request(name, id, pc, [])])
  }

  /** From arrival to the look into the store: the name is taken and its holder not created. */
  lemma Retries(states: seq<State>, actions: seq<Action>, s: State, name: string, id: Id) returns (longer: seq<State>, more: seq<Action>)
    requires Ends(states, actions, s) && id !in s.ids && name in s.names && s.names[name] != id && s.names[name] !in s.created
    ensures Ends(longer, more, Served(s, name, id, TryStore)) && states <= longer && actions <= more
  {
    var r, held := |s.reqs|, s.names[name];
    longer, more := Extend(states, actions, s, Arrive(name, id));
    longer, more := Extend(longer, more, Served(s, name, id, Reserving), Proceed(r, true));
    RetrySteps(s, name, id);
    longer, more := Extend(longer, more, Served(s, name, id, Lookup), Proceed(r, true));
    longer, more := Extend(longer, more, Served(s, name, id, Inspect(held)), Proceed(r, true));
    if held in s.table {
      longer, more := Extend(longer, more, Served(s, name, id, CheckCreated(held)), Proceed(r, true));
    }
  }

  lemma RetrySteps(s: State, name: string, id: Id)
    requires name in s.names && s.names[name] != id && s.names[name] !in s.created
    ensures var r, held := |s.reqs|, s.names[name];
            && Apply(Served(s, name, id, Reserving), Proceed(r, true)) == Served(s, name, id, Lookup)
            && Apply(Served(s, name, id, Lookup), Proceed(r, true)) == Served(s, name, id, Inspect(held))
            && Apply(Served(s, name, id, Inspect(held)), Proceed(r, true)) ==
               Served(s, name, id, if held in s.table then CheckCreated(held) else TryStore)
            && Apply(Served(s, name, id, CheckCreated(held)), Proceed(r, true)) == Served(s, name, id, TryStore)
  {
  }

  /** The look into the store takes what is parked there, marks it created and answers with it. */
  lemma TakesParked(s: State, r: nat)
    requires r < |s.reqs| && s.reqs[r].pc.TryStore? && s.store.Holds(s.reqs[r].name)
    ensures var name, parked := s.reqs[r].name, s.store.entries[s.reqs[r].name].resource.value.id;
            var taken := Apply(s, Proceed(r, true));
            && taken == Moved(s, r, Replying(parked)).(store := taken.store, created := s.created + {parked}) && !taken.store.Holds(name)
            && Apply(taken, Proceed(r, true)) == Moved(s, r, Done).(store := taken.store, created := s.created + {parked}, answers := s.answers[r := parked])
  {
  }

  /** Whatever the state of a run without the release of an heir's name, a request for a name under
      which a container is parked is answered with that container when it is left to run: it is then
      created, no longer parked, and nothing of it has been taken apart. */
  lemma ParkedIsReturned(states: seq<State>, actions: seq<Action>, s: State, name: string, id: Id)
    returns (longer: seq<State>, more: seq<Action>, t: State)
    requires Ends(states, actions, s) && Inv(s) && s.store.Holds(name) && id !in s.ids
    ensures Ends(longer, more, t) && states <= longer && actions <= more
    ensures var parked := s.store.entries[name].resource.value.id;
            && t.answers == s.answers[|s.reqs| := parked] && t.created == s.created + {parked} && !t.store.Holds(name)
            && t.cleaned == s.cleaned && t.storage == s.storage && t.table == s.table && t.index == s.index && t.runtime == s.runtime && t.names == s.names
  {
    var r := |s.reqs|;
    assert ParkedOk(s, name);
    longer, more := Retries(states, actions, s, name, id);
    t := Served(s, name, id, TryStore);
    TakesParked(t, r);
    longer, more := Extend(longer, more, t, Proceed(r, true));
    t := Apply(t, Proceed(r, true));
    longer, more := Extend(longer, more, t, Proceed(r, true));
    t := Apply(t, Proceed(r, true));
  }

  /** A request for the name of a container that is created already, and in the table, is answered with
      it and changes nothing else. */
  lemma CreatedIsReturned(states: seq<State>, actions: seq<Action>, s: State, name: string, id: Id)
    returns (longer: seq<State>, more: seq<Action>)
    requires Ends(states, actions, s) && id !in s.ids && name in s.names && s.names[name] != id
    requires s.names[name] in s.table && s.names[name] in s.created
    ensures Ends(longer, more, Served(s, name, id, Done).(answers := s.answers[|s.reqs| := s.names[name]]))
  {
    var r, held := |s.reqs|, s.names[name];
    CreatedSteps(s, name, id);
    longer, more := Extend(states, actions, s, Arrive(name, id));
    longer, more := Extend(longer, more, Served(s, name, id, Reserving), Proceed(r, true));
    longer, more := Extend(longer, more, Served(s, name, id, Lookup), Proceed(r, true));
    longer, more := Extend(longer, more, Served(s, name, id, Inspect(held)), Proceed(r, true));
    longer, more := Extend(longer, more, Served(s, name, id, CheckCreated(held)), Proceed(r, true));
    longer, more := Extend(longer, more, Served(s, name, id, Replying(held)), Proceed(r, true));
  }

  lemma CreatedSteps(s: State, name: string, id: Id)
    requires name in s.names && s.names[name] != id && s.names[name] in s.table && s.names[name] in s.created
    ensures var r, held := |s.reqs|, s.names[name];
            && Apply(Served(s, name, id, Reserving), Proceed(r, true)) == Served(s, name, id, Lookup)
            && Apply(Served(s, name, id, Lookup), Proceed(r, true)) == Served(s, name, id, Inspect(held))
            && Apply(Served(s, name, id, Inspect(held)), Proceed(r, true)) == Served(s, name, id, CheckCreated(held))
            && Apply(Served(s, name, id, CheckCreated(held)), Proceed(r, true)) == Served(s, name, id, Replying(held))
            && Apply(Served(s, name, id, Replying(held)), Proceed(r, true)) == Served(s, name, id, Done).(answers := s.answers[r := held])
  {
  }

  /** A request for a free name that meets no failure is answered with its own ID, and its container has
      the name and all its pieces; nothing else changes. */
  lemma FreshIsCreated(states: seq<State>, actions: seq<Action>, s: State, name: string, id: Id)
    returns (longer: seq<State>, more: seq<Action>, t: State)
    requires Ends(states, actions, s) && id !in s.ids && name !in s.names && !s.store.Holds(name)
    ensures Ends(longer, more, t)
    ensures t.answers == s.answers[|s.reqs| := id] && t.names == s.names[name := id] && t.created == s.created + {id}
    ensures t.storage == s.storage + {id} && t.table == s.table + {id} && t.index == s.index + {id} && t.runtime == s.runtime + {id}
    ensures name !in t.store.entries && t.cleaned == s.cleaned && t.lost == s.lost
  {
    var n := Bound(states);
    longer, more := Creates(states, actions, s, name, id, n);
    t := CreatedBy(s, name, id);
    longer, more := Extend(longer, more, t, Proceed(|s.reqs|, true));
    ReplyStep(t, |s.reqs|, true);
    t := Apply(t, Proceed(|s.reqs|, true));
  }

  lemma {:induction false} Bound(states: seq<State>) returns (n: nat)
    ensures Removed(states, n)
  {
    if states == [] {
      n := 0;
    } else {
      var last := |states| - 1;
      var m := Bound(states[..last]);
      n := if m < |states[last].removals| then |states[last].removals| else m;
      forall k | 0 <= k < |states|
        ensures |states[k].removals| <= n
      {
        assert k < last ==> states[..last][k] == states[k];
      }
    }
  }

  lemma Parks() returns (states: seq<State>, actions: seq<Action>, s: State)
    ensures Ends(states, actions, s) && Inv(s) && s.store.Holds("name") && s.store.entries["name"].resource.value.id == "a"
    ensures s.answers == map[] && s.created == {} && s.cleaned == {} && |s.reqs| == 1 && s.ids == map["a" := "name"]
  {
    states, actions := Launches([INIT], [], INIT, "name", "a", 0);
    SerialIsSafe(states, actions);
    RunInvariant(states, actions, |actions|);
    states, actions, s := ExpiredParks(states, actions, Launched(INIT, "name", "a"), 0);
  }

  /** A run in which a client is gone when its container is ready, and the retry is given it. */
  lemma ParkedThenReturned() returns (states: seq<State>, actions: seq<Action>)
    ensures IsRun(states, actions)
    ensures exists k :: 0 <= k < |states| && states[k].store.Holds("name") && states[k].store.entries["name"].resource.value.id == "a" && states[k].answers == map[]
    ensures var t := states[|actions|]; t.answers == map[1 := "a"] && t.created == {"a"} && t.cleaned == {}
  {
    var s: State;
    states, actions, s := Parks();
    ghost var k := |actions|;
    states, actions, s := ParkedIsReturned(states, actions, s, "name", "b");
    assert states[k].store.Holds("name");
  }
}
