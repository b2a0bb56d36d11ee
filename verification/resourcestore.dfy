/** The store in which a creation request parks a finished resource whose client has gone away
    (internal/resourcestore/resourcestore.go). Channels are numbered; `sent[w]` counts the
    tokens sent on watcher channel `w`, whose buffer holds one. */
module ResourceStore {
  import opened Options
  import opened Sequences

  datatype Entry<T> = Entry(resource: Option<T>, watchers: seq<nat>, stale: bool, stage: string)
  {
    predicate WasPut() {
      resource.Some?
    }
  }

  datatype Store<T> = Store(entries: map<string, Entry<T>>, sent: seq<nat>)
  {
    /** The name has an entry that holds a resource, not just watchers or a stage. */
    predicate Holds(name: string) {
      name in entries && entries[name].WasPut()
    }
  }

  const STAGE_UNKNOWN := "unknown"

  function Empty<T>(): Store<T> {
    Store(map[], [])
  }

  function EntryAt<T>(s: Store<T>, name: string): Entry<T> {
    if name in s.entries then s.entries[name] else Entry(None, [], false, "")
  }

  function Notify(sent: seq<nat>, watchers: seq<nat>): seq<nat> {
    seq(|sent|, w requires 0 <= w < |sent| => sent[w] + (if w in watchers then 1 else 0))
  }

  function PutInto<T>(s: Store<T>, name: string, res: T): (r: (Store<T>, bool)) {
    if s.Holds(name) then (s, false)
    else
      var e := EntryAt(s, name);
      (Store(s.entries[name := e.(resource := Some(res))], Notify(s.sent, e.watchers)), true)
  }

  function GetFrom<T>(s: Store<T>, name: string): (r: (Store<T>, Option<T>)) {
    if s.Holds(name) then (s.(entries := s.entries - {name}), s.entries[name].resource)
    else (s, None)
  }

  function DeleteFrom<T>(s: Store<T>, name: string): Store<T> {
    s.(entries := s.entries - {name})
  }

  /** The new channel is number |s.sent|; the stage returned for a fresh placeholder is
      "unknown" although the placeholder's own stage is empty. */
  function Watch<T>(s: Store<T>, name: string): (r: (Store<T>, string)) {
    var e := EntryAt(s, name);
    (Store(s.entries[name := e.(watchers := e.watchers + [|s.sent|])], s.sent + [0]),
     if name in s.entries then e.stage else STAGE_UNKNOWN)
  }

  function SetStage<T>(s: Store<T>, name: string, stage: string): Store<T> {
    s.(entries := s.entries[name := EntryAt(s, name).(stage := stage)])
  }

  predicate Reapable<T>(e: Entry<T>) {
    e.WasPut() && e.stale
  }

  function Reaped<T>(s: Store<T>): map<string, T> {
    map n | n in s.entries && Reapable(s.entries[n]) :: s.entries[n].resource.value
  }

  function Aged<T>(e: Entry<T>): Entry<T> {
    if e.WasPut() then e.(stale := true) else e
  }

  function Sweep<T>(s: Store<T>): Store<T> {
    s.(entries := map n | n in s.entries && !Reapable(s.entries[n]) :: Aged(s.entries[n]))
  }

  /** The sweep loop with the names in `todo` still to visit. */
  ghost function PartlySwept<T>(entries: map<string, Entry<T>>, todo: set<string>): map<string, Entry<T>> {
    map n | n in entries && (n in todo || !Reapable(entries[n])) :: if n in todo then entries[n] else Aged(entries[n])
  }

  /** Watchers are live channels, none registered twice; a placeholder is never stale and
      its watchers have received nothing yet. */
  ghost predicate Valid<T>(s: Store<T>) {
    && (forall n :: n in s.entries ==> NoDuplicates(s.entries[n].watchers))
    && (forall n, w :: n in s.entries && w in s.entries[n].watchers ==> w < |s.sent|)
    && (forall n, m, w :: n in s.entries && m in s.entries ==>
          w in s.entries[n].watchers && w in s.entries[m].watchers ==> n == m)
    && (forall n, w :: n in s.entries && !s.entries[n].WasPut() ==>
          w in s.entries[n].watchers ==> s.sent[w] == 0)
    && (forall n :: n in s.entries && !s.entries[n].WasPut() ==> !s.entries[n].stale)
    && (forall w :: 0 <= w < |s.sent| ==> s.sent[w] <= 1)
  }

  lemma PutKeepsValid<T>(s: Store<T>, name: string, res: T)
    requires Valid(s)
    ensures Valid(PutInto(s, name, res).0)
  {
  }

  lemma WatchKeepsValid<T>(s: Store<T>, name: string)
    requires Valid(s)
    ensures Valid(Watch(s, name).0)
  {
    var t := Watch(s, name).0;
    var ws := EntryAt(s, name).watchers;
    assert forall i :: 0 <= i < |ws| ==> ws[i] in ws;
    WatchAppends(s, name);
    assert NoDuplicates(t.entries[name].watchers);
  }

  lemma WatchAppends<T>(s: Store<T>, name: string)
    ensures var t := Watch(s, name).0;
            (forall n :: n in t.entries <==> n in s.entries || n == name) &&
            (forall n :: n in t.entries && n != name ==> t.entries[n] == s.entries[n]) &&
            (forall w :: w in t.entries[name].watchers <==> w in EntryAt(s, name).watchers || w == |s.sent|)
  {
    assert Watch(s, name).0.entries[name].watchers == EntryAt(s, name).watchers + [|s.sent|];
  }

  lemma GetKeepsValid<T>(s: Store<T>, name: string)
    requires Valid(s)
    ensures Valid(GetFrom(s, name).0)
  {
  }

  lemma DeleteKeepsValid<T>(s: Store<T>, name: string)
    requires Valid(s)
    ensures Valid(DeleteFrom(s, name))
  {
  }

  lemma SetStageKeepsValid<T>(s: Store<T>, name: string, stage: string)
    requires Valid(s)
    ensures Valid(SetStage(s, name, stage))
  {
  }

  lemma SweepKeepsValid<T>(s: Store<T>)
    requires Valid(s)
    ensures Valid(Sweep(s))
  {
  }

  class ResourceStore<T> {
    var resources: map<string, Entry<T>>
    var sent: seq<nat>

    ghost function Value(): Store<T>
      reads this
    {
      Store(resources, sent)
    }

    constructor ()
      ensures Value() == Empty()
    {
      resources, sent := map[], [];
    }

    /** Sends one token to every watcher of the entry. No send can block: each channel is
        still empty when its turn comes. */
    method Put(name: string, res: T) returns (ok: bool)
      requires Valid(Value())
      modifies this
      ensures Valid(Value())
      ensures (Value(), ok) == PutInto(old(Value()), name, res)
    {
      PutKeepsValid(Value(), name, res);
      var r := if name in resources then resources[name] else Entry(None, [], false, "");
      if r.WasPut() {
        return false;
      }
      resources := resources[name := r.(resource := Some(res))];
      var i := 0;
      while i < |r.watchers|
        invariant 0 <= i <= |r.watchers|
        invariant resources == old(resources)[name := r.(resource := Some(res))]
        invariant sent == Notify(old(sent), r.watchers[..i])
      {
        var w := r.watchers[i];
        assert w in old(Value()).entries[name].watchers;
        assert w !in r.watchers[..i];
        assert sent[w] == 0;                       // the send does not block
        sent := sent[w := sent[w] + 1];
        assert r.watchers[..i + 1] == r.watchers[..i] + [w];
        i := i + 1;
      }
      assert r.watchers[..i] == r.watchers;
      return true;
    }

    method Get(name: string) returns (r: Option<T>)
      modifies this
      ensures (Value(), r) == GetFrom(old(Value()), name)
    {
      if name !in resources || !resources[name].WasPut() {
        return None;
      }
      r := resources[name].resource;
      resources := resources - {name};
    }

    method Delete(name: string)
      modifies this
      ensures Value() == DeleteFrom(old(Value()), name)
    {
      resources := resources - {name};
    }

    method WatcherForResource(name: string) returns (watcher: nat, stage: string)
      modifies this
      ensures watcher == |old(sent)|
      ensures (Value(), stage) == Watch(old(Value()), name)
    {
      watcher := |sent|;
      sent := sent + [0];
      if name !in resources {
        resources := resources[name := Entry(None, [watcher], false, "")];
        assert [] + [watcher] == [watcher];
        return watcher, STAGE_UNKNOWN;
      }
      var r := resources[name];
      resources := resources[name := r.(watchers := r.watchers + [watcher])];
      return watcher, r.stage;
    }

    method SetStageForResource(name: string, stage: string)
      modifies this
      ensures Value() == SetStage(old(Value()), name, stage)
    {
      if name !in resources {
        resources := resources[name := Entry(None, [], false, stage)];
        return;
      }
      resources := resources[name := resources[name].(stage := stage)];
    }

    /** One round of the cleanup loop; `reaped` lists the resources to clean up, in an
        arbitrary order, each under its own name. */
    method SweepStale() returns (reaped: seq<(string, T)>)
      modifies this
      ensures Value() == Sweep(old(Value()))
      ensures NoDuplicates(reaped)
      ensures forall n, x :: (n, x) in reaped <==> n in Reaped(old(Value())) && Reaped(old(Value()))[n] == x
    {
      var todo := resources.Keys;
      ghost var before := Value();
      reaped := [];
      while todo != {}
        invariant todo <= before.entries.Keys
        invariant sent == before.sent
        invariant resources == PartlySwept(before.entries, todo)
        invariant forall n, x :: (n, x) in reaped <==> n in Reaped(before) && n !in todo && Reaped(before)[n] == x
        invariant NoDuplicates(reaped)
        decreases |todo|
      {
        var name :| name in todo;
        var r := resources[name];
        todo := todo - {name};
        if r.WasPut() {
          if r.stale {
            reaped := reaped + [(name, r.resource.value)];
            resources := resources - {name};
          } else {
            resources := resources[name := r.(stale := true)];
          }
        }
      }
    }
  }
}
