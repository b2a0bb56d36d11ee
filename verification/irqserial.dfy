/** Containers that keep interrupts off their CPUs, starting and stopping one after the other
    (internal/runtimehandlerhooks/high_performance_hooks_linux.go): each start takes the
    container's CPUs out of the smp_affinity file and each stop puts them back. */
module IrqSerial {
  import opened IrqMask

  type Id = nat

  datatype Event = Start(id: Id) | Stop(id: Id)

  /** The file can be read: hexadecimal, not empty. */
  ghost predicate Readable(file: string) {
    AllHex(Strip(file)) && Strip(file) != ""
  }

  /** How many bytes the file's digits make. */
  function Size(file: string): nat {
    (|Strip(file)| + 1) / 2
  }

  /** Every container's CPUs lie within the file. */
  ghost predicate Fits(cpus: map<Id, seq<nat>>, events: seq<Event>, size: nat) {
    forall k :: 0 <= k < |events| ==> events[k].id in cpus && Within(cpus[events[k].id], size)
  }

  lemma UpdateKeepsReadable(cpus: seq<nat>, file: string, on: bool)
    requires Readable(file) && Within(cpus, Size(file))
    ensures Readable(NewMask(cpus, file, on)) && Size(NewMask(cpus, file, on)) >= Size(file)
  {
    MaskText(Marked(BytesOf(Strip(file)), cpus, on));
  }

  /** The file after the events, each one read, updated and written back in turn. */
  ghost function FileAfter(file: string, cpus: map<Id, seq<nat>>, events: seq<Event>): (r: string)
    requires Readable(file) && Fits(cpus, events, Size(file))
    ensures Readable(r) && Size(r) >= Size(file)
  {
    if events == [] then file
    else
      var before := FileAfter(file, cpus, events[..|events| - 1]);
      var last := events[|events| - 1];
      UpdateKeepsReadable(cpus[last.id], before, last.Stop?);
      NewMask(cpus[last.id], before, last.Stop?)
  }

  /** Started, and not stopped since. */
  ghost predicate Pinned(events: seq<Event>, id: Id) {
    exists k :: 0 <= k < |events| && events[k] == Start(id) && forall j :: k < j < |events| ==> events[j] != Stop(id)
  }

  /** The container occurs in the events. */
  ghost predicate Occurs(events: seq<Event>, id: Id) {
    exists k :: 0 <= k < |events| && events[k].id == id
  }

  ghost predicate Disjoint(cpus: map<Id, seq<nat>>) {
    forall a, b, c :: a in cpus && b in cpus && c in cpus[a] && c in cpus[b] ==> a == b
  }

  lemma OccursAfter(events: seq<Event>, last: Event, id: Id)
    ensures Occurs(events + [last], id) <==> Occurs(events, id) || last.id == id
  {
    var s := events + [last];
    if Occurs(events, id) {
      var k :| 0 <= k < |events| && events[k].id == id;
      assert s[k].id == id;
    }
    if last.id == id {
      assert s[|events|].id == id;
    }
  }

  lemma PinnedAfter(events: seq<Event>, last: Event, id: Id)
    ensures Pinned(events + [last], id) <==> if last.id == id then last.Start? else Pinned(events, id)
  {
    var s := events + [last];
    if last == Start(id) {
      assert s[|events|] == Start(id);
    }
    if Pinned(s, id) {
      var k :| 0 <= k < |s| && s[k] == Start(id) && forall j :: k < j < |s| ==> s[j] != Stop(id);
      assert s[|events|] == last;
      if last.id != id {
        assert events[k] == Start(id) && forall j :: k < j < |events| ==> events[j] == s[j];
      }
    }
    if Pinned(events, id) && last.id != id {
      var k :| 0 <= k < |events| && events[k] == Start(id) && forall j :: k < j < |events| ==> events[j] != Stop(id);
      assert s[k] == Start(id) && forall j :: k < j < |s| ==> s[j] == if j < |events| then events[j] else last;
    }
  }

  lemma {:induction false} FileAfterLast(file: string, cpus: map<Id, seq<nat>>, rest: seq<Event>, last: Event, c: nat)
    requires Readable(file) && Fits(cpus, rest + [last], Size(file)) && Fits(cpus, rest, Size(file))
    requires last.id in cpus
    ensures InMask(Strip(FileAfter(file, cpus, rest + [last])), c) <==>
              if c in cpus[last.id] then last.Stop? else InMask(Strip(FileAfter(file, cpus, rest)), c)
  {
    assert (rest + [last])[..|rest|] == rest && (rest + [last])[|rest|] == last;
    UpdateMeans(cpus[last.id], FileAfter(file, cpus, rest), last.Stop?, c);
  }

  /** After any history a CPU of a container that took part is in the mask exactly when the
      container is not pinned. */
  lemma {:induction false} TouchedCpu(file: string, cpus: map<Id, seq<nat>>, events: seq<Event>, id: Id, c: nat)
    requires Readable(file) && Fits(cpus, events, Size(file)) && Disjoint(cpus)
    requires id in cpus && c in cpus[id] && Occurs(events, id)
    ensures InMask(Strip(FileAfter(file, cpus, events)), c) <==> !Pinned(events, id)
    decreases |events|
  {
    var rest, last := events[..|events| - 1], events[|events| - 1];
    assert events == rest + [last];
    FileAfterLast(file, cpus, rest, last, c);
    OccursAfter(rest, last, id);
    PinnedAfter(rest, last, id);
    if last.id != id {
      TouchedCpu(file, cpus, rest, id, c);
    }
  }

  /** Every other CPU is as it was at first. */
  lemma {:induction false} UntouchedCpu(file: string, cpus: map<Id, seq<nat>>, events: seq<Event>, c: nat)
    requires Readable(file) && Fits(cpus, events, Size(file))
    requires forall id :: id in cpus && c in cpus[id] ==> !Occurs(events, id)
    ensures InMask(Strip(FileAfter(file, cpus, events)), c) <==> InMask(Strip(file), c)
    decreases |events|
  {
    if events != [] {
      var rest, last := events[..|events| - 1], events[|events| - 1];
      assert events == rest + [last];
      FileAfterLast(file, cpus, rest, last, c);
      OccursAfter(rest, last, last.id);
      forall id | id in cpus && c in cpus[id]
        ensures !Occurs(rest, id)
      {
        OccursAfter(rest, last, id);
      }
      UntouchedCpu(file, cpus, rest, c);
    }
  }

  /** While containers come and go on disjoint CPUs of the initial mask, the file denotes the
      initial mask without the CPUs of those started and not yet stopped. */
  lemma {:induction false} MaskTracksPinned(file: string, cpus: map<Id, seq<nat>>, events: seq<Event>, c: nat)
    requires Readable(file) && Fits(cpus, events, Size(file)) && Disjoint(cpus)
    requires forall id :: id in cpus && c in cpus[id] ==> InMask(Strip(file), c)
    ensures InMask(Strip(FileAfter(file, cpus, events)), c) <==>
              InMask(Strip(file), c) && !(exists id :: id in cpus && c in cpus[id] && Pinned(events, id))
  {
    if id :| id in cpus && c in cpus[id] && Occurs(events, id) {
      TouchedCpu(file, cpus, events, id, c);
      assert forall other :: other in cpus && c in cpus[other] ==> other == id;
    } else {
      UntouchedCpu(file, cpus, events, c);
      forall id | id in cpus && c in cpus[id]
        ensures !Pinned(events, id)
      {
        assert !Occurs(events, id);
      }
    }
  }

  /** Once nothing is pinned the file denotes the set it denoted at first exactly when the CPUs
      of every container that took part were in that set. */
  lemma {:induction false} MaskRestored(file: string, cpus: map<Id, seq<nat>>, events: seq<Event>)
    requires Readable(file) && Fits(cpus, events, Size(file)) && Disjoint(cpus)
    requires forall id :: !Pinned(events, id)
    ensures (forall c :: InMask(Strip(FileAfter(file, cpus, events)), c) <==> InMask(Strip(file), c)) <==>
            (forall id, c :: Occurs(events, id) && id in cpus && c in cpus[id] ==> InMask(Strip(file), c))
  {
    forall id, c | Occurs(events, id) && id in cpus && c in cpus[id]
      ensures InMask(Strip(FileAfter(file, cpus, events)), c)
    {
      TouchedCpu(file, cpus, events, id, c);
    }
    forall c | forall id :: id in cpus && c in cpus[id] ==> !Occurs(events, id)
      ensures InMask(Strip(FileAfter(file, cpus, events)), c) <==> InMask(Strip(file), c)
    {
      UntouchedCpu(file, cpus, events, c);
    }
  }
}
