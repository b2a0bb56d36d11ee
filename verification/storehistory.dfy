/** Whole runs of the resource store: where every parked resource goes, when it is reaped, and
    which watchers are told. A run is any sequence of operations from the empty store. */
module StoreHistory {
  import opened Options
  import opened ResourceStore

  datatype Op<T> =
    | OpPut(name: string, res: T)
    | OpGet(name: string)
    | OpDelete(name: string)
    | OpWatch(name: string)
    | OpSetStage(name: string, stage: string)
    | OpSweep

  datatype Exit = Got | Removed | SweptOut

  /** The resource put by operation `ticket` left the store at operation `at`. */
  datatype Departure = Departure(ticket: nat, exit: Exit, at: nat)

  /** `tickets` maps a name to the operation that put the resource now held under it;
      `registered[w]` is the operation that created watcher channel `w`. */
  datatype History<T> = History(store: Store<T>, tickets: map<string, nat>,
                                departures: set<Departure>, registered: seq<nat>)

  function Leave(tickets: map<string, nat>, names: set<string>, exit: Exit, at: nat): set<Departure> {
    set n | n in tickets && n in names :: Departure(tickets[n], exit, at)
  }

  function Next<T>(h: History<T>, op: Op<T>, now: nat): History<T> {
    match op
    case OpPut(n, x) =>
      var (s, ok) := PutInto(h.store, n, x);
      if ok then h.(store := s, tickets := h.tickets[n := now]) else h
    case OpGet(n) =>
      h.(store := GetFrom(h.store, n).0, tickets := h.tickets - {n},
         departures := h.departures + Leave(h.tickets, {n}, Got, now))
    case OpDelete(n) =>
      h.(store := DeleteFrom(h.store, n), tickets := h.tickets - {n},
         departures := h.departures + Leave(h.tickets, {n}, Removed, now))
    case OpWatch(n) =>
      h.(store := Watch(h.store, n).0, registered := h.registered + [now])
    case OpSetStage(n, st) =>
      h.(store := SetStage(h.store, n, st))
    case OpSweep =>
      var gone := Reaped(h.store).Keys;
      h.(store := Sweep(h.store), tickets := h.tickets - gone,
         departures := h.departures + Leave(h.tickets, gone, SweptOut, now))
  }

  function Run<T>(ops: seq<Op<T>>): History<T> {
    if ops == [] then History(Empty(), map[], {}, [])
    else Next(Run(ops[..|ops| - 1]), ops[|ops| - 1], |ops| - 1)
  }

  /** Sweeps at or after position `from`. */
  function SweepsSince<T>(ops: seq<Op<T>>, from: nat): nat {
    if |ops| <= from then 0
    else SweepsSince(ops[..|ops| - 1], from) + (if ops[|ops| - 1].OpSweep? then 1 else 0)
  }

  ghost predicate PutSucceeds<T>(ops: seq<Op<T>>, i: nat) {
    i < |ops| && ops[i].OpPut? && !Run(ops[..i]).store.Holds(ops[i].name)
  }

  /** The operation `d.at` really is a retrieval, a deletion or the second sweep after the Put. */
  ghost predicate Justified<T>(ops: seq<Op<T>>, d: Departure) {
    && d.ticket < d.at < |ops|
    && ops[d.ticket].OpPut?
    && match d.exit
       case Got => ops[d.at] == OpGet(ops[d.ticket].name)
       case Removed => ops[d.at] == OpDelete(ops[d.ticket].name)
       case SweptOut => ops[d.at].OpSweep? && SweepsSince(ops[..d.at], d.ticket + 1) == 1
  }

  ghost predicate HeldBy<T>(h: History<T>, i: nat) {
    exists n :: n in h.tickets && h.tickets[n] == i
  }

  ghost predicate Departed<T>(h: History<T>, i: nat) {
    exists d :: d in h.departures && d.ticket == i
  }

  /** What is held is what was put, and its age in sweeps shows in `stale`. */
  ghost predicate HeldIsPut<T>(ops: seq<Op<T>>, h: History<T>) {
    && (forall n :: n in h.tickets <==> h.store.Holds(n))
    && (forall n :: n in h.tickets ==>
          && h.tickets[n] < |ops|
          && ops[h.tickets[n]] == OpPut(n, h.store.entries[n].resource.value)
          && SweepsSince(ops, h.tickets[n] + 1) == (if h.store.entries[n].stale then 1 else 0))
  }

  ghost predicate LeavesOnce<T>(ops: seq<Op<T>>, h: History<T>) {
    && (forall d :: d in h.departures ==> Justified(ops, d))
    && (forall d, e :: d in h.departures && e in h.departures && d.ticket == e.ticket ==> d == e)
    && (forall d, n :: d in h.departures && n in h.tickets ==> d.ticket != h.tickets[n])
  }

  lemma {:induction false} SweepsLater<T>(ops: seq<Op<T>>, op: Op<T>, from: nat)
    requires from <= |ops|
    ensures SweepsSince(ops + [op], from) == SweepsSince(ops, from) + (if op.OpSweep? then 1 else 0)
  {
    assert (ops + [op])[..|ops|] == ops;
  }

  lemma PutKeepsHeld<T>(ops: seq<Op<T>>, h: History<T>, op: Op<T>)
    requires HeldIsPut(ops, h) && Valid(h.store) && op.OpPut?
    ensures HeldIsPut(ops + [op], Next(h, op, |ops|))
  {
    var h' := Next(h, op, |ops|);
    forall n | n in h'.tickets
      ensures SweepsSince(ops + [op], h'.tickets[n] + 1) == (if h'.store.entries[n].stale then 1 else 0)
    {
      if h'.tickets[n] < |ops| {
        SweepsLater(ops, op, h'.tickets[n] + 1);
      }
    }
  }

  /** Nothing new is held in h', and what is held has aged by a sweep or not at all. */
  ghost predicate OnlyDrops<T>(h: History<T>, h': History<T>, swept: bool) {
    && (forall n :: n in h'.tickets <==> h'.store.Holds(n))
    && (forall n :: n in h'.tickets ==>
          && n in h.tickets && h'.tickets[n] == h.tickets[n] && n in h.store.entries
          && h'.store.entries[n].resource == h.store.entries[n].resource
          && (swept ==> !h.store.entries[n].stale)
          && h'.store.entries[n].stale == (h.store.entries[n].stale || swept))
  }

  lemma OtherStep<T>(h: History<T>, op: Op<T>, now: nat)
    requires !op.OpPut? && forall n :: n in h.tickets <==> h.store.Holds(n)
    ensures OnlyDrops(h, Next(h, op, now), op.OpSweep?)
  {
    var h' := Next(h, op, now);
    match op
    case OpGet(m) => assert forall n :: h'.store.Holds(n) <==> h.store.Holds(n) && n != m;
    case OpDelete(m) => assert forall n :: h'.store.Holds(n) <==> h.store.Holds(n) && n != m;
    case OpWatch(m) => assert forall n :: h'.store.Holds(n) <==> h.store.Holds(n);
    case OpSetStage(m, st) => assert forall n :: h'.store.Holds(n) <==> h.store.Holds(n);
    case OpSweep => assert forall n :: h'.store.Holds(n) <==> h.store.Holds(n) && n !in Reaped(h.store);
  }

  lemma OtherKeepsHeld<T>(ops: seq<Op<T>>, h: History<T>, op: Op<T>)
    requires HeldIsPut(ops, h) && !op.OpPut?
    ensures HeldIsPut(ops + [op], Next(h, op, |ops|))
  {
    OtherStep(h, op, |ops|);
    HeldLater(ops, h, Next(h, op, |ops|), op);
  }

  lemma HeldLater<T>(ops: seq<Op<T>>, h: History<T>, h': History<T>, op: Op<T>)
    requires HeldIsPut(ops, h) && OnlyDrops(h, h', op.OpSweep?)
    ensures HeldIsPut(ops + [op], h')
  {
    forall n | n in h'.tickets
      ensures h'.tickets[n] < |ops| && (ops + [op])[h'.tickets[n]] == OpPut(n, h'.store.entries[n].resource.value)
      ensures SweepsSince(ops + [op], h'.tickets[n] + 1) == (if h'.store.entries[n].stale then 1 else 0)
    {
      SweepsLater(ops, op, h.tickets[n] + 1);
    }
  }

  lemma {:induction false} RunKeepsHeld<T>(ops: seq<Op<T>>)
    ensures Valid(Run(ops).store) && HeldIsPut(ops, Run(ops))
  {
    if ops != [] {
      var was, op := ops[..|ops| - 1], ops[|ops| - 1];
      var h := Run(was);
      assert ops == was + [op];
      RunKeepsHeld(was);
      StepKeepsValid(h, op, |was|);
      if op.OpPut? {
        PutKeepsHeld(was, h, op);
      } else {
        OtherKeepsHeld(was, h, op);
      }
    }
  }

  lemma StepKeepsValid<T>(h: History<T>, op: Op<T>, now: nat)
    requires Valid(h.store)
    ensures Valid(Next(h, op, now).store)
  {
    match op
    case OpPut(n, x) => PutKeepsValid(h.store, n, x);
    case OpGet(n) => GetKeepsValid(h.store, n);
    case OpDelete(n) => DeleteKeepsValid(h.store, n);
    case OpWatch(n) => WatchKeepsValid(h.store, n);
    case OpSetStage(n, st) => SetStageKeepsValid(h.store, n, st);
    case OpSweep => SweepKeepsValid(h.store);
  }

  lemma JustifiedLater<T>(ops: seq<Op<T>>, op: Op<T>, d: Departure)
    requires Justified(ops, d)
    ensures Justified(ops + [op], d)
  {
    assert (ops + [op])[..d.at] == ops[..d.at];
  }

  /** What leaves at a step was held before it, so it cannot have left already. */
  lemma NewDeparture<T>(ops: seq<Op<T>>, h: History<T>, op: Op<T>, d: Departure)
    requires HeldIsPut(ops, h)
    requires d in Next(h, op, |ops|).departures && d !in h.departures
    ensures Justified(ops + [op], d) && d.at == |ops|
    ensures exists n :: n in h.tickets && h.tickets[n] == d.ticket && n !in Next(h, op, |ops|).tickets
  {
    assert (ops + [op])[..|ops|] == ops;
    var names := if op.OpSweep? then Reaped(h.store).Keys else {op.name};
    var n :| n in h.tickets && n in names && h.tickets[n] == d.ticket;
    assert (ops + [op])[d.ticket] == ops[d.ticket];
  }

  lemma StepLeavesOnce<T>(ops: seq<Op<T>>, h: History<T>, op: Op<T>)
    requires HeldIsPut(ops, h) && LeavesOnce(ops, h)
    ensures LeavesOnce(ops + [op], Next(h, op, |ops|))
  {
    var h' := Next(h, op, |ops|);
    forall d | d in h'.departures
      ensures Justified(ops + [op], d)
      ensures forall e :: e in h'.departures && d.ticket == e.ticket ==> d == e
      ensures forall n :: n in h'.tickets ==> d.ticket != h'.tickets[n]
    {
      if d in h.departures {
        JustifiedLater(ops, op, d);
      } else {
        NewDeparture(ops, h, op, d);
      }
      forall e | e in h'.departures && d.ticket == e.ticket
        ensures d == e
      {
        if e !in h.departures {
          NewDeparture(ops, h, op, e);
        }
      }
    }
  }

  lemma {:induction false} RunLeavesOnce<T>(ops: seq<Op<T>>)
    ensures LeavesOnce(ops, Run(ops))
  {
    if ops != [] {
      var was := ops[..|ops| - 1];
      assert ops == was + [ops[|ops| - 1]];
      RunKeepsHeld(was);
      RunLeavesOnce(was);
      StepLeavesOnce(was, Run(was), ops[|ops| - 1]);
    }
  }

  /** Every successful Put is accounted for: its resource is still held or has left. */
  lemma {:induction false} EveryPutAccountedFor<T>(ops: seq<Op<T>>, i: nat)
    ensures PutSucceeds(ops, i) <==> HeldBy(Run(ops), i) || Departed(Run(ops), i)
  {
    RunKeepsHeld(ops);
    RunLeavesOnce(ops);
    if ops != [] {
      var was, op := ops[..|ops| - 1], ops[|ops| - 1];
      var h, h' := Run(was), Run(ops);
      RunKeepsHeld(was);
      RunLeavesOnce(was);
      EveryPutAccountedFor(was, i);
      assert i < |was| ==> was[..i] == ops[..i];
      if i < |was| {
        assert PutSucceeds(was, i) == PutSucceeds(ops, i);
        StaysAccounted(h, op, |was|, i);
      } else if i == |was| {
        assert ops[..i] == was;
        LatestAccounted(was, op);
      }
    }
  }

  lemma {:induction false} LatestAccounted<T>(was: seq<Op<T>>, op: Op<T>)
    requires HeldIsPut(was, Run(was)) && LeavesOnce(was, Run(was))
    ensures var h' := Next(Run(was), op, |was|);
            (op.OpPut? && !Run(was).store.Holds(op.name)) <==> HeldBy(h', |was|) || Departed(h', |was|)
  {
    var h := Run(was);
    var h' := Next(h, op, |was|);
    if op.OpPut? && !h.store.Holds(op.name) {
      assert h'.tickets[op.name] == |was|;
    } else {
      forall n | n in h'.tickets
        ensures h'.tickets[n] != |was|
      {
        assert n in h.tickets && h'.tickets[n] == h.tickets[n];
      }
      forall d | d in h'.departures
        ensures d.ticket != |was|
      {
      }
    }
  }

  lemma StaysAccounted<T>(h: History<T>, op: Op<T>, now: nat, i: nat)
    requires i < now
    requires forall n :: n in h.tickets <==> h.store.Holds(n)
    ensures HeldBy(h, i) || Departed(h, i) <==> HeldBy(Next(h, op, now), i) || Departed(Next(h, op, now), i)
  {
    var h' := Next(h, op, now);
    if HeldBy(h, i) {
      var n :| n in h.tickets && h.tickets[n] == i;
      if n in h'.tickets {
        assert h'.tickets[n] == i;
      } else {
        var exit := if op.OpGet? then Got else if op.OpDelete? then Removed else SweptOut;
        assert Departure(i, exit, now) in h'.departures;
      }
    }
    if Departed(h, i) {
      var d :| d in h.departures && d.ticket == i;
      assert d in h'.departures;
    }
  }

  /** The life of a parked resource. After any run, a resource that was successfully put is
      either still held under its name, having seen fewer than two sweeps, or has left exactly
      once, through a Get, a Delete or the second sweep after its Put. */
  lemma {:induction false} ParkedResourceLife<T>(ops: seq<Op<T>>, i: nat)
    requires PutSucceeds(ops, i)
    ensures HeldBy(Run(ops), i) != Departed(Run(ops), i)
    ensures HeldBy(Run(ops), i) ==> var s := Run(ops).store;
              s.Holds(ops[i].name) && s.entries[ops[i].name].resource == Some(ops[i].res) && SweepsSince(ops, i + 1) <= 1
    ensures Departed(Run(ops), i) ==> exists d :: d in Run(ops).departures && d.ticket == i && Justified(ops, d)
                                        && forall e :: e in Run(ops).departures && e.ticket == i ==> e == d
  {
    EveryPutAccountedFor(ops, i);
    RunKeepsHeld(ops);
    RunLeavesOnce(ops);
  }

  // Watchers.

  /** The watcher created at `i` is told at `j`: its entry was still a placeholder at `i`, `j`
      puts the resource, and the entry was not deleted in between. */
  ghost predicate ToldAt<T>(ops: seq<Op<T>>, i: nat, j: nat) {
    && i < j < |ops|
    && ops[i].OpWatch? && !Run(ops[..i]).store.Holds(ops[i].name)
    && ops[j].OpPut? && ops[j].name == ops[i].name
    && forall k :: i < k < j ==> ops[k] != OpDelete(ops[i].name)
  }

  ghost predicate Told<T>(ops: seq<Op<T>>, i: nat) {
    exists j :: ToldAt(ops, i, j)
  }

  /** The watcher created at `i` still waits on a placeholder. */
  ghost predicate Waits<T>(ops: seq<Op<T>>, i: nat) {
    && i < |ops| && ops[i].OpWatch? && !Run(ops[..i]).store.Holds(ops[i].name)
    && forall k :: i < k < |ops| ==> ops[k] != OpDelete(ops[i].name) && !(ops[k].OpPut? && ops[k].name == ops[i].name)
  }

  ghost predicate OnPlaceholder<T>(s: Store<T>, n: string, w: nat) {
    n in s.entries && !s.entries[n].WasPut() && w in s.entries[n].watchers
  }

  ghost predicate WatchersTold<T>(ops: seq<Op<T>>, h: History<T>) {
    && |h.registered| == |h.store.sent|
    && forall w :: 0 <= w < |h.registered| ==> WatcherTold(ops, h, w)
  }

  ghost predicate WatcherTold<T>(ops: seq<Op<T>>, h: History<T>, w: nat)
    requires w < |h.registered| == |h.store.sent|
  {
    var i := h.registered[w];
    && i < |ops| && ops[i].OpWatch?
    && (h.store.sent[w] == 1 <==> Told(ops, i))
    && (forall n :: OnPlaceholder(h.store, n, w) <==> n == ops[i].name && Waits(ops, i))
  }

  lemma ToldLater<T>(ops: seq<Op<T>>, op: Op<T>, i: nat)
    requires i < |ops| && ops[i].OpWatch?
    ensures var all := ops + [op];
            && (Told(all, i) <==> Told(ops, i) || ToldAt(all, i, |ops|))
            && (Waits(all, i) <==> Waits(ops, i) && op != OpDelete(ops[i].name) && !(op.OpPut? && op.name == ops[i].name))
  {
    var all := ops + [op];
    assert all[..i] == ops[..i];
    assert forall k {:trigger ops[k]} {:trigger all[k]} :: 0 <= k < |ops| ==> all[k] == ops[k];
    forall j | i < j < |ops|
      ensures ToldAt(all, i, j) <==> ToldAt(ops, i, j)
    {
    }
  }

  lemma ToldByPutWhileWaiting<T>(ops: seq<Op<T>>, op: Op<T>, i: nat)
    requires i < |ops| && ops[i].OpWatch? && op.OpPut? && op.name == ops[i].name
    ensures Told(ops + [op], i) <==> Told(ops, i) || Waits(ops, i)
  {
    var all := ops + [op];
    ToldLater(ops, op, i);
    assert all[..i] == ops[..i];
    assert forall k {:trigger ops[k]} {:trigger all[k]} :: 0 <= k < |ops| ==> all[k] == ops[k];
    if ToldAt(all, i, |ops|) && !Waits(ops, i) {
      var k :| i < k < |ops| && ops[k].OpPut? && ops[k].name == ops[i].name;
      assert ToldAt(ops, i, k);
    }
    if Waits(ops, i) {
      assert ToldAt(all, i, |ops|);
    }
  }

  /** A step moves a watcher off its placeholder only by Put or Delete, and only that Put
      sends it a token. */
  lemma PlaceholderStep<T>(h: History<T>, op: Op<T>, now: nat, w: nat)
    requires w < |h.store.sent|
    ensures var s, s' := h.store, Next(h, op, now).store;
            && w < |s'.sent|
            && s'.sent[w] == s.sent[w] + (if op.OpPut? && OnPlaceholder(s, op.name, w) then 1 else 0)
            && (forall n :: OnPlaceholder(s', n, w) <==>
                  OnPlaceholder(s, n, w) && op != OpDelete(n) && !(op.OpPut? && op.name == n))
  {
    match op
    case OpPut(m, x) =>
    case OpGet(m) =>
    case OpDelete(m) =>
    case OpWatch(m) =>
    case OpSetStage(m, st) =>
    case OpSweep =>
  }

  lemma OldWatcherStep<T>(ops: seq<Op<T>>, h: History<T>, op: Op<T>, w: nat)
    requires Valid(h.store) && WatchersTold(ops, h) && w < |h.registered|
    requires var h' := Next(h, op, |ops|);
             |h'.registered| == |h'.store.sent| && w < |h'.registered| && h'.registered[w] == h.registered[w]
    ensures WatcherTold(ops + [op], Next(h, op, |ops|), w)
  {
    assert WatcherTold(ops, h, w);
    var i := h.registered[w];
    var name := ops[i].name;
    PlaceholderStep(h, op, |ops|, w);
    ToldLater(ops, op, i);
    if op.OpPut? && op.name == name {
      ToldByPutWhileWaiting(ops, op, i);
      assert OnPlaceholder(h.store, name, w) ==> h.store.sent[w] == 0;
    }
  }

  /** Exactly the watchers registered on an entry before its Put receive a token, and no
      watcher ever receives two. */
  lemma {:induction false} WatchersToldExactlyOnce<T>(ops: seq<Op<T>>)
    ensures Valid(Run(ops).store) && WatchersTold(ops, Run(ops))
    ensures forall w :: 0 <= w < |Run(ops).store.sent| ==> Run(ops).store.sent[w] <= 1
  {
    RunKeepsHeld(ops);
    if ops != [] {
      var was, op := ops[..|ops| - 1], ops[|ops| - 1];
      assert ops == was + [op];
      RunKeepsHeld(was);
      WatchersToldExactlyOnce(was);
      WatchersStep(was, op);
    }
  }

  lemma {:induction false} WatchersStep<T>(was: seq<Op<T>>, op: Op<T>)
    requires Valid(Run(was).store) && HeldIsPut(was, Run(was)) && WatchersTold(was, Run(was))
    ensures WatchersTold(was + [op], Next(Run(was), op, |was|))
  {
    var h := Run(was);
    forall w | 0 <= w < |h.registered|
      ensures WatcherTold(was + [op], Next(h, op, |was|), w)
    {
      OldWatcherStep(was, h, op, w);
    }
    if op.OpWatch? {
      NewWatcherStep(was, h, op);
    }
  }

  lemma NewPlaceholder<T>(s: Store<T>, name: string)
    requires Valid(s)
    ensures forall n :: OnPlaceholder(Watch(s, name).0, n, |s.sent|) <==> n == name && !s.Holds(n)
  {
    var s', w := Watch(s, name).0, |s.sent|;
    assert forall n :: n in s.entries ==> w !in s.entries[n].watchers;
    assert s'.entries[name].watchers == EntryAt(s, name).watchers + [w];
  }

  lemma {:induction false} NewWatcherWaits<T>(ops: seq<Op<T>>, op: Op<T>)
    requires op.OpWatch?
    ensures !Told(ops + [op], |ops|)
    ensures Waits(ops + [op], |ops|) <==> !Run(ops).store.Holds(op.name)
  {
    assert (ops + [op])[..|ops|] == ops;
  }

  lemma {:induction false} NewWatcherStep<T>(ops: seq<Op<T>>, h: History<T>, op: Op<T>)
    requires h.store == Run(ops).store && Valid(h.store) && op.OpWatch? && |h.registered| == |h.store.sent|
    ensures WatcherTold(ops + [op], Next(h, op, |ops|), |h.registered|)
  {
    NewPlaceholder(h.store, op.name);
    NewWatcherWaits(ops, op);
  }

  // Stages.

  predicate SetsStage<T>(op: Op<T>, n: string) {
    op.OpSetStage? && op.name == n
  }

  /** Only setting a stage changes that of an entry, and an entry begins without one. */
  lemma StageStep<T>(h: History<T>, op: Op<T>, now: nat, n: string)
    requires n in Next(h, op, now).store.entries
    ensures Next(h, op, now).store.entries[n].stage ==
            if SetsStage(op, n) then op.stage else if n in h.store.entries then h.store.entries[n].stage else ""
  {
    match op
    case OpPut(m, x) =>
    case OpGet(m) =>
    case OpDelete(m) =>
    case OpWatch(m) =>
    case OpSetStage(m, st) =>
    case OpSweep =>
  }

  /** A watcher is told the stage that was set last, if the entry has been there ever since. */
  lemma {:induction false} StageIsLatest<T>(ops: seq<Op<T>>, n: string, j: nat)
    requires j < |ops| && SetsStage(ops[j], n)
    requires forall k :: j < k < |ops| ==> !SetsStage(ops[k], n)
    requires forall k :: j < k <= |ops| ==> n in Run(ops[..k]).store.entries
    ensures Watch(Run(ops).store, n).1 == ops[j].stage
    decreases |ops|
  {
    var last := |ops| - 1;
    var was := ops[..last];
    assert ops[..|ops|] == ops;
    StageStep(Run(was), ops[last], last, n);
    if j < last {
      assert forall k :: j < k <= |was| ==> was[..k] == ops[..k];
      StageIsLatest(was, n, j);
      assert was[..|was|] == was;
    }
  }

  /** If no stage has been set since the entry was last missing it is told none: no stage at all
      where there is an entry by now, the unknown one where there is not. */
  lemma {:induction false} StageUnset<T>(ops: seq<Op<T>>, n: string, i: nat)
    requires i <= |ops| && n !in Run(ops[..i]).store.entries
    requires forall k :: i <= k < |ops| ==> !SetsStage(ops[k], n)
    ensures Watch(Run(ops).store, n).1 == if n in Run(ops).store.entries then "" else STAGE_UNKNOWN
    decreases |ops|
  {
    if i == |ops| {
      assert ops[..i] == ops;
    } else {
      var last := |ops| - 1;
      var was := ops[..last];
      assert was[..i] == ops[..i];
      StageUnset(was, n, i);
      if n in Run(ops).store.entries {
        StageStep(Run(was), ops[last], last, n);
      }
    }
  }
}
