/** No container is forgotten, in any interleaving: each is owned by a request, parked, created, being
    taken apart, recorded as lost sight of, or gone with its name. */
module CreationAccounts {
  import opened ResourceStore
  import opened Creation
  import opened CreationProof
  import opened CreationClaims
  import opened CreationPieces

  /** Neither a piece nor the name is left. */
  ghost predicate Gone(s: State, id: Id) {
    !Live(s, id) && !HoldsName(s, id)
  }

  ghost predicate Owned(s: State, id: Id) {
    exists i :: 0 <= i < |s.reqs| && s.reqs[i].id == id && Owns(s.reqs[i])
  }

  ghost predicate Kept(s: State, id: Id) {
    exists n :: s.store.Holds(n) && s.store.entries[n].resource.value.id == id
  }

  ghost predicate BeingReaped(s: State, id: Id) {
    exists j :: j in s.reaper && j.id == id
  }

  ghost predicate Accounted(s: State, id: Id) {
    Owned(s, id) || Kept(s, id) || id in s.created || BeingReaped(s, id) || id in s.lost || Gone(s, id)
  }

  /** What the cleaner has still to undo covers what there is. */
  ghost predicate Covers(s: State, id: Id, cleaner: seq<Undo>) {
    cleaner == Stack(|cleaner|) && Undoable(s, id, |cleaner|)
  }

  ghost predicate RequestTidy(s: State, q: Request) {
    && Covers(s, q.id, q.cleaner)
    && (!q.pc.Undoing? ==> |q.cleaner| == Level(q.pc))
    && (IsRetry(q.pc) || (q.pc.Undoing? && q.cleaner == []) ==> !HoldsName(s, q.id))
  }

  ghost predicate JobTidy(s: State, j: Job) {
    Covers(s, j.id, j.cleaner) && (j.cleaner == [] ==> !HoldsName(s, j.id))
  }

  ghost predicate ParkedTidy(s: State, n: string)
    requires s.store.Holds(n)
  {
    var j := s.store.entries[n].resource.value;
    |j.cleaner| == 5 && Covers(s, j.id, j.cleaner)
  }

  ghost predicate Tidy(s: State) {
    && (forall i :: 0 <= i < |s.reqs| && Owns(s.reqs[i]) ==> RequestTidy(s, s.reqs[i]))
    && (forall n :: s.store.Holds(n) ==> ParkedTidy(s, n))
    && (forall j :: j in s.reaper ==> JobTidy(s, j))
    && (forall id :: id in s.ids ==> Accounted(s, id))
    && (forall id :: Live(s, id) ==> id in s.ids)
  }

  /** For every container but `id`, nothing is added and no name gained. */
  ghost predicate Frames(s: State, t: State, id: Id) {
    && t.ids == s.ids
    && (forall x :: x != id ==> FewerPieces(s, t, x) && (HoldsName(t, x) ==> HoldsName(s, x)))
    && s.created <= t.created && s.lost <= t.lost
  }

  lemma FrameCovers(s: State, t: State, id: Id, x: Id, cleaner: seq<Undo>)
    requires Frames(s, t, id) && x != id && Covers(s, x, cleaner)
    ensures Covers(t, x, cleaner)
  {
    assert FewerPieces(s, t, x);
  }

  /** A container that was accounted for and has not changed hands still is. */
  lemma FrameAccount(s: State, t: State, id: Id, x: Id)
    requires Frames(s, t, id) && x != id && Accounted(s, x)
    requires Owned(s, x) ==> Owned(t, x)
    requires Kept(s, x) ==> Kept(t, x) || x in t.created || x in t.lost
    requires BeingReaped(s, x) ==> BeingReaped(t, x)
    ensures Accounted(t, x)
  {
    assert FewerPieces(s, t, x);
  }

  lemma OthersOwned(s: State, t: State, r: nat, x: Id)
    requires r < |s.reqs| && |t.reqs| == |s.reqs| && t.reqs == s.reqs[r := t.reqs[r]]
    requires x != s.reqs[r].id || (Owns(t.reqs[r]) && t.reqs[r].id == s.reqs[r].id)
    ensures Owned(s, x) ==> Owned(t, x)
  {
    if Owned(s, x) {
      var i :| 0 <= i < |s.reqs| && s.reqs[i].id == x && Owns(s.reqs[i]);
      assert t.reqs[i].id == x && Owns(t.reqs[i]);
    }
  }

  /** What is parked in both states under the same name. */
  ghost predicate StaysParked(s: State, t: State, n: string) {
    s.store.Holds(n) && t.store.Holds(n) && t.store.entries[n].resource == s.store.entries[n].resource
  }

  /** What a step about its own container leaves of an owning request. */
  ghost predicate Advances(s: State, t: State, r: nat) {
    && r < |s.reqs| && |t.reqs| == |s.reqs| && t.reqs == s.reqs[r := t.reqs[r]] && t.reqs[r].id == s.reqs[r].id
    && t.reaper == s.reaper && Frames(s, t, s.reqs[r].id)
    && (Owns(t.reqs[r]) ==> RequestTidy(t, t.reqs[r])) && Accounted(t, s.reqs[r].id)
  }

  /** What is parked stays, or is newly parked in order, or has been taken over or lost. */
  ghost predicate Parks(s: State, t: State) {
    && (forall n :: t.store.Holds(n) ==> StaysParked(s, t, n) || ParkedTidy(t, n))
    && (forall n :: s.store.Holds(n) ==>
         StaysParked(s, t, n) || s.store.entries[n].resource.value.id in t.created || s.store.entries[n].resource.value.id in t.lost)
  }

  lemma TidyStep(s: State, t: State, r: nat)
    requires Claims(s) && Tidy(s) && Advances(s, t, r) && Owns(s.reqs[r]) && Parks(s, t)
    ensures Tidy(t)
  {
    var id := s.reqs[r].id;
    forall i | 0 <= i < |t.reqs| && Owns(t.reqs[i])
      ensures RequestTidy(t, t.reqs[i])
    {
      if i != r {
        assert t.reqs[i] == s.reqs[i] && RequestTidy(s, s.reqs[i]);
        FrameCovers(s, t, id, s.reqs[i].id, s.reqs[i].cleaner);
      }
    }
    forall n | t.store.Holds(n)
      ensures ParkedTidy(t, n)
    {
      if StaysParked(s, t, n) {
        assert ParkedTidy(s, n) && ParkedClaims(s, n);
        FrameCovers(s, t, id, s.store.entries[n].resource.value.id, s.store.entries[n].resource.value.cleaner);
      }
    }
    TidyReaper(s, t, id);
    assert RequestClaims(s, s.reqs[r]);
    forall x | Live(t, x)
      ensures x in t.ids
    {
      assert x != id ==> FewerPieces(s, t, x) && Live(s, x);
    }
    forall x | x in t.ids
      ensures Accounted(t, x)
    {
      if x != id {
        OthersOwned(s, t, r, x);
        KeptOn(s, t, x);
        FrameAccount(s, t, id, x);
      }
    }
  }

  lemma KeptOn(s: State, t: State, x: Id)
    requires Parks(s, t)
    ensures Kept(s, x) ==> Kept(t, x) || x in t.created || x in t.lost
  {
    if Kept(s, x) {
      var n :| s.store.Holds(n) && s.store.entries[n].resource.value.id == x;
      assert StaysParked(s, t, n) ==> t.store.Holds(n) && t.store.entries[n].resource.value.id == x;
    }
  }

  lemma TidyReaper(s: State, t: State, id: Id)
    requires Claims(s) && Tidy(s) && Frames(s, t, id) && t.reaper == s.reaper && !Unowned(s, id)
    ensures forall j :: j in t.reaper ==> JobTidy(t, j)
  {
    forall j | j in t.reaper
      ensures JobTidy(t, j)
    {
      assert JobTidy(s, j) && ReaperClaims(s, j);
      FrameCovers(s, t, id, j.id, j.cleaner);
    }
  }

  lemma SameFrames(s: State, t: State, id: Id)
    requires t.ids == s.ids && t.names == s.names && s.created <= t.created && s.lost <= t.lost && forall x :: x != id ==> SamePieces(s, t, x)
    ensures Frames(s, t, id)
  {
    forall x | x != id
      ensures FewerPieces(s, t, x)
    {
      assert SamePieces(s, t, x);
    }
  }

  // ---- requests ----

  lemma RetryTidy(s: State, r: nat)
    requires Claims(s) && Tidy(s) && r < |s.reqs| && IsRetry(s.reqs[r].pc)
    ensures Tidy(RetryStep(s, r))
  {
    assert RequestTidy(s, s.reqs[r]) && RequestClaims(s, s.reqs[r]);
    RetryAdvances(s, r);
    RetryParks(s, r);
    TidyStep(s, RetryStep(s, r), r);
  }

  lemma RetryAdvances(s: State, r: nat)
    requires r < |s.reqs| && IsRetry(s.reqs[r].pc) && RequestTidy(s, s.reqs[r])
    ensures Advances(s, RetryStep(s, r), r)
  {
    var q, t := s.reqs[r], RetryStep(s, r);
    RetryRecords(s, r);
    RetryFrames(s, r);
    if Owns(t.reqs[r]) {
      assert Owned(t, q.id);
    } else {
      assert Gone(t, q.id);
    }
  }

  lemma RetryParks(s: State, r: nat)
    requires r < |s.reqs| && IsRetry(s.reqs[r].pc)
    ensures Parks(s, RetryStep(s, r))
  {
    forall n | s.store.Holds(n)
      ensures StaysParked(s, RetryStep(s, r), n) || s.store.entries[n].resource.value.id in RetryStep(s, r).created
    {
      KeptByRetry(s, r, n);
    }
    forall n | RetryStep(s, r).store.Holds(n)
      ensures StaysParked(s, RetryStep(s, r), n)
    {
      ParkedByRetry(s, r, n);
    }
  }

  lemma ParkedByRetry(s: State, r: nat, n: string)
    requires r < |s.reqs| && IsRetry(s.reqs[r].pc) && RetryStep(s, r).store.Holds(n)
    ensures StaysParked(s, RetryStep(s, r), n)
  {
    match s.reqs[r].pc
    case TryStore =>
    case Register =>
    case _ =>
  }

  lemma KeptByRetry(s: State, r: nat, n: string)
    requires r < |s.reqs| && IsRetry(s.reqs[r].pc) && s.store.Holds(n)
    ensures StaysParked(s, RetryStep(s, r), n) || s.store.entries[n].resource.value.id in RetryStep(s, r).created
  {
    match s.reqs[r].pc
    case TryStore =>
    case Register =>
    case _ =>
  }

  lemma RetryFrames(s: State, r: nat)
    requires r < |s.reqs| && IsRetry(s.reqs[r].pc) && !HoldsName(s, s.reqs[r].id)
    requires Covers(s, s.reqs[r].id, s.reqs[r].cleaner)
    ensures var q, t := s.reqs[r], RetryStep(s, r);
            && Frames(s, t, q.id) && Covers(t, q.id, q.cleaner) && (t.reqs[r].pc.Staging? || !HoldsName(t, q.id))
            && (IsRetry(t.reqs[r].pc) || t.reqs[r].pc.Staging? || t.reqs[r].pc.Undoing? || t.reqs[r].pc.Replying?)
  {
    var q, t := s.reqs[r], RetryStep(s, r);
    RetryRecords(s, r);
    assert s.created <= t.created by {
      match q.pc
      case TryStore =>
      case _ =>
    }
  }

  lemma CreateTidy(s: State, r: nat, ok: bool)
    requires Claims(s) && Tidy(s) && r < |s.reqs| && IsCreate(s.reqs[r].pc)
    ensures Tidy(CreateStep(s, r, ok))
  {
    assert RequestTidy(s, s.reqs[r]);
    CreateAdvances(s, r, ok);
    CreateParks(s, r, ok);
    TidyStep(s, CreateStep(s, r, ok), r);
  }

  lemma CreateAdvances(s: State, r: nat, ok: bool)
    requires r < |s.reqs| && IsCreate(s.reqs[r].pc) && RequestTidy(s, s.reqs[r])
    ensures Advances(s, CreateStep(s, r, ok), r)
  {
    CreateRecords(s, r, ok);
    CreatePieces(s, r, ok);
    SameFrames(s, CreateStep(s, r, ok), s.reqs[r].id);
    CreatePushes(s, r, ok);
    PushTidy(s, CreateStep(s, r, ok), r);
  }

  lemma PushTidy(s: State, t: State, r: nat)
    requires r < |s.reqs| && IsCreate(s.reqs[r].pc) && |t.reqs| == |s.reqs| && t.reqs[r].id == s.reqs[r].id && RequestTidy(s, s.reqs[r])
    requires Pushes(s.reqs[r], t.reqs[r]) && Undoable(t, s.reqs[r].id, |t.reqs[r].cleaner|)
    ensures Owns(t.reqs[r]) && RequestTidy(t, t.reqs[r]) && Owned(t, s.reqs[r].id)
  {
    PushedCovers(s.reqs[r], t.reqs[r]);
    assert Covers(t, s.reqs[r].id, t.reqs[r].cleaner);
  }

  lemma PushedCovers(q: Request, next: Request)
    requires IsCreate(q.pc) && Pushes(q, next) && q.cleaner == Stack(|q.cleaner|) && |q.cleaner| == Level(q.pc)
    ensures next.cleaner == Stack(|next.cleaner|) && Owns(next) && !IsRetry(next.pc) && (next.pc.Undoing? ==> next.cleaner != [])
    ensures !next.pc.Undoing? ==> |next.cleaner| == Level(next.pc)
  {
    if |next.cleaner| > |q.cleaner| {
      StackGrows(next.cleaner[0], |q.cleaner|);
    }
  }

  /** A creating request goes on with one more undo function, or with none at the stage before the
      runtime, or fails. */
  predicate Pushes(q: Request, next: Request) {
    || (next.pc.Undoing? && next.cleaner == q.cleaner && |q.cleaner| > 0)
    || (q.pc.StagingRuntime? && next.pc.Launching? && next.cleaner == q.cleaner)
    || (Level(q.pc) < 5 && IsCreating(next.pc) && Level(next.pc) == Level(q.pc) + 1 && next.cleaner == [Stack(5)[4 - Level(q.pc)]] + q.cleaner)
  }

  lemma CreatePushes(s: State, r: nat, ok: bool)
    requires r < |s.reqs| && IsCreate(s.reqs[r].pc) && |s.reqs[r].cleaner| == Level(s.reqs[r].pc) && Undoable(s, s.reqs[r].id, |s.reqs[r].cleaner|)
    ensures var q, t := s.reqs[r], CreateStep(s, r, ok);
            Pushes(q, t.reqs[r]) && Undoable(t, q.id, |t.reqs[r].cleaner|)
  {
    match s.reqs[r].pc
    case Staging =>
    case Storing =>
    case Adding =>
    case Indexing =>
    case StagingRuntime =>
    case Launching =>
  }

  lemma CreateParks(s: State, r: nat, ok: bool)
    requires r < |s.reqs| && IsCreate(s.reqs[r].pc)
    ensures Parks(s, CreateStep(s, r, ok))
  {
    match s.reqs[r].pc
    case Staging =>
    case StagingRuntime =>
    case _ =>
  }

  lemma FinishTidy(s: State, r: nat, ok: bool)
    requires Claims(s) && Tidy(s) && r < |s.reqs| && s.reqs[r].pc != Done && !IsRetry(s.reqs[r].pc) && !IsCreate(s.reqs[r].pc)
    ensures Tidy(FinishStep(s, r, ok))
  {
    var q, t := s.reqs[r], FinishStep(s, r, ok);
    match q.pc
    case Undoing => UndoTidy(s, r, ok);
    case Parking => ParkTidy(s, r, ok);
    case Replying(o) => ReplyTidy(s, r, ok);
    case _ => MarkTidy(s, r, ok);
  }

  /** Deciding, clearing the slot and marking as created. */
  lemma MarkTidy(s: State, r: nat, ok: bool)
    requires Claims(s) && Tidy(s) && r < |s.reqs| && (s.reqs[r].pc.Deciding? || s.reqs[r].pc.Unstoring? || s.reqs[r].pc.Marking?)
    ensures Tidy(FinishStep(s, r, ok))
  {
    assert RequestTidy(s, s.reqs[r]);
    MarkAdvances(s, r, ok);
    MarkParks(s, r, ok);
    TidyStep(s, FinishStep(s, r, ok), r);
  }

  lemma MarkParks(s: State, r: nat, ok: bool)
    requires r < |s.reqs| && (s.reqs[r].pc.Deciding? || s.reqs[r].pc.Unstoring? || s.reqs[r].pc.Marking?)
    ensures Parks(s, FinishStep(s, r, ok)) && s.lost <= FinishStep(s, r, ok).lost
  {
    match s.reqs[r].pc
    case Unstoring =>
    case _ =>
  }

  lemma MarkAdvances(s: State, r: nat, ok: bool)
    requires r < |s.reqs| && (s.reqs[r].pc.Deciding? || s.reqs[r].pc.Unstoring? || s.reqs[r].pc.Marking?) && RequestTidy(s, s.reqs[r])
    ensures Advances(s, FinishStep(s, r, ok), r)
  {
    FinishRecords(s, r, ok);
    FinishPieces(s, r, ok);
    MarkParks(s, r, ok);
    MarkEnds(s, FinishStep(s, r, ok), r);
  }

  lemma MarkEnds(s: State, t: State, r: nat)
    requires r < |s.reqs| && (s.reqs[r].pc.Deciding? || s.reqs[r].pc.Unstoring? || s.reqs[r].pc.Marking?) && RequestTidy(s, s.reqs[r])
    requires |t.reqs| == |s.reqs| && t.reqs == s.reqs[r := t.reqs[r]] && t.reqs[r].id == s.reqs[r].id && t.reaper == s.reaper
    requires FinishPc(s.reqs[r], t.reqs[r]) && t.ids == s.ids && t.names == s.names && s.lost <= t.lost
    requires t.created == if s.reqs[r].pc.Marking? then s.created + {s.reqs[r].id} else s.created
    requires forall x :: SamePieces(s, t, x)
    ensures Advances(s, t, r)
  {
    var q, next := s.reqs[r], t.reqs[r];
    SameFrames(s, t, q.id);
    assert Accounted(t, q.id) by {
      assert Owns(next) ==> Owned(t, q.id);
    }
    if !q.pc.Marking? {
      assert SamePieces(s, t, q.id);
      StillTidy(s, t, q, next);
    }
  }

  lemma StillTidy(s: State, t: State, q: Request, next: Request)
    requires RequestTidy(s, q) && SamePieces(s, t, q.id) && next.id == q.id && next.cleaner == q.cleaner
    requires (q.pc.Deciding? && (next.pc.Unstoring? || next.pc.Parking?)) || (q.pc.Unstoring? && next.pc.Marking?)
    ensures RequestTidy(t, next)
  {
    assert Level(q.pc) == 5 && Level(next.pc) == 5;
    assert Covers(t, next.id, next.cleaner);
  }

  lemma ParkTidy(s: State, r: nat, ok: bool)
    requires Claims(s) && Tidy(s) && r < |s.reqs| && s.reqs[r].pc.Parking?
    ensures Tidy(FinishStep(s, r, ok))
  {
    assert RequestTidy(s, s.reqs[r]);
    FinishPieces(s, r, ok);
    ParkEnds(s, FinishStep(s, r, ok), r);
    TidyStep(s, FinishStep(s, r, ok), r);
  }

  lemma ParkEnds(s: State, t: State, r: nat)
    requires r < |s.reqs| && s.reqs[r].pc.Parking? && RequestTidy(s, s.reqs[r])
    requires |t.reqs| == |s.reqs| && t.reqs == s.reqs[r := s.reqs[r].(pc := Done)] && t.reaper == s.reaper
    requires t.ids == s.ids && t.names == s.names && t.created == s.created && s.lost <= t.lost && forall x :: SamePieces(s, t, x)
    requires var q := s.reqs[r];
             var (store, taken) := PutInto(s.store, q.name, Job(q.name, q.id, q.cleaner));
             t.store == store && (!taken ==> q.id in t.lost)
    ensures Advances(s, t, r) && Parks(s, t)
  {
    var q := s.reqs[r];
    assert SamePieces(s, t, q.id);
    SameFrames(s, t, q.id);
    if !s.store.Holds(q.name) {
      assert t.store.Holds(q.name) && t.store.entries[q.name].resource.value == Job(q.name, q.id, q.cleaner);
      assert Kept(t, q.id) && ParkedTidy(t, q.name);
    }
  }

  lemma ReplyIs(s: State, r: nat, ok: bool)
    requires r < |s.reqs| && s.reqs[r].pc.Replying?
    ensures FinishStep(s, r, ok) == Moved(s, r, Done).(answers := s.answers[r := s.reqs[r].pc.other])
  {
  }

  lemma SameOwners(s: State, r: nat)
    requires r < |s.reqs| && s.reqs[r].pc.Replying?
    ensures SameOwned(s, Moved(s, r, Done))
  {
    assert !Owns(s.reqs[r]) && !Owns(Moved(s, r, Done).reqs[r]);
  }

  /** The same requests own the same containers in the same way. */
  ghost predicate SameOwned(s: State, t: State) {
    && |t.reqs| == |s.reqs|
    && forall i :: 0 <= i < |s.reqs| ==> (Owns(t.reqs[i]) <==> Owns(s.reqs[i])) && (Owns(s.reqs[i]) ==> t.reqs[i] == s.reqs[i])
  }

  lemma RepliedTidy(s: State, r: nat)
    requires Tidy(s) && r < |s.reqs| && s.reqs[r].pc.Replying?
    ensures Tidy(Moved(s, r, Done).(answers := s.answers[r := s.reqs[r].pc.other]))
  {
    SameOwners(s, r);
    SameTidy(s, Moved(s, r, Done).(answers := s.answers[r := s.reqs[r].pc.other]));
  }

  lemma ReplyTidy(s: State, r: nat, ok: bool)
    requires Claims(s) && Tidy(s) && r < |s.reqs| && s.reqs[r].pc.Replying?
    ensures Tidy(FinishStep(s, r, ok))
  {
    ReplyIs(s, r, ok);
    RepliedTidy(s, r);
  }

  /** Steps that change neither owners nor pieces nor names. */
  lemma SameTidy(s: State, t: State)
    requires Tidy(s) && SameOwned(s, t) && t.ids == s.ids && t.store == s.store && t.reaper == s.reaper
    requires t.names == s.names && s.created <= t.created && s.lost <= t.lost
    requires t.storage == s.storage && t.table == s.table && t.index == s.index && t.runtime == s.runtime
    ensures Tidy(t)
  {
    forall i | 0 <= i < |t.reqs| && Owns(t.reqs[i])
      ensures RequestTidy(t, t.reqs[i])
    {
      assert RequestTidy(s, s.reqs[i]);
    }
    forall n | t.store.Holds(n)
      ensures ParkedTidy(t, n)
    {
      assert ParkedTidy(s, n);
    }
    forall j | j in t.reaper
      ensures JobTidy(t, j)
    {
      assert JobTidy(s, j);
    }
    forall x | x in t.ids
      ensures Accounted(t, x)
    {
      assert Accounted(s, x);
      if Owned(s, x) {
        var i :| 0 <= i < |s.reqs| && s.reqs[i].id == x && Owns(s.reqs[i]);
        assert t.reqs[i].id == x && Owns(t.reqs[i]);
      }
    }
  }

  /** One undo function run: it shrinks the cover, and the last one gives up the name. */
  lemma UndoCovers(s: State, name: string, id: Id, cleaner: seq<Undo>)
    requires Named(s, id, name) && cleaner != [] && Covers(s, id, cleaner)
    ensures var t := Undone(s, cleaner[0], name, id);
            && Covers(t, id, cleaner[1..]) && (cleaner[1..] == [] ==> !HoldsName(t, id))
            && Frames(s, t, id)
  {
    var k := |cleaner|;
    assert Stack(k)[1..] == Stack(k - 1);
    UndonePieces(s, cleaner[0], name, id);
    match cleaner[0]
    case ReleaseName =>
    case DeleteStorage =>
    case RemoveFromTable =>
    case DeleteFromIndex =>
    case DeleteFromRuntime =>
  }

  /** The state is the other's as far as pieces, names and flags go. */
  ghost predicate Alike(u: State, t: State) {
    && t.names == u.names && t.ids == u.ids && t.storage == u.storage && t.table == u.table && t.index == u.index && t.runtime == u.runtime
    && t.created == u.created && t.lost == u.lost
  }

  lemma UndoneAlike(s: State, u: State, t: State, id: Id, cleaner: seq<Undo>)
    requires Frames(s, u, id) && Covers(u, id, cleaner) && (cleaner == [] ==> !HoldsName(u, id)) && Alike(u, t)
    ensures Frames(s, t, id) && Covers(t, id, cleaner) && (cleaner == [] ==> !HoldsName(t, id))
  {
    forall x | x != id
      ensures FewerPieces(s, t, x) && (HoldsName(t, x) ==> HoldsName(s, x))
    {
      assert FewerPieces(s, u, x);
    }
  }

  lemma UndoTidy(s: State, r: nat, ok: bool)
    requires Claims(s) && Tidy(s) && r < |s.reqs| && s.reqs[r].pc.Undoing?
    ensures Tidy(FinishStep(s, r, ok))
  {
    assert RequestTidy(s, s.reqs[r]) && RequestClaims(s, s.reqs[r]);
    UndoneRecords(s, r, ok);
    if s.reqs[r].cleaner != [] && ok {
      UndoneAdvances(s, r);
    } else {
      UndoEnds(s, FinishStep(s, r, ok), r);
    }
    TidyStep(s, FinishStep(s, r, ok), r);
  }

  lemma UndoneAdvances(s: State, r: nat)
    requires r < |s.reqs| && s.reqs[r].pc.Undoing? && s.reqs[r].cleaner != []
    requires RequestTidy(s, s.reqs[r]) && Named(s, s.reqs[r].id, s.reqs[r].name)
    ensures Advances(s, FinishStep(s, r, true), r)
  {
    var q, t := s.reqs[r], FinishStep(s, r, true);
    UndoCovers(s, q.name, q.id, q.cleaner);
    UndoneAlike(s, Undone(s, q.cleaner[0], q.name, q.id), t, q.id, q.cleaner[1..]);
    UndoneRecords(s, r, true);
    assert Owned(t, q.id);
  }

  lemma UndoEnds(s: State, t: State, r: nat)
    requires r < |s.reqs| && s.reqs[r].pc.Undoing? && RequestTidy(s, s.reqs[r])
    requires |t.reqs| == |s.reqs| && t.reqs == s.reqs[r := s.reqs[r].(pc := Done)] && t.reaper == s.reaper
    requires Alike(s, t.(lost := s.lost)) && s.lost <= t.lost && (s.reqs[r].cleaner != [] ==> s.reqs[r].id in t.lost)
    ensures Advances(s, t, r)
  {
    SameFrames(s, t, s.reqs[r].id);
    assert s.reqs[r].cleaner == [] ==> Gone(t, s.reqs[r].id);
  }

  // ---- the others ----

  /** A request that has just arrived has nothing to undo. */
  lemma NewTidy(s: State, name: string, id: Id)
    requires id !in s.ids && !Live(s, id) && forall n :: n in s.names ==> Named(s, s.names[n], n)
    ensures RequestTidy(Apply(s, Arrive(name, id)), Request(name, id, Reserving, []))
  {
  }

  lemma ArriveTidy(s: State, name: string, id: Id)
    requires Claims(s) && Tidy(s) && id !in s.ids
    ensures Tidy(Apply(s, Arrive(name, id)))
  {
    var t := Apply(s, Arrive(name, id));
    assert !Live(s, id);
    assert forall n :: n in s.names ==> Named(s, s.names[n], n);
    NewTidy(s, name, id);
    forall i | 0 <= i < |t.reqs| && Owns(t.reqs[i])
      ensures RequestTidy(t, t.reqs[i])
    {
      if i < |s.reqs| {
        assert RequestTidy(s, s.reqs[i]) && RequestClaims(s, s.reqs[i]) && t.reqs[i] == s.reqs[i];
      }
    }
    forall n | t.store.Holds(n)
      ensures ParkedTidy(t, n)
    {
      assert ParkedTidy(s, n);
    }
    forall j | j in t.reaper
      ensures JobTidy(t, j)
    {
      assert JobTidy(s, j) && ReaperClaims(s, j);
    }
    forall x | x in t.ids
      ensures Accounted(t, x)
    {
      ArriveAccounts(s, name, id, x);
    }
  }

  lemma ArriveAccounts(s: State, name: string, id: Id, x: Id)
    requires Tidy(s) && id !in s.ids && (x in s.ids || x == id)
    ensures Accounted(Apply(s, Arrive(name, id)), x)
  {
    var t := Apply(s, Arrive(name, id));
    if x == id {
      assert t.reqs[|s.reqs|].id == id && Owns(t.reqs[|s.reqs|]);
    } else {
      assert Accounted(s, x);
      if Owned(s, x) {
        var i :| 0 <= i < |s.reqs| && s.reqs[i].id == x && Owns(s.reqs[i]);
        assert t.reqs[i].id == x && Owns(t.reqs[i]);
      }
    }
  }

  lemma SweepTidy(s: State, order: seq<string>)
    requires Claims(s) && Tidy(s) && Enabled(s, SweepNow(order))
    ensures Tidy(Apply(s, SweepNow(order)))
  {
    var t := Apply(s, SweepNow(order));
    SweptFromParked(s.store);
    forall i | 0 <= i < |t.reqs| && Owns(t.reqs[i])
      ensures RequestTidy(t, t.reqs[i])
    {
      assert RequestTidy(s, s.reqs[i]);
    }
    forall n | t.store.Holds(n)
      ensures ParkedTidy(t, n)
    {
      assert ParkedTidy(s, n);
    }
    forall j | j in t.reaper
      ensures JobTidy(t, j)
    {
      var i :| 0 <= i < |order| && t.reaper[i] == j;
      assert order[i] in order && ParkedTidy(s, order[i]);
    }
    forall x | x in t.ids
      ensures Accounted(t, x)
    {
      SweepAccounts(s, order, x);
    }
  }

  lemma SweepAccounts(s: State, order: seq<string>, x: Id)
    requires Tidy(s) && Enabled(s, SweepNow(order)) && x in s.ids
    ensures Accounted(Apply(s, SweepNow(order)), x)
  {
    var t := Apply(s, SweepNow(order));
    assert Accounted(s, x);
    if Owned(s, x) {
      assert Owned(t, x);
    } else if Kept(s, x) {
      var n :| s.store.Holds(n) && s.store.entries[n].resource.value.id == x;
      if n in Reaped(s.store) {
        var i :| 0 <= i < |order| && order[i] == n;
        assert t.reaper[i] in t.reaper && t.reaper[i].id == x;
      } else {
        assert t.store.Holds(n) && t.store.entries[n].resource == s.store.entries[n].resource;
      }
    }
  }

  lemma ReapTidy(s: State, ok: bool)
    requires Claims(s) && Tidy(s) && Enabled(s, Reap(ok))
    ensures Tidy(Apply(s, Reap(ok)))
  {
    var j, t := s.reaper[0], Apply(s, Reap(ok));
    ReapRecords(s, ok);
    assert j in s.reaper;
    assert JobTidy(s, j) && ReaperClaims(s, j);
    ReapFrames(s, ok);
    forall i | 0 <= i < |t.reqs| && Owns(t.reqs[i])
      ensures RequestTidy(t, t.reqs[i])
    {
      assert RequestTidy(s, s.reqs[i]);
      FrameCovers(s, t, j.id, s.reqs[i].id, s.reqs[i].cleaner);
    }
    forall n | t.store.Holds(n)
      ensures ParkedTidy(t, n)
    {
      assert ParkedTidy(s, n) && ParkedClaims(s, n);
      FrameCovers(s, t, j.id, s.store.entries[n].resource.value.id, s.store.entries[n].resource.value.cleaner);
    }
    ReapJobs(s, ok);
    forall x | x in t.ids
      ensures Accounted(t, x)
    {
      ReapAccounts(s, ok, x);
    }
    forall x | Live(t, x)
      ensures x in t.ids
    {
      assert x != j.id ==> FewerPieces(s, t, x) && Live(s, x);
    }
  }

  lemma ReapFrames(s: State, ok: bool)
    requires Enabled(s, Reap(ok)) && JobTidy(s, s.reaper[0]) && Named(s, s.reaper[0].id, s.reaper[0].name)
    ensures var j, t := s.reaper[0], Apply(s, Reap(ok));
            && Frames(s, t, j.id) && FewerPieces(s, t, j.id) && (HoldsName(t, j.id) ==> HoldsName(s, j.id))
            && (ok && j.cleaner != [] ==> t.reaper == [j.(cleaner := j.cleaner[1..])] + s.reaper[1..] && JobTidy(t, t.reaper[0]))
            && (!ok || j.cleaner == [] ==> t.reaper == s.reaper[1..] && (j.cleaner == [] ==> Gone(t, j.id)) && (j.cleaner != [] ==> j.id in t.lost))
  {
    var j := s.reaper[0];
    ReapRecords(s, ok);
    ReapPieces(s, ok);
    if j.cleaner != [] && ok {
      UndoCovers(s, j.name, j.id, j.cleaner);
      UndoneAlike(s, Undone(s, j.cleaner[0], j.name, j.id), Apply(s, Reap(ok)), j.id, j.cleaner[1..]);
    }
  }

  lemma ReapJobs(s: State, ok: bool)
    requires Claims(s) && Tidy(s) && Enabled(s, Reap(ok))
    ensures var t := Apply(s, Reap(ok)); forall x :: x in t.reaper ==> JobTidy(t, x)
  {
    var j, t := s.reaper[0], Apply(s, Reap(ok));
    assert j in s.reaper && JobTidy(s, j) && ReaperClaims(s, j);
    ReapFrames(s, ok);
    forall x | x in t.reaper
      ensures JobTidy(t, x)
    {
      if x in s.reaper[1..] {
        assert x in s.reaper && JobTidy(s, x);
        if x.id == j.id {
          assert FewerPieces(s, t, x.id);
        } else {
          FrameCovers(s, t, j.id, x.id, x.cleaner);
        }
      } else {
        assert x == t.reaper[0];
      }
    }
  }

  lemma ReapAccounts(s: State, ok: bool, x: Id)
    requires Claims(s) && Tidy(s) && Enabled(s, Reap(ok)) && x in s.ids
    ensures Accounted(Apply(s, Reap(ok)), x)
  {
    var j, t := s.reaper[0], Apply(s, Reap(ok));
    assert j in s.reaper && JobTidy(s, j) && ReaperClaims(s, j);
    ReapRecords(s, ok);
    ReapFrames(s, ok);
    assert Accounted(s, x);
    assert Owned(s, x) ==> Owned(t, x);
    assert Kept(s, x) ==> Kept(t, x);
    if x == j.id {
      if ok && j.cleaner != [] {
        assert t.reaper[0] in t.reaper && t.reaper[0].id == x;
      }
    } else {
      if BeingReaped(s, x) {
        var y :| y in s.reaper && y.id == x;
        assert y in s.reaper[1..];
        assert y in t.reaper;
      }
      FrameAccount(s, t, j.id, x);
    }
  }

  lemma BeginTidy(s: State, id: Id)
    requires Tidy(s) && Enabled(s, Remove(id))
    ensures Tidy(Apply(s, Remove(id)))
  {
    SameTidy(s, Apply(s, Remove(id)));
  }

  lemma RemoveTidy(s: State, k: nat, ok: bool)
    requires Claims(s) && Tidy(s) && Enabled(s, RemoveMore(k, ok))
    ensures Tidy(RemoveStep(s, k, ok))
  {
    var id, t := s.removals[k].id, RemoveStep(s, k, ok);
    RemoveRecords(s, k, ok);
    RemovePieces(s, k, ok);
    assert Frames(s, t, id);
    forall i | 0 <= i < |t.reqs| && Owns(t.reqs[i])
      ensures RequestTidy(t, t.reqs[i])
    {
      assert RequestTidy(s, s.reqs[i]) && RequestClaims(s, s.reqs[i]);
      FrameCovers(s, t, id, s.reqs[i].id, s.reqs[i].cleaner);
    }
    forall n | t.store.Holds(n)
      ensures ParkedTidy(t, n)
    {
      assert ParkedTidy(s, n) && ParkedClaims(s, n);
      FrameCovers(s, t, id, s.store.entries[n].resource.value.id, s.store.entries[n].resource.value.cleaner);
    }
    forall j | j in t.reaper
      ensures JobTidy(t, j)
    {
      assert JobTidy(s, j) && ReaperClaims(s, j);
      FrameCovers(s, t, id, j.id, j.cleaner);
    }
    forall x | x in t.ids
      ensures Accounted(t, x)
    {
      assert Accounted(s, x);
      assert (Owned(s, x) ==> Owned(t, x)) && (Kept(s, x) ==> Kept(t, x)) && (BeingReaped(s, x) ==> BeingReaped(t, x));
      if x != id {
        FrameAccount(s, t, id, x);
      }
    }
    forall x | Live(t, x)
      ensures x in t.ids
    {
      assert FewerPieces(s, t, x) && Live(s, x);
    }
  }

  lemma StepTidy(s: State, a: Action)
    requires Claims(s) && Tidy(s) && Enabled(s, a)
    ensures Tidy(Apply(s, a))
  {
    match a
    case Arrive(name, id) => ArriveTidy(s, name, id);
    case Proceed(r, ok) =>
      if IsRetry(s.reqs[r].pc) {
        RetryTidy(s, r);
      } else if IsCreate(s.reqs[r].pc) {
        CreateTidy(s, r, ok);
      } else {
        FinishTidy(s, r, ok);
      }
    case SweepNow(order) => SweepTidy(s, order);
    case Reap(ok) => ReapTidy(s, ok);
    case Remove(id) => BeginTidy(s, id);
    case RemoveMore(k, ok) => RemoveTidy(s, k, ok);
  }

  lemma {:induction false} RunTidy(states: seq<State>, actions: seq<Action>, i: nat)
    requires IsRun(states, actions) && i < |states|
    ensures Tidy(states[i])
  {
    if i > 0 {
      RunTidy(states, actions, i - 1);
      RunClaims(states, actions, i - 1);
      StepTidy(states[i - 1], actions[i - 1]);
    }
  }

  /** In every interleaving each container ever begun is owned by a request still at work on it, parked,
      created, being taken apart by the sweeper, recorded as lost sight of, or gone, pieces and name. */
  lemma NoneForgotten(states: seq<State>, actions: seq<Action>, i: nat, id: Id)
    requires IsRun(states, actions) && i < |states| && (id in states[i].ids || Live(states[i], id))
    ensures Accounted(states[i], id)
  {
    RunTidy(states, actions, i);
  }

  /** A clean-up none of whose functions was given up leaves nothing. */
  lemma CleanedIsGone(states: seq<State>, actions: seq<Action>, i: nat, id: Id)
    requires IsRun(states, actions) && i < |states| && id in states[i].cleaned && id !in states[i].lost
    requires !Owned(states[i], id) && !BeingReaped(states[i], id)
    ensures !Live(states[i], id) && !HoldsName(states[i], id)
  {
    RunTidy(states, actions, i);
    RunClaims(states, actions, i);
    var s := states[i];
    forall n | s.store.Holds(n)
      ensures s.store.entries[n].resource.value.id !in s.cleaned
    {
      assert ParkedClaims(s, n);
    }
  }

  /** An undo function fails and the cleaner gives up. */
  ghost predicate GivesUp(s: State, a: Action)
    requires Enabled(s, a)
  {
    (a.Proceed? && !a.ok && s.reqs[a.r].pc.Undoing?) || a == Reap(false)
  }

  lemma LostByGivingUp(s: State, a: Action)
    requires Inv(s) && Enabled(s, a)
    ensures Apply(s, a).lost == s.lost || GivesUp(s, a)
  {
    match a
    case Proceed(r, ok) => RequestLoses(s, r, ok);
    case RemoveMore(k, ok) => RemoveRecords(s, k, ok);
    case Reap(ok) =>
      if s.reaper[0].cleaner != [] && ok {
        UndoneLoses(s, s.reaper[0].cleaner[0], s.reaper[0].name, s.reaper[0].id);
      }
    case _ =>
  }

  lemma NextLost(states: seq<State>, actions: seq<Action>, k: nat)
    requires IsRun(states, actions) && SafeRun(states, actions) && k < |actions| && !GivesUp(states[k], actions[k])
    ensures states[k + 1].lost == states[k].lost
  {
    RunInvariant(states, actions, k);
    LostByGivingUp(states[k], actions[k]);
  }

  lemma {:induction false} LostStays(states: seq<State>, i: nat)
    requires i < |states| && forall k :: 0 <= k < i ==> states[k + 1].lost == states[k].lost
    ensures states[i].lost == states[0].lost
  {
    if i > 0 {
      LostStays(states, i - 1);
      assert states[i - 1 + 1].lost == states[i - 1].lost;
    }
  }

  /** In a run without the release of an heir's name in which no cleaner gives up, no container is ever
      lost sight of: the store takes what is parked, and keeps it until it is taken or swept. */
  lemma NoneLost(states: seq<State>, actions: seq<Action>, i: nat)
    requires IsRun(states, actions) && SafeRun(states, actions) && i < |states|
    requires forall k {:trigger GivesUp(states[k], actions[k])} :: 0 <= k < i ==> !GivesUp(states[k], actions[k])
    ensures states[i].lost == {}
  {
    forall k | 0 <= k < i
      ensures states[k + 1].lost == states[k].lost
    {
      assert !GivesUp(states[k], actions[k]);
      NextLost(states, actions, k);
    }
    LostStays(states, i);
  }

  lemma UndoneLoses(s: State, u: Undo, name: string, id: Id)
    ensures Undone(s, u, name, id).lost == s.lost
  {
    match u
    case ReleaseName =>
    case _ =>
  }

  lemma RequestLoses(s: State, r: nat, ok: bool)
    requires Inv(s) && Enabled(s, Proceed(r, ok))
    ensures Apply(s, Proceed(r, ok)).lost == s.lost || (!ok && s.reqs[r].pc.Undoing?)
  {
    if IsRetry(s.reqs[r].pc) {
      RetryRecords(s, r);
    } else if IsCreate(s.reqs[r].pc) {
      CreatePieces(s, r, ok);
    } else if s.reqs[r].pc.Undoing? {
      if ok && s.reqs[r].cleaner != [] {
        UndoneLoses(s, s.reqs[r].cleaner[0], s.reqs[r].name, s.reqs[r].id);
      }
    } else if IsCreating(s.reqs[r].pc) {
      NothingParkedUnderOwnName(s, r);
    }
  }
}
