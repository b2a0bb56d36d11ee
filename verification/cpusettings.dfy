/** The per-CPU settings a container asks for (internal/runtimehandlerhooks/high_performance_hooks_linux.go):
    doSetCPUPMQOSResumeLatency and doSetCPUFreqGovernor save a CPU's original value in a file of
    their own before they change it, and restore it from there. */
module CpuSettings {
  import opened Sequences

  type Cpu = nat

  /** The setting files and the save files, by CPU. */
  datatype Settings = Settings(current: map<Cpu, string>, saved: map<Cpu, string>)

  /** The points at which work on one CPU can fail. A governor is looked up before anything else;
      a torn save leaves a file with the first bytes of the value. */
  datatype Point = Check | Save | TornSave(kept: nat) | Update | ReadSaved | WriteBack | Remove

  /** An I/O error at the CPU with the given place in the list. */
  datatype Fault = NoFault | At(index: nat, point: Point)

  datatype Outcome = Outcome(settings: Settings, ok: bool)

  // ---- setting a value ----

  function SaveOne(s: Settings, cpu: Cpu): Settings
    requires cpu in s.current
  {
    if cpu in s.saved then s else s.(saved := s.saved[cpu := s.current[cpu]])
  }

  /** What a write that stopped after so many bytes leaves of a value. */
  function Head(v: string, kept: nat): string {
    if kept < |v| then v[..kept] else v
  }

  predicate IsTorn(fault: Fault, i: nat) {
    fault.At? && fault.index == i && fault.point.TornSave?
  }

  function SetFrom(s: Settings, list: seq<Cpu>, i: nat, value: string, fault: Fault): Outcome
    requires i <= |list|
    decreases |list| - i
  {
    if i == |list| then Outcome(s, true)
    else
      var cpu := list[i];
      if fault == At(i, Check) || cpu !in s.current || (cpu !in s.saved && fault == At(i, Save)) then Outcome(s, false)
      else if cpu !in s.saved && IsTorn(fault, i) then
        Outcome(s.(saved := s.saved[cpu := Head(s.current[cpu], fault.point.kept)]), false)
      else
        var kept := SaveOne(s, cpu);
        if fault == At(i, Update) then Outcome(kept, false)
        else SetFrom(kept.(current := kept.current[cpu := value]), list, i + 1, value, fault)
  }

  // ---- restoring ----

  function RestoreFrom(s: Settings, list: seq<Cpu>, i: nat, fault: Fault): Outcome
    requires i <= |list|
    decreases |list| - i
  {
    if i == |list| then Outcome(s, true)
    else
      var cpu := list[i];
      if fault == At(i, ReadSaved) then Outcome(s, false)
      else if cpu !in s.saved then Outcome(s, true)
      else if cpu !in s.current || fault == At(i, WriteBack) then Outcome(s, false)
      else
        var back := s.(current := s.current[cpu := s.saved[cpu]]);
        if fault == At(i, Remove) then Outcome(back, false)
        else RestoreFrom(back.(saved := back.saved - {cpu}), list, i + 1, fault)
  }

  /** One call of the hook: the empty value asks for the original one. */
  function Call(s: Settings, list: seq<Cpu>, value: string, fault: Fault): Outcome {
    if value != "" then SetFrom(s, list, 0, value, fault) else RestoreFrom(s, list, 0, fault)
  }

  // ---- what a call does to each CPU ----

  /** A set stops at the CPU with place k. */
  predicate SetStops(s: Settings, list: seq<Cpu>, k: nat, fault: Fault)
    requires k < |list|
  {
    || list[k] !in s.current
    || fault == At(k, Check) || fault == At(k, Update)
    || (list[k] !in s.saved && (fault == At(k, Save) || IsTorn(fault, k)))
  }

  /** A restore stops there: with an error, or because nothing is saved. */
  predicate RestoreStopsAt(s: Settings, list: seq<Cpu>, k: nat, fault: Fault)
    requires k < |list|
  {
    || list[k] !in s.saved || list[k] !in s.current
    || fault == At(k, ReadSaved) || fault == At(k, WriteBack) || fault == At(k, Remove)
  }

  /** The place at which a call stops, or the end of the list. */
  ghost predicate StopsFirst(s: Settings, list: seq<Cpu>, value: string, fault: Fault, n: nat) {
    && n <= |list|
    && (n < |list| ==> if value != "" then SetStops(s, list, n, fault) else RestoreStopsAt(s, list, n, fault))
    && (forall k :: 0 <= k < n ==> !(if value != "" then SetStops(s, list, k, fault) else RestoreStopsAt(s, list, k, fault)))
  }

  lemma FirstStop(s: Settings, list: seq<Cpu>, value: string, fault: Fault) returns (n: nat)
    ensures StopsFirst(s, list, value, fault, n)
  {
    n := 0;
    while n < |list| && !(if value != "" then SetStops(s, list, n, fault) else RestoreStopsAt(s, list, n, fault))
      invariant n <= |list|
      invariant forall k :: 0 <= k < n ==> !(if value != "" then SetStops(s, list, k, fault) else RestoreStopsAt(s, list, k, fault))
    {
      n := n + 1;
    }
  }

  /** What the save file of the CPU at which a set stops has become: nothing new, the whole value
      when only the update failed, or its head. */
  ghost predicate SaveLeft(s: Settings, t: Settings, cpu: Cpu, n: nat, fault: Fault) {
    if cpu in s.saved then cpu in t.saved && t.saved[cpu] == s.saved[cpu]
    else if cpu in s.current && fault == At(n, Update) then cpu in t.saved && t.saved[cpu] == s.current[cpu]
    else if cpu in s.current && IsTorn(fault, n) then cpu in t.saved && t.saved[cpu] == Head(s.current[cpu], fault.point.kept)
    else cpu !in t.saved
  }

  /** From `s` to `t` the CPUs with places from i to n were set, their values saved if they were not
      yet, and no other but the one at n touched, which still has its value. */
  ghost predicate WasSet(s: Settings, t: Settings, list: seq<Cpu>, i: nat, n: nat, value: string, fault: Fault)
    requires i <= n <= |list|
  {
    && t.current.Keys == s.current.Keys
    && (forall c :: c in s.current ==> t.current[c] == if c in list[i..n] then value else s.current[c])
    && (forall c :: c in list[i..n] ==> c in s.current && c in t.saved && t.saved[c] == if c in s.saved then s.saved[c] else s.current[c])
    && (forall c :: c !in list[i..n] && !(n < |list| && c == list[n]) ==>
         (c in t.saved <==> c in s.saved) && (c in s.saved ==> t.saved[c] == s.saved[c]))
    && (n < |list| ==> SaveLeft(s, t, list[n], n, fault))
  }

  function SetOne(s: Settings, cpu: Cpu, value: string): Settings
    requires cpu in s.current
  {
    SaveOne(s, cpu).(current := s.current[cpu := value])
  }

  lemma {:induction false} SetFromExactly(s: Settings, list: seq<Cpu>, i: nat, value: string, fault: Fault, n: nat)
    requires NoDuplicates(list) && i <= n <= |list|
    requires forall k :: i <= k < n ==> !SetStops(s, list, k, fault)
    requires n < |list| ==> SetStops(s, list, n, fault)
    ensures var r := SetFrom(s, list, i, value, fault);
            (r.ok <==> n == |list|) && WasSet(s, r.settings, list, i, n, value, fault)
    decreases n - i
  {
    if i < n {
      assert !SetStops(s, list, i, fault);
      var cpu, next := list[i], SetOne(s, list[i], value);
      forall k | i < k < |list|
        ensures SetStops(next, list, k, fault) <==> SetStops(s, list, k, fault)
      {
        assert list[k] != cpu;
      }
      SetFromExactly(next, list, i + 1, value, fault, n);
      SetStep(s, SetFrom(s, list, i, value, fault).settings, list, i, n, value, fault);
    }
  }

  lemma SetStep(s: Settings, t: Settings, list: seq<Cpu>, i: nat, n: nat, value: string, fault: Fault)
    requires NoDuplicates(list) && i < n <= |list| && list[i] in s.current
    requires WasSet(SetOne(s, list[i], value), t, list, i + 1, n, value, fault)
    ensures WasSet(s, t, list, i, n, value, fault)
  {
    assert list[i..n] == [list[i]] + list[i + 1..n];
    forall k | i < k < |list|
      ensures list[k] != list[i]
    {
    }
    assert list[i] !in list[i + 1..n];
  }

  /** From `s` to `t` the CPUs with places from i to n were written back and their save files removed;
      the one at n was written back if only the removal failed. */
  ghost predicate WasRestored(s: Settings, t: Settings, list: seq<Cpu>, i: nat, n: nat, fault: Fault)
    requires i <= n <= |list|
  {
    && t.current.Keys == s.current.Keys
    && (forall c :: c in list[i..n] ==> c in s.current && c in s.saved && t.current[c] == s.saved[c])
    && (forall c :: c in s.current && c !in list[i..n] && !(n < |list| && c == list[n]) ==> t.current[c] == s.current[c])
    && (n < |list| && list[n] in s.current ==>
         t.current[list[n]] == if list[n] in s.saved && fault == At(n, Remove) then s.saved[list[n]] else s.current[list[n]])
    && t.saved == s.saved - (set c | c in list[i..n])
  }

  lemma {:induction false} RestoreFromExactly(s: Settings, list: seq<Cpu>, i: nat, fault: Fault, n: nat)
    requires NoDuplicates(list) && i <= n <= |list|
    requires forall k :: i <= k < n ==> !RestoreStopsAt(s, list, k, fault)
    requires n < |list| ==> RestoreStopsAt(s, list, n, fault)
    ensures var r := RestoreFrom(s, list, i, fault);
            (r.ok <==> n == |list| || (list[n] !in s.saved && fault != At(n, ReadSaved))) &&
            WasRestored(s, r.settings, list, i, n, fault)
    decreases n - i
  {
    if i < n {
      assert !RestoreStopsAt(s, list, i, fault);
      var cpu := list[i];
      var next := Settings(s.current[cpu := s.saved[cpu]], s.saved - {cpu});
      forall k | i < k < |list|
        ensures RestoreStopsAt(next, list, k, fault) <==> RestoreStopsAt(s, list, k, fault)
      {
        assert list[k] != cpu;
      }
      RestoreFromExactly(next, list, i + 1, fault, n);
      RestoreOneStep(s, RestoreFrom(s, list, i, fault).settings, list, i, n, fault);
    }
  }

  lemma RestoreOneStep(s: Settings, t: Settings, list: seq<Cpu>, i: nat, n: nat, fault: Fault)
    requires NoDuplicates(list) && i < n <= |list| && list[i] in s.current && list[i] in s.saved
    requires WasRestored(Settings(s.current[list[i] := s.saved[list[i]]], s.saved - {list[i]}), t, list, i + 1, n, fault)
    ensures WasRestored(s, t, list, i, n, fault)
  {
    assert list[i..n] == [list[i]] + list[i + 1..n];
    forall k | i < k < |list|
      ensures list[k] != list[i]
    {
    }
    assert list[i] !in list[i + 1..n];
  }

  /** A set succeeds exactly when it stops nowhere. It then has given the value to every CPU of the
      list and to no other; stopped at n it has given it exactly to the CPUs before. */
  lemma SetExactly(s: Settings, list: seq<Cpu>, value: string, fault: Fault, n: nat)
    requires NoDuplicates(list) && value != "" && StopsFirst(s, list, value, fault, n)
    ensures var r := Call(s, list, value, fault);
            (r.ok <==> n == |list|) && WasSet(s, r.settings, list, 0, n, value, fault)
  {
    SetFromExactly(s, list, 0, value, fault, n);
  }

  /** A restore writes back and forgets exactly the CPUs before the place at which it stops. */
  lemma RestoresExactly(s: Settings, list: seq<Cpu>, fault: Fault, n: nat)
    requires NoDuplicates(list) && StopsFirst(s, list, "", fault, n)
    ensures var r := Call(s, list, "", fault);
            (r.ok <==> n == |list| || (list[n] !in s.saved && fault != At(n, ReadSaved))) &&
            WasRestored(s, r.settings, list, 0, n, fault)
  {
    RestoreFromExactly(s, list, 0, fault, n);
  }

  /** Without an I/O error every CPU of the list ends up with the value, and no other changes. */
  lemma SetSets(s: Settings, list: seq<Cpu>, value: string)
    requires NoDuplicates(list) && value != "" && forall c :: c in list ==> c in s.current
    ensures var r := Call(s, list, value, NoFault);
            r.ok && r.settings.current.Keys == s.current.Keys &&
            forall c :: c in s.current ==> r.settings.current[c] == if c in list then value else s.current[c]
  {
    forall k | 0 <= k < |list|
      ensures !SetStops(s, list, k, NoFault)
    {
      assert list[k] in list;
    }
    SetExactly(s, list, value, NoFault, |list|);
    assert list[0..|list|] == list;
  }

  class Files {
    var current: map<Cpu, string>
    var saved: map<Cpu, string>

    constructor (initial: map<Cpu, string>)
      ensures current == initial && saved == map[]
    {
      current := initial;
      saved := map[];
    }

    /** Both hooks: they differ in the files and in the governor's check, an error at Check. */
    method DoSet(list: seq<Cpu>, value: string, fault: Fault) returns (ok: bool)
      modifies this
      ensures Outcome(Settings(current, saved), ok) == Call(Settings(old(current), old(saved)), list, value, fault)
      ensures ok && value != "" && NoDuplicates(list) ==>
                forall c :: c in old(current) ==> c in current && current[c] == if c in list then value else old(current)[c]
      ensures ok && value != "" && NoDuplicates(list) ==>
                forall c :: c in list ==> c in saved && c in old(current) && saved[c] == if c in old(saved) then old(saved)[c] else old(current)[c]
    {
      if value != "" && NoDuplicates(list) {
        ghost var n := FirstStop(Settings(current, saved), list, value, fault);
        SetExactly(Settings(current, saved), list, value, fault, n);
        assert list[0..|list|] == list;
      }
      var i := 0;
      while i < |list|
        invariant 0 <= i <= |list|
        invariant value != "" ==>
                    SetFrom(Settings(current, saved), list, i, value, fault) == Call(Settings(old(current), old(saved)), list, value, fault)
        invariant value == "" ==>
                    RestoreFrom(Settings(current, saved), list, i, fault) == Call(Settings(old(current), old(saved)), list, value, fault)
      {
        var cpu := list[i];
        if value != "" {
          if fault == At(i, Check) || cpu !in current {
            return false;
          }
          if cpu !in saved {
            if fault == At(i, Save) {
              return false;
            }
            if IsTorn(fault, i) {
              saved := saved[cpu := Head(current[cpu], fault.point.kept)];
              return false;
            }
            saved := saved[cpu := current[cpu]];
          }
          if fault == At(i, Update) {
            return false;
          }
          current := current[cpu := value];
        } else {
          if fault == At(i, ReadSaved) {
            return false;
          }
          if cpu !in saved {
            return true;
          }
          if cpu !in current || fault == At(i, WriteBack) {
            return false;
          }
          current := current[cpu := saved[cpu]];
          if fault == At(i, Remove) {
            return false;
          }
          saved := saved - {cpu};
        }
        i := i + 1;
      }
      return true;
    }
  }

  // ---- what every call keeps ----

  /** A saved value is the original one; a CPU without a saved value, and a CPU of nobody's,
      still has its original value. */
  ghost predicate Tracks(s: Settings, original: map<Cpu, string>, list: seq<Cpu>) {
    s.current.Keys == original.Keys &&
    (forall c :: c in s.saved && c in list ==> c in original && s.saved[c] == original[c]) &&
    (forall c :: c in original && (c !in list || c !in s.saved) ==> s.current[c] == original[c])
  }

  /** A save of a CPU in the rest of the list, none of it missing, is torn. */
  ghost predicate Tears(s: Settings, list: seq<Cpu>, i: nat, fault: Fault) {
    fault.At? && fault.point.TornSave? && i <= fault.index < |list| && list[fault.index] !in s.saved &&
    forall k :: i <= k <= fault.index ==> list[k] in s.current
  }

  /** The values to go back to once a save of the CPU has kept only so much of its value. */
  function Worn(original: map<Cpu, string>, cpu: Cpu, kept: nat): map<Cpu, string> {
    if cpu in original then original[cpu := Head(original[cpu], kept)] else original
  }

  ghost function Remaining(s: Settings, original: map<Cpu, string>, list: seq<Cpu>, i: nat, fault: Fault): map<Cpu, string> {
    if Tears(s, list, i, fault) then Worn(original, list[fault.index], fault.point.kept) else original
  }

  lemma TornKeepsTrack(s: Settings, original: map<Cpu, string>, list: seq<Cpu>, cpu: Cpu, kept: nat)
    requires Tracks(s, original, list) && cpu in list && cpu in s.current && cpu !in s.saved
    ensures Tracks(s.(saved := s.saved[cpu := Head(s.current[cpu], kept)]), Worn(original, cpu, kept), list)
  {
    assert Worn(original, cpu, kept).Keys == original.Keys;
  }

  lemma SetOneKeepsTrack(s: Settings, original: map<Cpu, string>, list: seq<Cpu>, i: nat, value: string, fault: Fault)
    requires i < |list| && NoDuplicates(list) && Tracks(s, original, list) && list[i] in s.current
    requires list[i] in s.saved || !IsTorn(fault, i)
    ensures Tracks(SetOne(s, list[i], value), original, list)
    ensures Tears(SetOne(s, list[i], value), list, i + 1, fault) <==> Tears(s, list, i, fault)
  {
    assert SetOne(s, list[i], value).current.Keys == original.Keys;
  }

  /** Setting keeps what is to be restored, less what a torn save loses. */
  lemma {:induction false} SetKeepsOriginals(s: Settings, original: map<Cpu, string>, list: seq<Cpu>, i: nat, value: string, fault: Fault)
    requires i <= |list| && NoDuplicates(list) && Tracks(s, original, list)
    ensures Tracks(SetFrom(s, list, i, value, fault).settings, Remaining(s, original, list, i, fault), list)
    decreases |list| - i
  {
    if i < |list| && list[i] in s.current {
      var cpu := list[i];
      if cpu !in s.saved && IsTorn(fault, i) {
        TornKeepsTrack(s, original, list, cpu, fault.point.kept);
      } else {
        SetOneKeepsTrack(s, original, list, i, value, fault);
        SetKeepsOriginals(SetOne(s, cpu, value), original, list, i + 1, value, fault);
      }
    }
  }

  lemma {:induction false} RestoreKeepsOriginals(s: Settings, original: map<Cpu, string>, list: seq<Cpu>, i: nat, fault: Fault)
    requires i <= |list| && Tracks(s, original, list)
    ensures Tracks(RestoreFrom(s, list, i, fault).settings, original, list)
    decreases |list| - i
  {
    if i < |list| && list[i] in s.saved && list[i] in s.current {
      var cpu := list[i];
      var back := s.(current := s.current[cpu := s.saved[cpu]]);
      assert back.current.Keys == original.Keys;
      RestoreKeepsOriginals(back.(saved := back.saved - {cpu}), original, list, i + 1, fault);
    }
  }

  // ---- saved CPUs are a prefix of the list ----

  ghost predicate SavedPrefix(s: Settings, list: seq<Cpu>, m: nat) {
    m <= |list| && forall i :: 0 <= i < |list| ==> (list[i] in s.saved <==> i < m)
  }

  /** However it ends, setting extends the saved prefix. */
  lemma {:induction false} SetKeepsPrefix(s: Settings, list: seq<Cpu>, i: nat, value: string, fault: Fault, m: nat) returns (n: nat)
    requires i <= |list| && NoDuplicates(list) && SavedPrefix(s, list, m) && i <= m
    ensures n >= m && SavedPrefix(SetFrom(s, list, i, value, fault).settings, list, n)
    decreases |list| - i
  {
    n := m;
    if i < |list| && !(fault == At(i, Check) || list[i] !in s.current || (list[i] !in s.saved && fault == At(i, Save))) {
      var kept := SaveOne(s, list[i]);
      var k := if i == m then m + 1 else m;
      assert SavedPrefix(kept, list, k);
      if fault == At(i, Update) || (list[i] !in s.saved && IsTorn(fault, i)) {
        n := k;
      } else {
        n := SetKeepsPrefix(kept.(current := kept.current[list[i] := value]), list, i + 1, value, fault, k);
      }
    }
  }

  /** What a restore without an I/O error leaves: everything before the first unsaved CPU is
      restored, everything after it is not looked at. */
  lemma {:induction false} RestoreStops(s: Settings, original: map<Cpu, string>, list: seq<Cpu>, i: nat, first: nat)
    requires i <= first <= |list| && NoDuplicates(list) && Tracks(s, original, list)
    requires forall k :: i <= k < first ==> list[k] in s.saved
    requires first < |list| ==> list[first] !in s.saved
    ensures var r := RestoreFrom(s, list, i, NoFault);
            r.ok && (forall c :: c in r.settings.saved <==> c in s.saved && c !in list[i..first])
    decreases first - i
  {
    if i < first {
      var cpu := list[i];
      assert cpu in original;
      var next := Settings(s.current[cpu := s.saved[cpu]], s.saved - {cpu});
      assert Tracks(next, original, list);
      assert list[i..first] == [cpu] + list[i + 1..first];
      RestoreStops(next, original, list, i + 1, first);
    }
  }

  lemma FirstUnsaved(s: Settings, list: seq<Cpu>) returns (first: nat)
    ensures first <= |list| && (forall k :: 0 <= k < first ==> list[k] in s.saved) && (first < |list| ==> list[first] !in s.saved)
  {
    first := 0;
    while first < |list| && list[first] in s.saved
      invariant first <= |list| && forall k :: 0 <= k < first ==> list[k] in s.saved
    {
      first := first + 1;
    }
  }

  ghost predicate Restored(s: Settings, original: map<Cpu, string>, list: seq<Cpu>) {
    s.current == original && forall c :: c in list ==> c !in s.saved
  }

  lemma PrefixRestores(s: Settings, original: map<Cpu, string>, list: seq<Cpu>, m: nat)
    requires NoDuplicates(list) && Tracks(s, original, list) && SavedPrefix(s, list, m)
    ensures Call(s, list, "", NoFault).ok && Restored(Call(s, list, "", NoFault).settings, original, list)
  {
    RestoreStops(s, original, list, 0, m);
    RestoreKeepsOriginals(s, original, list, 0, NoFault);
    var r := Call(s, list, "", NoFault).settings;
    forall c | c in list
      ensures c !in r.saved
    {
      var k :| 0 <= k < |list| && list[k] == c;
      if k < m {
        assert list[0..m][k] == c;
      }
    }
    assert r.current == original;
  }

  /** A restore without an I/O error returns every CPU to its original value and leaves no saved
      value exactly when the saved CPUs are a prefix of the list. */
  lemma RestoreExactly(s: Settings, original: map<Cpu, string>, list: seq<Cpu>)
    requires NoDuplicates(list) && Tracks(s, original, list)
    ensures Call(s, list, "", NoFault).ok
    ensures Restored(Call(s, list, "", NoFault).settings, original, list) <==> exists m :: SavedPrefix(s, list, m)
  {
    if m :| SavedPrefix(s, list, m) {
      PrefixRestores(s, original, list, m);
    } else {
      var first := FirstUnsaved(s, list);
      RestoreStops(s, original, list, 0, first);
      var k := GapAfter(s, list, first);
      assert list[k] !in list[0..first];
      assert list[k] in list;
    }
  }

  lemma GapAfter(s: Settings, list: seq<Cpu>, first: nat) returns (k: nat)
    requires first <= |list| && (forall j :: 0 <= j < first ==> list[j] in s.saved) && (first < |list| ==> list[first] !in s.saved)
    requires !exists m :: SavedPrefix(s, list, m)
    ensures first < k < |list| && list[k] in s.saved
  {
    assert !SavedPrefix(s, list, first);
    k :| 0 <= k < |list| && !(list[k] in s.saved <==> k < first);
  }

  // ---- whole runs ----

  datatype Request = Request(value: string, fault: Fault)

  /** The settings after a run of calls. */
  function After(s: Settings, list: seq<Cpu>, run: seq<Request>): Settings {
    if run == [] then s
    else
      var last := run[|run| - 1];
      Call(After(s, list, run[..|run| - 1]), list, last.value, last.fault).settings
  }

  /** What the values to go back to have become after a run: torn saves wear them down. */
  ghost function OriginalsAfter(original: map<Cpu, string>, list: seq<Cpu>, run: seq<Request>): map<Cpu, string> {
    if run == [] then original
    else
      var rest, last := run[..|run| - 1], run[|run| - 1];
      var before := OriginalsAfter(original, list, rest);
      if last.value == "" then before
      else Remaining(After(Settings(original, map[]), list, rest), before, list, 0, last.fault)
  }

  /** Whatever the calls and wherever they fail, every CPU has its original value or one saved for
      it, less what torn saves have lost. */
  lemma {:induction false} RunKeepsOriginals(original: map<Cpu, string>, list: seq<Cpu>, run: seq<Request>)
    requires NoDuplicates(list)
    ensures Tracks(After(Settings(original, map[]), list, run), OriginalsAfter(original, list, run), list)
    decreases |run|
  {
    if run != [] {
      var rest, last := run[..|run| - 1], run[|run| - 1];
      var before, kept := After(Settings(original, map[]), list, rest), OriginalsAfter(original, list, rest);
      RunKeepsOriginals(original, list, rest);
      SetKeepsOriginals(before, kept, list, 0, last.value, last.fault);
      RestoreKeepsOriginals(before, kept, list, 0, last.fault);
    }
  }

  /** The call got as far as the CPU and changed its setting: gave it a value, or wrote one back. */
  ghost predicate Reaches(s: Settings, list: seq<Cpu>, r: Request, c: Cpu) {
    exists n: nat :: StopsFirst(s, list, r.value, r.fault, n) &&
      (c in list[..n] || (r.value == "" && n < |list| && c == list[n] && c in s.saved && c in s.current && r.fault == At(n, Remove)))
  }

  ghost function Before(original: map<Cpu, string>, list: seq<Cpu>, run: seq<Request>, k: nat): Settings
    requires k <= |run|
  {
    After(Settings(original, map[]), list, run[..k])
  }

  /** No call of the run from place k on reached the CPU. */
  ghost predicate UnreachedFrom(original: map<Cpu, string>, list: seq<Cpu>, run: seq<Request>, c: Cpu, k: nat) {
    forall m :: k <= m < |run| ==> !Reaches(Before(original, list, run, m), list, run[m], c)
  }

  lemma {:induction false} CallReaches(s: Settings, kept: map<Cpu, string>, list: seq<Cpu>, r: Request, c: Cpu)
    requires NoDuplicates(list) && Tracks(s, kept, list) && c in kept
    ensures var t := Call(s, list, r.value, r.fault).settings;
            c in t.current &&
            t.current[c] == if !Reaches(s, list, r, c) then s.current[c] else if r.value != "" then r.value else kept[c]
  {
    var n := FirstStop(s, list, r.value, r.fault);
    assert list[0..n] == list[..n];
    OneStop(s, list, r, n);
    if r.value != "" {
      SetExactly(s, list, r.value, r.fault, n);
    } else {
      RestoresExactly(s, list, r.fault, n);
    }
  }

  lemma OneStop(s: Settings, list: seq<Cpu>, r: Request, n: nat)
    requires StopsFirst(s, list, r.value, r.fault, n)
    ensures forall m: nat :: StopsFirst(s, list, r.value, r.fault, m) ==> m == n
  {
  }

  lemma {:induction false} RunHas(original: map<Cpu, string>, list: seq<Cpu>, run: seq<Request>, c: Cpu)
    requires NoDuplicates(list) && c in original
    ensures c in After(Settings(original, map[]), list, run).current && c in OriginalsAfter(original, list, run)
  {
    RunKeepsOriginals(original, list, run);
    OriginalsKept(original, list, run);
  }

  /** What the call at place k does to the CPU. */
  lemma {:induction false} CallOfRun(original: map<Cpu, string>, list: seq<Cpu>, run: seq<Request>, c: Cpu, k: nat)
    requires NoDuplicates(list) && c in original && k < |run|
    ensures var s, t, kept := Before(original, list, run, k), Before(original, list, run, k + 1), OriginalsAfter(original, list, run[..k]);
            c in s.current && c in t.current && c in kept &&
            t.current[c] == if !Reaches(s, list, run[k], c) then s.current[c] else if run[k].value != "" then run[k].value else kept[c]
  {
    RunHas(original, list, run[..k], c);
    RunKeepsOriginals(original, list, run[..k]);
    CallReaches(Before(original, list, run, k), OriginalsAfter(original, list, run[..k]), list, run[k], c);
    assert run[..k + 1][..k] == run[..k] && run[..k + 1][k] == run[k];
  }

  /** Calls that do not reach a CPU leave it alone. */
  lemma {:induction false} UnreachedStays(original: map<Cpu, string>, list: seq<Cpu>, run: seq<Request>, c: Cpu, k: nat)
    requires NoDuplicates(list) && c in original && k <= |run| && UnreachedFrom(original, list, run, c, k)
    ensures var s, t := Before(original, list, run, k), After(Settings(original, map[]), list, run);
            c in s.current && c in t.current && t.current[c] == s.current[c]
    decreases |run| - k
  {
    if k == |run| {
      assert run[..k] == run;
      RunHas(original, list, run, c);
    } else {
      CallOfRun(original, list, run, c, k);
      UnreachedStays(original, list, run, c, k + 1);
    }
  }

  /** Over any run, a CPU has the value of the latest call that reached it, or the kept original if
      that was a restore. */
  lemma {:induction false} LatestCallRules(original: map<Cpu, string>, list: seq<Cpu>, run: seq<Request>, c: Cpu, k: nat)
    requires NoDuplicates(list) && c in original && k < |run|
    requires Reaches(Before(original, list, run, k), list, run[k], c) && UnreachedFrom(original, list, run, c, k + 1)
    ensures var t, kept := After(Settings(original, map[]), list, run), OriginalsAfter(original, list, run[..k]);
            c in t.current && c in kept && t.current[c] == if run[k].value != "" then run[k].value else kept[c]
  {
    UnreachedStays(original, list, run, c, k + 1);
    CallOfRun(original, list, run, c, k);
  }

  /** A CPU that no call reached has its original value. */
  lemma {:induction false} UnreachedIsOriginal(original: map<Cpu, string>, list: seq<Cpu>, run: seq<Request>, c: Cpu)
    requires NoDuplicates(list) && c in original && UnreachedFrom(original, list, run, c, 0)
    ensures var t := After(Settings(original, map[]), list, run); c in t.current && t.current[c] == original[c]
  {
    UnreachedStays(original, list, run, c, 0);
    assert run[..0] == [];
  }

  /** The call loses part of a value: it tears the save of a CPU short of its whole value. */
  ghost predicate Loses(s: Settings, list: seq<Cpu>, r: Request) {
    r.value != "" && Tears(s, list, 0, r.fault) && r.fault.point.kept < |s.current[list[r.fault.index]]|
  }

  ghost predicate LosesNothing(original: map<Cpu, string>, list: seq<Cpu>, run: seq<Request>) {
    forall k :: 0 <= k < |run| ==> !Loses(After(Settings(original, map[]), list, run[..k]), list, run[k])
  }

  ghost predicate WornFrom(kept: map<Cpu, string>, original: map<Cpu, string>) {
    kept.Keys == original.Keys && forall c :: c in original ==> kept[c] <= original[c]
  }

  lemma WornStep(kept: map<Cpu, string>, original: map<Cpu, string>, cpu: Cpu, n: nat)
    requires WornFrom(kept, original) && cpu in original
    ensures WornFrom(Worn(kept, cpu, n), original)
    ensures Worn(kept, cpu, n) == original <==> kept == original && n >= |kept[cpu]|
  {
    var worn := Worn(kept, cpu, n);
    assert worn[cpu] <= kept[cpu] <= original[cpu];
    if worn == original {
      assert |worn[cpu]| <= |kept[cpu]| <= |original[cpu]|;
      assert kept[cpu] == original[cpu];
      forall c | c in original
        ensures kept[c] == original[c]
      {
        assert c != cpu ==> worn[c] == kept[c];
      }
      assert kept == original;
    }
  }

  lemma {:induction false} LosesNothingSoFar(original: map<Cpu, string>, list: seq<Cpu>, rest: seq<Request>, last: Request)
    ensures LosesNothing(original, list, rest + [last]) <==>
            LosesNothing(original, list, rest) && !Loses(After(Settings(original, map[]), list, rest), list, last)
  {
    var run := rest + [last];
    assert run[..|rest|] == rest && run[|rest|] == last;
    forall k | 0 <= k < |rest|
      ensures run[..k] == rest[..k] && run[k] == rest[k]
    {
    }
  }

  /** Nothing is lost exactly when no save was torn short of its whole value. */
  lemma {:induction false} OriginalsKept(original: map<Cpu, string>, list: seq<Cpu>, run: seq<Request>)
    requires NoDuplicates(list)
    ensures WornFrom(OriginalsAfter(original, list, run), original)
    ensures OriginalsAfter(original, list, run) == original <==> LosesNothing(original, list, run)
    decreases |run|
  {
    if run != [] {
      var rest, last := run[..|run| - 1], run[|run| - 1];
      assert run == rest + [last];
      var before, kept := After(Settings(original, map[]), list, rest), OriginalsAfter(original, list, rest);
      OriginalsKept(original, list, rest);
      LosesNothingSoFar(original, list, rest, last);
      RunKeepsOriginals(original, list, rest);
      if last.value != "" && Tears(before, list, 0, last.fault) {
        var cpu := list[last.fault.index];
        assert cpu in before.current && before.current[cpu] == kept[cpu];
        WornStep(kept, original, cpu, last.fault.point.kept);
      }
    }
  }

  lemma {:induction false} RunKeepsPrefix(original: map<Cpu, string>, list: seq<Cpu>, run: seq<Request>) returns (m: nat)
    requires NoDuplicates(list)
    requires forall k :: 0 <= k < |run| ==> run[k].value != "" || run[k].fault == NoFault
    ensures SavedPrefix(After(Settings(original, map[]), list, run), list, m)
    decreases |run|
  {
    m := 0;
    if run != [] {
      var before, last := After(Settings(original, map[]), list, run[..|run| - 1]), run[|run| - 1];
      m := RunKeepsPrefix(original, list, run[..|run| - 1]);
      if last.value != "" {
        m := SetKeepsPrefix(before, list, 0, last.value, last.fault, m);
      } else {
        RunKeepsOriginals(original, list, run[..|run| - 1]);
        PrefixRestores(before, OriginalsAfter(original, list, run[..|run| - 1]), list, m);
        m := 0;
      }
    }
  }

  /** Setting any number of times, failing anywhere, then restoring once without an I/O error leaves
      nothing saved, and returns every CPU to its original value exactly when no save was torn
      short of its whole value. */
  lemma {:induction false} RunThenRestore(original: map<Cpu, string>, list: seq<Cpu>, run: seq<Request>)
    requires NoDuplicates(list)
    requires forall k :: 0 <= k < |run| ==> run[k].value != "" || run[k].fault == NoFault
    ensures var r := Call(After(Settings(original, map[]), list, run), list, "", NoFault);
            r.ok && Restored(r.settings, OriginalsAfter(original, list, run), list) &&
            (Restored(r.settings, original, list) <==> LosesNothing(original, list, run))
  {
    var m := RunKeepsPrefix(original, list, run);
    RunKeepsOriginals(original, list, run);
    PrefixRestores(After(Settings(original, map[]), list, run), OriginalsAfter(original, list, run), list, m);
    OriginalsKept(original, list, run);
  }

  /** A save torn after its first byte: the next set takes the rest for the original. */
  lemma {:induction false} TornSaveLoses()
    ensures var original := map[0 := "ab"];
            var run := [Request("c", At(0, TornSave(1))), Request("c", NoFault)];
            Call(After(Settings(original, map[]), [0], run), [0], "", NoFault).settings.current == map[0 := "a"]
  {
    var original := map[0 := "ab"];
    var first := [Request("c", At(0, TornSave(1)))];
    var run := first + [Request("c", NoFault)];
    assert run[..1] == first && first[..0] == [];
    var torn := After(Settings(original, map[]), [0], first);
    assert torn == Settings(original, map[0 := "a"]) by {
      assert After(Settings(original, map[]), [0], []) == Settings(original, map[]);
      assert "ab"[..1] == "a";
    }
    var done := SetFrom(torn, [0], 0, "c", NoFault);
    assert done == Outcome(Settings(original[0 := "c"], map[0 := "a"]), true);
    assert After(Settings(original, map[]), [0], run) == done.settings;
  }

  // ---- a restore that fails ----

  /** The error meets the restore: at a saved CPU, or on reading the first unsaved one. */
  predicate Meets(list: seq<Cpu>, m: nat, at: nat, point: Point) {
    (at < m && (point == ReadSaved || point == WriteBack || point == Remove)) || (at == m < |list| && point == ReadSaved)
  }

  /** When a restore fails, and that it then has emptied the save files before the error and no other. */
  lemma {:induction false} FaultyRestoreLeaves(s: Settings, original: map<Cpu, string>, list: seq<Cpu>, i: nat, m: nat, at: nat, point: Point)
    requires NoDuplicates(list) && Tracks(s, original, list) && i <= m <= |list| && i <= at
    requires forall k :: 0 <= k < |list| ==> (list[k] in s.saved <==> i <= k < m)
    ensures var r := RestoreFrom(s, list, i, At(at, point));
            (!r.ok <==> Meets(list, m, at, point)) &&
            (!r.ok ==> forall k :: 0 <= k < |list| ==> (list[k] in r.settings.saved <==> at <= k < m))
    decreases m - i
  {
    if i < m {
      var cpu := list[i];
      assert cpu in original;
      if i < at || !Meets(list, m, at, point) {
        var next := Settings(s.current[cpu := s.saved[cpu]], s.saved - {cpu});
        assert Tracks(next, original, list);
        if i < at {
          FaultyRestoreLeaves(next, original, list, i + 1, m, at, point);
        } else {
          PassedFaultRestores(next, original, list, i + 1, m, at, point);
        }
      }
    }
  }

  lemma {:induction false} PassedFaultRestores(s: Settings, original: map<Cpu, string>, list: seq<Cpu>, i: nat, m: nat, at: nat, point: Point)
    requires NoDuplicates(list) && Tracks(s, original, list) && at < i <= m <= |list|
    requires forall k :: 0 <= k < |list| ==> (list[k] in s.saved <==> i <= k < m)
    ensures RestoreFrom(s, list, i, At(at, point)).ok
    decreases m - i
  {
    if i < m {
      var cpu := list[i];
      assert cpu in original;
      var next := Settings(s.current[cpu := s.saved[cpu]], s.saved - {cpu});
      assert Tracks(next, original, list);
      PassedFaultRestores(next, original, list, i + 1, m, at, point);
    }
  }

  /** A restore of m saved CPUs fails exactly when the error meets it, and retrying it then returns
      every CPU to its original value exactly when the error was at the first CPU or at the first
      unsaved one; otherwise the retry stops at the first CPU, which has no saved value any more. */
  lemma RetryRestores(s: Settings, original: map<Cpu, string>, list: seq<Cpu>, m: nat, at: nat, point: Point)
    requires NoDuplicates(list) && Tracks(s, original, list) && SavedPrefix(s, list, m)
    ensures var failed := Call(s, list, "", At(at, point));
            (!failed.ok <==> Meets(list, m, at, point)) && Call(failed.settings, list, "", NoFault).ok &&
            (!failed.ok ==>
              (Restored(Call(failed.settings, list, "", NoFault).settings, original, list) <==> at == 0 || at == m))
  {
    FaultyRestoreLeaves(s, original, list, 0, m, at, point);
    RestoreKeepsOriginals(s, original, list, 0, At(at, point));
    var failed := Call(s, list, "", At(at, point)).settings;
    RestoreExactly(failed, original, list);
    if Meets(list, m, at, point) {
      if at == 0 {
        assert SavedPrefix(failed, list, m);
      } else if at == m {
        assert SavedPrefix(failed, list, 0);
      } else {
        assert list[0] !in failed.saved && list[at] in failed.saved;
      }
    }
  }

  /** Two CPUs: the restore fails after writing the second one back, and the retry stops at the first. */
  lemma RetryStopsEarly()
    ensures var original := map[0 := "a", 1 := "a"];
            var s := Settings(map[0 := "b", 1 := "b"], original);
            var failed := Call(s, [0, 1], "", At(1, Remove)).settings;
            Tracks(s, original, [0, 1]) && !Restored(Call(failed, [0, 1], "", NoFault).settings, original, [0, 1])
  {
    var original := map[0 := "a", 1 := "a"];
    RetryRestores(Settings(map[0 := "b", 1 := "b"], original), original, [0, 1], 2, 1, Remove);
  }
}
