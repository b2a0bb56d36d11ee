/** Over any run of Adds and Removes the table is the base table with the live pods laid over it,
    newest first, and that is all each live port needs. */
module HostportRuns {
  import opened Options
  import opened Sequences
  import opened Text
  import opened Iptables
  import opened Hostport
  import opened HostportProof
  import opened HostportUndo
  import opened HostportRemove

  type Pod = seq<Port>

  function LiveJumps(live: seq<Pod>, c: Chain): seq<Rule> {
    if live == [] then [] else Reversed(Jumps(live[0], c)) + LiveJumps(live[1..], c)
  }

  function LiveRule(live: seq<Pod>, c: Chain): Option<Rule> {
    if live == [] then None
    else if OwnRule(live[0], c).Some? then OwnRule(live[0], c) else LiveRule(live[1..], c)
  }

  function LiveChains(live: seq<Pod>): set<Chain> {
    if live == [] then {} else (set c | c in ChainsOf(live[0])) + LiveChains(live[1..])
  }

  function OverlayRules(base: Table, live: seq<Pod>, c: Chain): seq<Rule> {
    if IsDispatch(c) then LiveJumps(live, c) + RulesAt(base, c)
    else if LiveRule(live, c).Some? then [LiveRule(live, c).value]
    else RulesAt(base, c)
  }

  /** The base table with the live pods laid over it: each pod has its two chains per port with
      one rule each, and the dispatch chains start with the jumps of the live pods. */
  function Overlay(base: Table, live: seq<Pod>): Table {
    map c | c in base.Keys + LiveChains(live) :: OverlayRules(base, live, c)
  }

  /** A pod is known by its chains: those of a removal are the added pod's although it is asked for
      without the pod's address. */
  predicate SameChains(p: Pod, q: Pod) {
    ChainsOf(p) == ChainsOf(q)
  }

  function Without(live: seq<Pod>, p: Pod): seq<Pod> {
    if live == [] then [] else (if SameChains(live[0], p) then [] else [live[0]]) + Without(live[1..], p)
  }

  /** Nothing written for `q` mentions a chain of `p`. */
  ghost predicate Silent(p: Pod, q: Pod) {
    forall c, r :: r in Fresh(q, c) ==> !Mentions(c, r, ChainsOf(p))
  }

  ghost predicate Foreign(p: Pod, q: Pod) {
    SameChains(q, p) || Silent(p, q)
  }

  ghost predicate CleanFor(base: Table, p: Pod) {
    GoodPod(p) && Undisturbed(base, p) && Absent(base, p)
  }

  ghost predicate Compatible(base: Table, pods: seq<Pod>) {
    && (forall p :: p in pods ==> CleanFor(base, p))
    && (forall p, q :: p in pods && q in pods ==> Foreign(p, q))
  }

  /** No two of the pods have the same chains. */
  ghost predicate Separate(live: seq<Pod>) {
    forall i, j :: 0 <= i < j < |live| ==> !SameChains(live[i], live[j])
  }

  lemma {:induction false} LiveRuleExists(live: seq<Pod>, c: Chain)
    ensures LiveRule(live, c).Some? <==> c in LiveChains(live)
    ensures c in LiveChains(live) ==> exists q :: q in live && c in ChainsOf(q) && LiveRule(live, c) == OwnRule(q, c)
  {
    if live != [] {
      OwnRuleExists(live[0], c);
      LiveRuleExists(live[1..], c);
      assert live[0] in live;
    }
  }

  lemma {:induction false} WithoutIs(live: seq<Pod>, p: Pod)
    ensures forall q :: q in Without(live, p) <==> q in live && !SameChains(q, p)
    ensures !Lives(live, p) ==> Without(live, p) == live
  {
    if live != [] {
      WithoutIs(live[1..], p);
      assert live[0] in live && forall q :: q in live <==> q == live[0] || q in live[1..];
      if !Lives(live, p) {
        assert !Lives(live[1..], p) && live == [live[0]] + live[1..];
      }
    }
  }

  /** A pod with these chains is among the live ones. */
  ghost predicate Lives(live: seq<Pod>, p: Pod) {
    exists q :: q in live && SameChains(q, p)
  }

  lemma SeparateCons(p: Pod, w: seq<Pod>)
    requires Separate(w) && forall q :: q in w ==> !SameChains(q, p)
    ensures Separate([p] + w)
  {
    forall i, j | 0 <= i < j < |[p] + w|
      ensures !SameChains(([p] + w)[i], ([p] + w)[j])
    {
      assert ([p] + w)[j] == w[j - 1] && w[j - 1] in w;
    }
  }

  lemma {:induction false} SeparateWithout(live: seq<Pod>, p: Pod)
    requires Separate(live)
    ensures Separate(Without(live, p)) && Separate([p] + Without(live, p))
  {
    WithoutIs(live, p);
    if live != [] {
      SeparateWithout(live[1..], p);
      WithoutIs(live[1..], p);
      if SameChains(live[0], p) {
        assert Without(live, p) == Without(live[1..], p);
      } else {
        SeparateCons(live[0], Without(live[1..], p));
      }
    }
    SeparateCons(p, Without(live, p));
  }

  lemma JumpsAreFresh(p: Pod, c: Chain)
    requires GoodPod(p) && IsDispatch(c)
    ensures Fresh(p, c) == Reversed(Jumps(p, c))
  {
    FreshIs(p, c);
  }

  /** Filtering the jumps of the live pods drops exactly those of `p`. */
  lemma {:induction false} KeptJumps(live: seq<Pod>, p: Pod, c: Chain)
    requires IsDispatch(c) && GoodPod(p)
    requires forall q :: q in live ==> GoodPod(q) && Foreign(p, q)
    ensures KeptRules(c, LiveJumps(live, c), ChainsOf(p)) == LiveJumps(Without(live, p), c)
  {
    if live != [] {
      var q := live[0];
      assert q in live;
      JumpsAreFresh(q, c);
      KeptRulesConcat(c, Reversed(Jumps(q, c)), LiveJumps(live[1..], c), ChainsOf(p));
      KeptJumps(live[1..], p, c);
      if SameChains(q, p) {
        forall r | r in Fresh(q, c)
          ensures Mentions(c, r, ChainsOf(p))
        {
          FreshMentioned(q, c, r);
        }
        KeptNone(c, Fresh(q, c), ChainsOf(p));
        assert Without(live, p) == Without(live[1..], p);
        assert [] + LiveJumps(Without(live[1..], p), c) == LiveJumps(Without(live[1..], p), c);
      } else {
        KeptAll(c, Fresh(q, c), ChainsOf(p));
        assert Without(live, p) == [q] + Without(live[1..], p);
      }
    }
  }

  lemma {:induction false} LiveJumpsAre(live: seq<Pod>, c: Chain, r: Rule)
    requires IsDispatch(c) && (forall q :: q in live ==> GoodPod(q))
    ensures r in LiveJumps(live, c) <==> exists q :: q in live && r in Fresh(q, c)
  {
    if live != [] {
      assert live[0] in live;
      JumpsAreFresh(live[0], c);
      LiveJumpsAre(live[1..], c, r);
      assert forall q :: q in live <==> q == live[0] || q in live[1..];
    }
  }

  /** A pod's jumps occur neither among those of other pods nor in the base. */
  lemma {:induction false} JumpsApart(base: Table, q: Pod, others: seq<Pod>, c: Chain, r: Rule)
    requires IsDispatch(c) && GoodPod(q) && r in Fresh(q, c)
    requires c in base ==> UndisturbedChain(c, base[c], q)
    requires forall p :: p in others ==> GoodPod(p) && Silent(q, p)
    ensures r !in LiveJumps(others, c) + RulesAt(base, c)
  {
    FreshMentioned(q, c, r);
    LiveJumpsAre(others, c, r);
  }

  lemma CompatibleTail(base: Table, live: seq<Pod>)
    requires Compatible(base, live) && Separate(live) && live != []
    ensures Compatible(base, live[1..]) && Separate(live[1..])
    ensures forall p :: p in live[1..] ==> GoodPod(p) && Silent(live[0], p)
  {
    assert live[0] in live && forall p :: p in live[1..] ==> p in live;
    forall p | p in live[1..]
      ensures GoodPod(p) && Silent(live[0], p)
    {
      assert CleanFor(base, p) && Foreign(live[0], p);
    }
  }

  /** No two jumps in a dispatch chain are equal, neither among live pods nor with the base. */
  lemma {:induction false} DispatchDistinct(base: Table, live: seq<Pod>, c: Chain)
    requires IsDispatch(c) && NoDuplicates(RulesAt(base, c)) && Compatible(base, live) && Separate(live)
    ensures NoDuplicates(LiveJumps(live, c) + RulesAt(base, c))
  {
    if live == [] {
      assert [] + RulesAt(base, c) == RulesAt(base, c);
    } else {
      var q, rest := live[0], LiveJumps(live[1..], c) + RulesAt(base, c);
      assert q in live;
      CompatibleTail(base, live);
      DispatchDistinct(base, live[1..], c);
      JumpsAreFresh(q, c);
      FreshDistinct(q, c);
      forall r | r in Fresh(q, c)
        ensures r !in rest
      {
        JumpsApart(base, q, live[1..], c, r);
      }
      NoDuplicatesConcat(Fresh(q, c), rest);
      assert LiveJumps(live, c) + RulesAt(base, c) == Fresh(q, c) + rest;
    }
  }

  /** The live pods stand apart from each other, and write nothing that mentions chains of `p`
      unless they have the very same. */
  ghost predicate Fits(base: Table, live: seq<Pod>, p: Pod) {
    && Separate(live) && Compatible(base, live) && CleanFor(base, p) && p != []
    && forall q :: q in live ==> Foreign(p, q)
  }

  lemma {:induction false} FitsParts(base: Table, live: seq<Pod>, p: Pod)
    requires Fits(base, live, p)
    ensures Compatible(base, Without(live, p)) && Separate(Without(live, p))
    ensures forall q :: q in live ==> GoodPod(q) && Foreign(p, q)
    ensures forall q :: q in Without(live, p) ==> q in live && !SameChains(q, p) && Silent(p, q)
  {
    WithoutIs(live, p);
    SeparateWithout(live, p);
    assert forall q :: q in live ==> CleanFor(base, q);
  }

  /** Filtering a dispatch chain by `p` leaves the jumps of the other live pods and the base. */
  lemma {:induction false} DispatchFiltered(base: Table, live: seq<Pod>, p: Pod, c: Chain)
    requires Fits(base, live, p) && IsDispatch(c)
    ensures Distinct(KeptRules(c, LiveJumps(live, c) + RulesAt(base, c), ChainsOf(p))) ==
            LiveJumps(Without(live, p), c) + RulesAt(base, c)
  {
    FitsParts(base, live, p);
    assert c in base ==> UndisturbedChain(c, base[c], p);
    KeptRulesConcat(c, LiveJumps(live, c), RulesAt(base, c), ChainsOf(p));
    KeptJumps(live, p, c);
    KeptAll(c, RulesAt(base, c), ChainsOf(p));
    DispatchDistinct(base, Without(live, p), c);
    DistinctExactly(LiveJumps(Without(live, p), c) + RulesAt(base, c));
  }

  lemma {:induction false} LiveRuleWithout(live: seq<Pod>, p: Pod, c: Chain)
    requires c !in ChainsOf(p)
    ensures LiveRule(Without(live, p), c) == LiveRule(live, c)
  {
    if live != [] {
      LiveRuleWithout(live[1..], p, c);
      if SameChains(live[0], p) {
        OwnRuleExists(live[0], c);
        assert Without(live, p) == Without(live[1..], p);
      } else {
        assert Without(live, p) == [live[0]] + Without(live[1..], p);
      }
    }
  }

  /** A chain of another live pod, or of the base, survives filtering by `p` unchanged. */
  lemma {:induction false} OtherChainFiltered(base: Table, live: seq<Pod>, p: Pod, c: Chain)
    requires Fits(base, live, p) && IsHostport(c) && !IsDispatch(c) && c !in ChainsOf(p)
    ensures Distinct(KeptRules(c, OverlayRules(base, live, c), ChainsOf(p))) == OverlayRules(base, Without(live, p), c)
  {
    FitsParts(base, live, p);
    LiveRuleWithout(live, p, c);
    var rules := OverlayRules(base, live, c);
    if LiveRule(live, c).Some? {
      LiveRuleExists(live, c);
      var q :| q in live && c in ChainsOf(q) && LiveRule(live, c) == OwnRule(q, c);
      FreshIs(q, c);
      assert rules == Fresh(q, c) && !SameChains(q, p);
      FreshDistinct(q, c);
    } else {
      assert c in base ==> UndisturbedChain(c, base[c], p);
    }
    KeptAll(c, rules, ChainsOf(p));
    DistinctExactly(rules);
  }

  lemma {:induction false} LiveChainsWithout(live: seq<Pod>, p: Pod)
    ensures LiveChains([p] + Without(live, p)) == LiveChains(live) + set c | c in ChainsOf(p)
  {
    assert ([p] + Without(live, p))[1..] == Without(live, p);
    if live != [] {
      LiveChainsWithout(live[1..], p);
      assert ([p] + Without(live[1..], p))[1..] == Without(live[1..], p);
      if SameChains(live[0], p) {
        assert Without(live, p) == Without(live[1..], p);
      } else {
        assert Without(live, p)[1..] == Without(live[1..], p);
      }
    }
  }

  /** What the overlay shows at a chain, listed or not. */
  lemma OverlayAt(base: Table, live: seq<Pod>, c: Chain)
    requires c in base || !IsDispatch(c)
    ensures RulesAt(Overlay(base, live), c) == OverlayRules(base, live, c)
  {
    LiveRuleExists(live, c);
  }

  lemma {:induction false} LiveJumpsCons(p: Pod, w: seq<Pod>, c: Chain, x: seq<Rule>)
    ensures LiveJumps([p] + w, c) + x == Reversed(Jumps(p, c)) + (LiveJumps(w, c) + x)
  {
    assert ([p] + w)[1..] == w;
  }

  lemma {:induction false} AddAtDispatch(base: Table, live: seq<Pod>, p: Pod, c: Chain)
    requires Fits(base, live, p) && IsDispatch(c) && c in base
    ensures AddedRules(Overlay(base, live), p, c) == OverlayRules(base, [p] + Without(live, p), c)
  {
    OverlayAt(base, live, c);
    JumpsAreFresh(p, c);
    AddedRulesAre(Overlay(base, live), p, c);
    DispatchFiltered(base, live, p, c);
    LiveJumpsCons(p, Without(live, p), c, RulesAt(base, c));
  }

  lemma {:induction false} AddAtOwn(base: Table, live: seq<Pod>, p: Pod, c: Chain)
    requires Fits(base, live, p) && c in ChainsOf(p)
    ensures AddedRules(Overlay(base, live), p, c) == OverlayRules(base, [p] + Without(live, p), c)
  {
    var rules := RulesAt(Overlay(base, live), c);
    FitsParts(base, live, p);
    ChainsAreHostport(p, c);
    OwnRuleExists(p, c);
    FreshIs(p, c);
    AddedRulesAre(Overlay(base, live), p, c);
    forall r | r in rules
      ensures Mentions(c, r, ChainsOf(p))
    {
      OwnChainMentioned(c, r, ChainsOf(p));
    }
    KeptNone(c, rules, ChainsOf(p));
    assert Fresh(p, c) + [] == Fresh(p, c);
  }

  lemma {:induction false} AddAtOther(base: Table, live: seq<Pod>, p: Pod, c: Chain)
    requires Fits(base, live, p) && !IsDispatch(c) && c !in ChainsOf(p)
    ensures AddedRules(Overlay(base, live), p, c) == OverlayRules(base, [p] + Without(live, p), c)
  {
    var w := Without(live, p);
    FitsParts(base, live, p);
    OverlayAt(base, live, c);
    OwnRuleExists(p, c);
    assert ([p] + w)[1..] == w;
    assert OverlayRules(base, [p] + w, c) == OverlayRules(base, w, c);
    if IsHostport(c) {
      FreshIs(p, c);
      AddedRulesAre(Overlay(base, live), p, c);
      OtherChainFiltered(base, live, p, c);
      assert [] + OverlayRules(base, w, c) == OverlayRules(base, w, c);
    } else {
      LiveRuleWithout(live, p, c);
    }
  }

  lemma {:induction false} AddOverlayRules(base: Table, live: seq<Pod>, p: Pod, c: Chain)
    requires Fits(base, live, p) && c in Overlay(base, [p] + Without(live, p))
    ensures AddedRules(Overlay(base, live), p, c) == OverlayRules(base, [p] + Without(live, p), c)
  {
    FitsParts(base, live, p);
    if c in ChainsOf(p) {
      AddAtOwn(base, live, p, c);
    } else if IsDispatch(c) {
      LiveChainsAreHostport([p] + Without(live, p), c);
      AddAtDispatch(base, live, p, c);
    } else {
      AddAtOther(base, live, p, c);
    }
  }

  lemma {:induction false} LiveChainsAreHostport(live: seq<Pod>, c: Chain)
    requires forall q :: q in live ==> GoodPod(q)
    ensures c in LiveChains(live) ==> IsHostport(c) && !IsDispatch(c)
  {
    if live != [] {
      assert live[0] in live;
      LiveChainsAreHostport(live[1..], c);
      if c in ChainsOf(live[0]) {
        ChainsAreHostport(live[0], c);
      }
    }
  }

  /** Adding a pod lays it over the others; adding it again, with the same address or another, takes
      the place of the pod as it was and moves it to the front. */
  lemma {:induction false} AddOnOverlay(base: Table, live: seq<Pod>, p: Pod)
    requires Fits(base, live, p)
    ensures AddedTable(Overlay(base, live), p) == Overlay(base, [p] + Without(live, p))
  {
    var t, u := AddedTable(Overlay(base, live), p), Overlay(base, [p] + Without(live, p));
    LiveChainsWithout(live, p);
    assert t.Keys == u.Keys;
    forall c | c in u
      ensures t[c] == u[c]
    {
      AddOverlayRules(base, live, p, c);
    }
  }

  // ---- Remove on an overlay ----

  lemma {:induction false} FilteredAt(base: Table, live: seq<Pod>, p: Pod, c: Chain)
    requires Fits(base, live, p) && c !in ChainsOf(p) && (IsDispatch(c) ==> c in base)
    ensures (if IsHostport(c) then Distinct(KeptRules(c, OverlayRules(base, live, c), ChainsOf(p))) else OverlayRules(base, live, c))
            == OverlayRules(base, Without(live, p), c)
  {
    if IsDispatch(c) {
      DispatchFiltered(base, live, p, c);
    } else if IsHostport(c) {
      OtherChainFiltered(base, live, p, c);
    } else {
      LiveRuleWithout(live, p, c);
    }
  }

  lemma {:induction false} LiveChainsContain(live: seq<Pod>, p: Pod, c: Chain)
    requires p in live && c in ChainsOf(p)
    ensures c in LiveChains(live)
  {
    if live[0] != p {
      LiveChainsContain(live[1..], p, c);
    }
  }

  /** A live pod's chains belong to it alone. */
  lemma {:induction false} OwnChainsApart(base: Table, live: seq<Pod>, p: Pod, c: Chain)
    requires Fits(base, live, p) && c in ChainsOf(p)
    ensures c !in base && c !in LiveChains(Without(live, p))
    ensures c in LiveChains(live) <==> Lives(live, p)
  {
    FitsParts(base, live, p);
    WithoutIs(live, p);
    LiveRuleExists(Without(live, p), c);
    if c in LiveChains(Without(live, p)) {
      var q :| q in Without(live, p) && c in ChainsOf(q);
      OthersOwn(p, q, c);
    }
    if Lives(live, p) {
      var q :| q in live && SameChains(q, p);
      LiveChainsContain(live, q, c);
    }
  }

  /** Two silent pods share no chain. */
  lemma {:induction false} OthersOwn(p: Pod, q: Pod, c: Chain)
    requires GoodPod(q) && Silent(p, q) && c in ChainsOf(q)
    ensures c !in ChainsOf(p)
  {
    OwnRuleExists(q, c);
    ChainsAreHostport(q, c);
    FreshIs(q, c);
    var r := OwnRule(q, c).value;
    assert r in Fresh(q, c);
    if c in ChainsOf(p) {
      OwnChainMentioned(c, r, ChainsOf(p));
    }
  }

  lemma {:induction false} RemoveLive(base: Table, live: seq<Pod>, p: Pod)
    requires Fits(base, live, p)
    ensures RemovedTable(Overlay(base, live), p) == Overlay(base, Without(live, p))
  {
    var t, u := Overlay(base, live), Overlay(base, Without(live, p));
    RemovedOverlayKeys(base, live, p);
    forall c | c in u
      ensures RemovedTable(t, p)[c] == u[c]
    {
      RemovedOverlayRules(base, live, p, c);
    }
  }

  lemma {:induction false} LivePodsShow(base: Table, live: seq<Pod>, p: Pod)
    requires Fits(base, live, p)
    ensures (exists c :: c in ChainsOf(p) && c in Overlay(base, live)) <==> Lives(live, p)
  {
    forall c | c in ChainsOf(p)
      ensures c in Overlay(base, live) <==> Lives(live, p)
    {
      OwnChainsApart(base, live, p, c);
    }
    assert p[0].hp in ChainsOf(p);
  }

  /** Removing a pod takes the one with its chains, and only that one, out of the overlay. */
  lemma {:induction false} RemoveOnOverlay(base: Table, live: seq<Pod>, p: Pod)
    requires Fits(base, live, p)
    ensures RemoveResult(Overlay(base, live), p) == Overlay(base, Without(live, p))
  {
    LivePodsShow(base, live, p);
    WithoutIs(live, p);
    RemoveLive(base, live, p);
  }

  lemma {:induction false} RemovedOverlayKeys(base: Table, live: seq<Pod>, p: Pod)
    requires Fits(base, live, p)
    ensures RemovedTable(Overlay(base, live), p).Keys == Overlay(base, Without(live, p)).Keys
  {
    LiveChainsWithout(live, p);
    assert ([p] + Without(live, p))[1..] == Without(live, p);
    forall c | c in ChainsOf(p)
      ensures c !in base && c !in LiveChains(Without(live, p))
    {
      OwnChainsApart(base, live, p, c);
    }
  }

  lemma {:induction false} RemovedOverlayRules(base: Table, live: seq<Pod>, p: Pod, c: Chain)
    requires Fits(base, live, p) && c in Overlay(base, Without(live, p)) && c in RemovedTable(Overlay(base, live), p)
    ensures RemovedTable(Overlay(base, live), p)[c] == OverlayRules(base, Without(live, p), c)
  {
    FitsParts(base, live, p);
    if IsDispatch(c) {
      LiveChainsAreHostport(Without(live, p), c);
    }
    FilteredAt(base, live, p, c);
  }

  // ---- whole runs ----

  datatype Op = AddPod(pod: Pod) | RemovePod(pod: Pod)

  ghost function Step(t: Table, op: Op): Table {
    match op
    case AddPod(p) => AddResult(t, p)
    case RemovePod(p) => RemoveResult(t, p)
  }

  ghost function Exec(t: Table, ops: seq<Op>): Table
    decreases |ops|
  {
    if ops == [] then t else Step(Exec(t, ops[..|ops| - 1]), ops[|ops| - 1])
  }

  /** The pods added and not removed since, most recently added first. */
  function LiveAfter(ops: seq<Op>): seq<Pod> {
    if ops == [] then []
    else
      var before := LiveAfter(ops[..|ops| - 1]);
      match ops[|ops| - 1]
      case AddPod(p) => if p == [] then before else [p] + Without(before, p)
      case RemovePod(p) => Without(before, p)
  }

  predicate AnyAdd(ops: seq<Op>) {
    exists i :: 0 <= i < |ops| && ops[i].AddPod? && ops[i].pod != []
  }

  function BaseAfter(t: Table, ops: seq<Op>): Table {
    if AnyAdd(ops) then EnsureBase(t) else t
  }

  /** Every pod of the run is well formed and unknown to the initial table, and nothing that is
      added mentions a chain of another. What a removal would have written does not matter. */
  ghost predicate Orderly(t: Table, ops: seq<Op>) {
    && (forall i :: 0 <= i < |ops| ==> CleanFor(t, ops[i].pod))
    && (forall i, j :: 0 <= i < |ops| && 0 <= j < |ops| && ops[j].AddPod? ==> Foreign(ops[i].pod, ops[j].pod))
  }

  /** The pod was added at some time. */
  ghost predicate AddedIn(ops: seq<Op>, p: Pod) {
    exists i :: 0 <= i < |ops| && ops[i] == AddPod(p)
  }

  lemma OverlayNothing(base: Table)
    ensures Overlay(base, []) == base
  {
    forall c | c in base
      ensures OverlayRules(base, [], c) == base[c]
    {
      assert [] + base[c] == base[c];
    }
  }

  /** The base chains and jumps are all there. */
  predicate Based(t: Table) {
    && KUBE_HOSTPORTS in t && CRIO_HOSTPORTS_MASQ in t
    && "OUTPUT" in t && PORTALS_JUMP in t["OUTPUT"]
    && "PREROUTING" in t && PORTALS_JUMP in t["PREROUTING"]
    && "POSTROUTING" in t && MASQ_JUMP in t["POSTROUTING"]
  }

  lemma EnsureBaseIdempotent(t: Table)
    ensures Based(EnsureBase(t))
    ensures EnsureBase(t) == t <==> Based(t)
  {
    assert KUBE_HOSTPORTS[0] == 'K' && CRIO_HOSTPORTS_MASQ[0] == 'C' && "OUTPUT"[0] == 'O' && "PREROUTING"[0] == 'P' && "POSTROUTING"[0] == 'P';
    assert "PREROUTING"[1] == 'R' && "POSTROUTING"[1] == 'O';
    if Based(t) {
      assert forall c :: c in EnsureBase(t) ==> c in t && EnsureBase(t)[c] == t[c];
    }
  }

  lemma CleanBased(t: Table, p: Pod)
    requires CleanFor(t, p)
    ensures CleanFor(EnsureBase(t), p)
  {
    UndisturbedByBase(t, p);
    AbsentFromBase(t, p);
  }

  lemma OrderlyBased(t: Table, ops: seq<Op>)
    requires Orderly(t, ops)
    ensures Orderly(EnsureBase(t), ops)
  {
    forall i | 0 <= i < |ops|
      ensures CleanFor(EnsureBase(t), ops[i].pod)
    {
      CleanBased(t, ops[i].pod);
    }
  }

  lemma OrderlyBefore(t: Table, ops: seq<Op>, n: nat)
    requires Orderly(t, ops) && n <= |ops|
    ensures Orderly(t, ops[..n])
  {
  }

  lemma BasedOverlay(base: Table, live: seq<Pod>)
    requires Based(base) && forall q :: q in live ==> GoodPod(q)
    ensures Based(Overlay(base, live))
  {
    forall c | c in ["OUTPUT", "PREROUTING", "POSTROUTING"]
      ensures Overlay(base, live)[c] == base[c]
    {
      assert c in BUILTIN;
      LiveChainsAreHostport(live, c);
      if IsHostport(c) {
        HostportNotBuiltin(c);
      }
      LiveRuleExists(live, c);
    }
    assert "OUTPUT" in ["OUTPUT", "PREROUTING", "POSTROUTING"];
  }

  ghost predicate LiveOk(ops: seq<Op>, live: seq<Pod>) {
    && Separate(live)
    && (forall q :: q in live ==> AddedIn(ops, q) && q != [])
    && (!AnyAdd(ops) ==> live == [])
  }

  lemma AddedBefore(ops: seq<Op>, q: Pod)
    requires ops != [] && AddedIn(ops[..|ops| - 1], q)
    ensures AddedIn(ops, q)
  {
    var i :| 0 <= i < |ops| - 1 && ops[..|ops| - 1][i] == AddPod(q);
    assert ops[i] == AddPod(q);
  }

  lemma {:induction false} LiveAfterOk(ops: seq<Op>)
    ensures LiveOk(ops, LiveAfter(ops))
  {
    if ops != [] {
      var was, p := ops[..|ops| - 1], ops[|ops| - 1].pod;
      LiveAfterOk(was);
      WithoutIs(LiveAfter(was), p);
      SeparateWithout(LiveAfter(was), p);
      forall q | q in LiveAfter(was)
        ensures AddedIn(ops, q)
      {
        AddedBefore(ops, q);
      }
      assert AnyAdd(was) ==> AnyAdd(ops);
    }
  }

  /** The pods of an orderly run that are still live are compatible. */
  lemma {:induction false} CompatibleLive(t: Table, ops: seq<Op>)
    requires Orderly(t, ops)
    ensures Compatible(t, LiveAfter(ops))
    ensures forall i, q :: 0 <= i < |ops| && q in LiveAfter(ops) ==> Foreign(ops[i].pod, q)
  {
    LiveAfterOk(ops);
    forall q | q in LiveAfter(ops)
      ensures CleanFor(t, q) && forall i :: 0 <= i < |ops| ==> Foreign(ops[i].pod, q)
    {
      var j :| 0 <= j < |ops| && ops[j] == AddPod(q);
    }
    forall p, q | p in LiveAfter(ops) && q in LiveAfter(ops)
      ensures Foreign(p, q)
    {
      var i :| 0 <= i < |ops| && ops[i] == AddPod(p);
      assert Foreign(ops[i].pod, q);
    }
  }

  lemma FitsNow(base: Table, ops: seq<Op>, p: Pod)
    requires ops != [] && p == ops[|ops| - 1].pod && p != [] && Orderly(base, ops)
    ensures Fits(base, LiveAfter(ops[..|ops| - 1]), p)
  {
    var was := ops[..|ops| - 1];
    LiveAfterOk(was);
    OrderlyBefore(base, ops, |ops| - 1);
    CompatibleLive(base, was);
    forall q | q in LiveAfter(was)
      ensures Foreign(p, q)
    {
      AddedBefore(ops, q);
      var j :| 0 <= j < |ops| && ops[j] == AddPod(q);
      assert Foreign(ops[|ops| - 1].pod, ops[j].pod);
    }
  }

  /** Every removal in a run of well-formed pods succeeds. */
  lemma {:induction false} RemovalsSucceed(t: Table, ops: seq<Op>, i: nat)
    requires Orderly(t, ops) && i < |ops|
    ensures NoDuplicates(Present(ChainsOf(ops[i].pod), Exec(t, ops[..i])))
  {
    assert CleanFor(t, ops[i].pod);
    RemoveSucceeds(Exec(t, ops[..i]), ops[i].pod);
  }

  /** No run makes a chain hold a rule twice. */
  lemma {:induction false} RunKeepsDistinct(t: Table, ops: seq<Op>)
    requires DistinctRules(t)
    ensures DistinctRules(Exec(t, ops))
    decreases |ops|
  {
    if ops != [] {
      RunKeepsDistinct(t, ops[..|ops| - 1]);
      OperationsKeepDistinct(Exec(t, ops[..|ops| - 1]), ops[|ops| - 1].pod);
    }
  }

  /** Over any orderly run of Adds and Removes the table is the base table with the live pods laid
      over it, the most recently added first. */
  lemma {:induction false} RunIsOverlay(t: Table, ops: seq<Op>)
    requires Orderly(t, ops)
    ensures Exec(t, ops) == Overlay(BaseAfter(t, ops), LiveAfter(ops))
    decreases |ops|
  {
    if ops == [] {
      OverlayNothing(t);
    } else {
      var was, op := ops[..|ops| - 1], ops[|ops| - 1];
      OrderlyBefore(t, ops, |ops| - 1);
      RunIsOverlay(t, was);
      OrderlyBased(t, ops);
      if op.pod == [] {
        EmptyPodStep(t, ops);
      } else if op.AddPod? {
        AddStep(t, ops);
      } else {
        RemoveStep(t, ops);
      }
    }
  }

  lemma {:induction false} AddStep(t: Table, ops: seq<Op>)
    requires ops != [] && Orderly(EnsureBase(t), ops) && Orderly(t, ops[..|ops| - 1])
    requires ops[|ops| - 1].AddPod? && ops[|ops| - 1].pod != []
    ensures var was := ops[..|ops| - 1];
            Step(Overlay(BaseAfter(t, was), LiveAfter(was)), ops[|ops| - 1]) == Overlay(BaseAfter(t, ops), LiveAfter(ops))
  {
    var was, p := ops[..|ops| - 1], ops[|ops| - 1].pod;
    FitsNow(EnsureBase(t), ops, p);
    BaseOfOverlay(t, was);
    AddOnOverlay(EnsureBase(t), LiveAfter(was), p);
  }

  lemma {:induction false} RemoveStep(t: Table, ops: seq<Op>)
    requires ops != [] && Orderly(EnsureBase(t), ops) && Orderly(t, ops)
    requires ops[|ops| - 1].RemovePod? && ops[|ops| - 1].pod != []
    ensures var was := ops[..|ops| - 1];
            Step(Overlay(BaseAfter(t, was), LiveAfter(was)), ops[|ops| - 1]) == Overlay(BaseAfter(t, ops), LiveAfter(ops))
  {
    var was, p := ops[..|ops| - 1], ops[|ops| - 1].pod;
    FitsNow(BaseAfter(t, was), ops, p);
    SameAdds(ops);
    RemoveOnOverlay(BaseAfter(t, was), LiveAfter(was), p);
  }

  lemma SameAdds(ops: seq<Op>)
    requires ops != [] && (ops[|ops| - 1].AddPod? ==> ops[|ops| - 1].pod == [])
    ensures AnyAdd(ops) <==> AnyAdd(ops[..|ops| - 1])
  {
    var was := ops[..|ops| - 1];
    if AnyAdd(ops) {
      var i :| 0 <= i < |ops| && ops[i].AddPod? && ops[i].pod != [];
      assert was[i] == ops[i];
    }
  }

  lemma EmptyPodStep(t: Table, ops: seq<Op>)
    requires ops != [] && ops[|ops| - 1].pod == []
    ensures var was := ops[..|ops| - 1];
            LiveAfter(ops) == LiveAfter(was) && BaseAfter(t, ops) == BaseAfter(t, was) && Exec(t, ops) == Exec(t, was)
  {
    var was := ops[..|ops| - 1];
    SameAdds(ops);
    LiveAfterOk(was);
    NothingWithout(LiveAfter(was));
    assert Step(Exec(t, was), ops[|ops| - 1]) == Exec(t, was);
  }

  lemma {:induction false} NothingWithout(live: seq<Pod>)
    requires forall q :: q in live ==> q != []
    ensures Without(live, []) == live
  {
    forall q | q in live
      ensures !SameChains(q, [])
    {
      assert |ChainsOf(q)| >= |PortChains(q[0])|;
    }
    WithoutIs(live, []);
  }

  lemma {:induction false} BaseOfOverlay(t: Table, ops: seq<Op>)
    requires Orderly(t, ops)
    ensures EnsureBase(Overlay(BaseAfter(t, ops), LiveAfter(ops))) == Overlay(EnsureBase(t), LiveAfter(ops))
  {
    LiveAfterOk(ops);
    if AnyAdd(ops) {
      EnsureBaseIdempotent(t);
      CompatibleLive(t, ops);
      assert forall q :: q in LiveAfter(ops) ==> CleanFor(t, q);
      BasedOverlay(EnsureBase(t), LiveAfter(ops));
      EnsureBaseIdempotent(Overlay(EnsureBase(t), LiveAfter(ops)));
    } else {
      OverlayNothing(t);
      OverlayNothing(EnsureBase(t));
    }
  }

  // ---- what an overlay guarantees ----

  /** The chain a port's jump from a dispatch chain leads to. */
  function Target(p: Port, c: Chain): Chain {
    if c == KUBE_HOSTPORTS then p.hp else p.masq
  }

  /** The jump of each port mentions no other port of the pod. */
  ghost predicate OwnTargets(p: Pod, c: Chain) {
    forall i, j :: 0 <= i < |p| && 0 <= j < |p| && i != j ==> !Contains(RuleText(c, Jump(p[j], c)), Target(p[i], c))
  }

  lemma {:induction false} SilentRule(c: Chain, r: Rule, p: Pod, i: nat)
    requires i < |p| && !Mentions(c, r, ChainsOf(p))
    ensures !Contains(RuleText(c, r), Target(p[i], c))
  {
    PortChainsListed(p, p[i]);
  }

  lemma OwnJumpsSilent(p: Pod, i: nat, c: Chain, r: Rule)
    requires GoodPod(p) && IsDispatch(c) && i < |p| && OwnTargets(p, c) && r in Fresh(p, c) && r != Jump(p[i], c)
    ensures !Contains(RuleText(c, r), Target(p[i], c))
  {
    JumpsAreFresh(p, c);
    var k :| 0 <= k < |p| && Jump(p[k], c) == r;
  }

  lemma {:induction false} OtherJumpsSilent(live: seq<Pod>, p: Pod, i: nat, c: Chain, r: Rule)
    requires IsDispatch(c) && i < |p| && OwnTargets(p, c) && r in LiveJumps(live, c) && r != Jump(p[i], c)
    requires forall q :: q in live ==> GoodPod(q) && (q == p || Silent(p, q))
    ensures !Contains(RuleText(c, r), Target(p[i], c))
  {
    LiveJumpsAre(live, c, r);
    var q :| q in live && r in Fresh(q, c);
    if q == p {
      OwnJumpsSilent(p, i, c, r);
    } else {
      SilentRule(c, r, p, i);
    }
  }

  lemma OthersSilent(base: Table, live: seq<Pod>, p: Pod)
    requires Compatible(base, live) && Separate(live) && p in live
    ensures forall q :: q in live ==> GoodPod(q) && (q == p || (!SameChains(q, p) && Silent(p, q)))
  {
    forall q | q in live
      ensures GoodPod(q) && (q == p || (!SameChains(q, p) && Silent(p, q)))
    {
      assert CleanFor(base, q) && Foreign(p, q);
      var i :| 0 <= i < |live| && live[i] == p;
      var j :| 0 <= j < |live| && live[j] == q;
    }
  }

  lemma {:induction false} OtherRulesSilent(base: Table, live: seq<Pod>, p: Pod, i: nat, c: Chain, r: Rule)
    requires IsDispatch(c) && c in base && Compatible(base, live) && Separate(live) && p in live && i < |p| && OwnTargets(p, c)
    requires r in LiveJumps(live, c) || r in base[c]
    requires r != Jump(p[i], c)
    ensures !Contains(RuleText(c, r), Target(p[i], c))
  {
    if r in LiveJumps(live, c) {
      OthersSilent(base, live, p);
      OtherJumpsSilent(live, p, i, c, r);
    } else {
      assert CleanFor(base, p) && UndisturbedChain(c, base[c], p);
      SilentRule(c, r, p, i);
    }
  }

  lemma {:induction false} JumpListed(live: seq<Pod>, p: Pod, i: nat, c: Chain)
    requires IsDispatch(c) && p in live && i < |p| && forall q :: q in live ==> GoodPod(q)
    ensures Jump(p[i], c) in LiveJumps(live, c)
  {
    JumpsAreFresh(p, c);
    assert Jump(p[i], c) == Jumps(p, c)[i] == Reversed(Jumps(p, c))[|p| - 1 - i];
    LiveJumpsAre(live, c, Jump(p[i], c));
  }

  /** The rule at `k` is the port's jump and no other rule mentions the port's chain. */
  ghost predicate OnlyJump(rules: seq<Rule>, p: Port, c: Chain, k: nat) {
    && k < |rules| && rules[k] == Jump(p, c)
    && forall m :: 0 <= m < |rules| && m != k ==> !Contains(RuleText(c, rules[m]), Target(p, c))
  }

  lemma OnlyJumpExists(rules: seq<Rule>, p: Port, c: Chain)
    requires NoDuplicates(rules) && Jump(p, c) in rules
    requires forall r :: r in rules && r != Jump(p, c) ==> !Contains(RuleText(c, r), Target(p, c))
    ensures exists k: nat :: OnlyJump(rules, p, c, k)
  {
    var k: nat :| k < |rules| && rules[k] == Jump(p, c);
    assert OnlyJump(rules, p, c, k);
  }

  lemma {:induction false} DispatchRules(base: Table, live: seq<Pod>, c: Chain, p: Pod, i: nat)
    requires IsDispatch(c) && c in base && Compatible(base, live) && Separate(live) && p in live && i < |p|
    ensures NoDuplicates(LiveJumps(live, c) + base[c]) && Jump(p[i], c) in LiveJumps(live, c)
  {
    assert forall q :: q in live ==> CleanFor(base, q);
    assert UndisturbedChain(c, base[c], p);
    DispatchDistinct(base, live, c);
    JumpListed(live, p, i, c);
  }

  /** Exactly one rule of a dispatch chain mentions a live port's chain: its own jump. */
  lemma {:induction false} OneJump(base: Table, live: seq<Pod>, p: Pod, i: nat, c: Chain)
    requires IsDispatch(c) && c in base && Compatible(base, live) && Separate(live) && p in live && i < |p| && OwnTargets(p, c)
    ensures exists k: nat :: OnlyJump(LiveJumps(live, c) + base[c], p[i], c, k)
  {
    var rules := LiveJumps(live, c) + base[c];
    DispatchRules(base, live, c, p, i);
    forall r | r in rules && r != Jump(p[i], c)
      ensures !Contains(RuleText(c, r), Target(p[i], c))
    {
      OtherRulesSilent(base, live, p, i, c, r);
    }
    OnlyJumpExists(rules, p[i], c);
  }

  /** After any run every live port has its two chains with their single rules, and exactly one
      rule of each dispatch chain mentions the port's chain: its own jump. */
  lemma {:induction false} DispatchIntact(t: Table, ops: seq<Op>, p: Pod, i: nat, c: Chain)
    requires Orderly(t, ops) && p in LiveAfter(ops) && i < |p| && IsDispatch(c) && OwnTargets(p, c)
    ensures var u := Exec(t, ops);
            && p[i].hp in u && u[p[i].hp] == [p[i].dnat]
            && p[i].masq in u && u[p[i].masq] == [p[i].snat]
            && c in u
            && exists k: nat :: OnlyJump(u[c], p[i], c, k)
  {
    var base, live := EnsureBase(t), LiveAfter(ops);
    RunIsOverlay(t, ops);
    LiveAfterOk(ops);
    OrderlyBased(t, ops);
    CompatibleLive(base, ops);
    EnsureBaseIdempotent(t);
    LiveChainsShown(base, live, p, i);
    OneJump(base, live, p, i, c);
    OverlayAt(base, live, c);
  }

  lemma {:induction false} OwnRuleOf(p: Pod, i: nat)
    requires GoodPod(p) && i < |p|
    ensures OwnRule(p, p[i].hp) == Some(p[i].dnat) && OwnRule(p, p[i].masq) == Some(p[i].snat)
  {
    if i == 0 {
      PortChainKinds(p[0]);
    } else {
      assert DifferentPorts(p[0], p[i]) && p[0] in p && p[i] in p;
      CrossKinds(p[0], p[i]);
      TailIsGood(p);
      OwnRuleOf(p[1..], i - 1);
    }
  }

  lemma LiveChainsShown(base: Table, live: seq<Pod>, p: Pod, i: nat)
    requires Compatible(base, live) && Separate(live) && p in live && i < |p|
    ensures var u := Overlay(base, live);
            p[i].hp in u && u[p[i].hp] == [p[i].dnat] && p[i].masq in u && u[p[i].masq] == [p[i].snat]
  {
    assert CleanFor(base, p) && p[i] in p;
    PortChainKinds(p[i]);
    PortChainsListed(p, p[i]);
    OwnRuleOf(p, i);
    LiveRuleIsOwn(base, live, p, p[i].hp);
    LiveRuleIsOwn(base, live, p, p[i].masq);
  }

  lemma {:induction false} LiveRuleIsOwn(base: Table, live: seq<Pod>, p: Pod, c: Chain)
    requires Compatible(base, live) && Separate(live) && p in live && c in ChainsOf(p)
    ensures c in LiveChains(live) && LiveRule(live, c) == OwnRule(p, c)
  {
    LiveChainsContain(live, p, c);
    LiveRuleExists(live, c);
    OthersSilent(base, live, p);
    var q :| q in live && c in ChainsOf(q) && LiveRule(live, c) == OwnRule(q, c);
    if q != p {
      OthersOwn(p, q, c);
    }
  }

  // ---- deletions in a run ----

  /** Chains outside the manager's reach name none of the pod's. */
  ghost predicate NotNamedOutside(t: Table, p: Pod) {
    forall c, r, x :: c in t && !IsHostport(c) && r in t[c] && x in ChainsOf(p) ==> !Contains(RuleText(c, r), x)
  }

  /** The rules of the pod's own chains name no other chain of the pod. */
  ghost predicate OwnRulesApart(p: Pod) {
    forall c, x :: c in ChainsOf(p) && x in ChainsOf(p) && x != c && OwnRule(p, c).Some? ==>
      !Contains(RuleText(c, OwnRule(p, c).value), x)
  }

  lemma BaseOutside(t: Table, p: Pod)
    requires GoodPod(p) && NotNamedOutside(t, p)
    ensures NotNamedOutside(EnsureBase(t), p)
  {
    FreeOfCapitals("OUTPUT");
    BaseJumpFree("OUTPUT");
    FreeOfCapitals("PREROUTING");
    BaseJumpFree("PREROUTING");
    FreeOfCapitals("POSTROUTING");
    BaseJumpFree("POSTROUTING");
    forall c, r, x | c in EnsureBase(t) && !IsHostport(c) && r in EnsureBase(t)[c] && x in ChainsOf(p)
      ensures !Contains(RuleText(c, r), x)
    {
      BaseRuleFrom(t, c, r);
      ChainHasPrefix(p, x);
      if Contains(RuleText(c, r), x) {
        ContainsPrefix(RuleText(c, r), x, if HasPrefix(x, KUBE_HP_PREFIX) then KUBE_HP_PREFIX else CRIO_MASQ_PREFIX);
      }
    }
  }

  lemma BaseRuleFrom(t: Table, c: Chain, r: Rule)
    requires c in EnsureBase(t) && !IsHostport(c) && r in EnsureBase(t)[c]
    ensures (c in t && r in t[c]) || (r == PORTALS_JUMP && (c == "OUTPUT" || c == "PREROUTING")) || (r == MASQ_JUMP && c == "POSTROUTING")
  {
  }

  lemma {:induction false} ChainHasPrefix(p: Pod, x: Chain)
    requires GoodPod(p) && x in ChainsOf(p)
    ensures HasPrefix(x, KUBE_HP_PREFIX) || HasPrefix(x, CRIO_MASQ_PREFIX)
  {
    if x !in PortChains(p[0]) {
      TailIsGood(p);
      ChainHasPrefix(p[1..], x);
    } else {
      assert p[0] in p;
    }
  }

  /** A chain outside the manager's reach is as in the base table. */
  lemma OutsideUntouched(base: Table, live: seq<Pod>, c: Chain)
    requires c in Overlay(base, live) && !IsHostport(c) && forall q :: q in live ==> GoodPod(q)
    ensures c in base && Overlay(base, live)[c] == base[c]
  {
    if c in LiveChains(live) {
      LiveChainsAreHostport(live, c);
    }
    LiveRuleExists(live, c);
  }

  /** A chain of the pod that is there holds the own rule of the live pod with the pod's chains. */
  lemma {:induction false} OwnChainShown(base: Table, live: seq<Pod>, p: Pod, c: Chain) returns (q: Pod)
    requires Fits(base, live, p) && c in ChainsOf(p) && c in Overlay(base, live)
    ensures q in live && SameChains(q, p) && OwnRule(q, c).Some? && Overlay(base, live)[c] == [OwnRule(q, c).value]
  {
    OwnChainsApart(base, live, p, c);
    q :| q in live && SameChains(q, p);
    assert CleanFor(base, q);
    LiveRuleIsOwn(base, live, q, c);
    OwnRuleExists(q, c);
    ChainsAreHostport(q, c);
  }

  /** In any run, when a removal comes to its deletions, no rule of any other chain names a chain
      that is to be deleted: not of a hostport chain, not of one outside the manager's reach, not
      of the pod's own. */
  lemma {:induction false} NoReferenceWhenDeleted(t: Table, ops: seq<Op>, p: Pod, c: Chain, r: Rule, x: Chain)
    requires Orderly(t, ops + [RemovePod(p)]) && NotNamedOutside(t, p)
    requires forall q :: q in LiveAfter(ops) && SameChains(q, p) ==> OwnRulesApart(q)
    requires x in ChainsOf(p) && c != x && c in AtDelete(Exec(t, ops), p) && r in AtDelete(Exec(t, ops), p)[c]
    ensures !Contains(RuleText(c, r), x)
  {
    var u := Exec(t, ops);
    if IsHostport(c) && c !in ChainsOf(p) {
      KeptRulesSilent(c, u[c], ChainsOf(p), r);
    } else {
      RemovalFits(t, ops, p);
      var base, live := BaseAfter(t, ops), LiveAfter(ops);
      FitsParts(base, live, p);
      if c in ChainsOf(p) {
        var q := OwnChainShown(base, live, p, c);
      } else {
        OutsideUntouched(base, live, c);
        BaseOutside(t, p);
      }
    }
  }

  lemma {:induction false} RemovalFits(t: Table, ops: seq<Op>, p: Pod)
    requires Orderly(t, ops + [RemovePod(p)]) && p != []
    ensures var base, live := BaseAfter(t, ops), LiveAfter(ops);
            Exec(t, ops) == Overlay(base, live) && Fits(base, live, p)
  {
    var all := ops + [RemovePod(p)];
    assert all[..|all| - 1] == ops;
    OrderlyBefore(t, all, |ops|);
    RunIsOverlay(t, ops);
    OrderlyBased(t, all);
    FitsNow(BaseAfter(t, ops), all, p);
  }

  /** After a removal nothing is left of the pod: none of its chains is there, and no rule names one. */
  lemma {:induction false} NothingLeft(t: Table, ops: seq<Op>, p: Pod, x: Chain)
    requires Orderly(t, ops + [RemovePod(p)]) && NotNamedOutside(t, p) && x in ChainsOf(p)
    ensures var u := Exec(t, ops + [RemovePod(p)]);
            x !in u && forall c, r :: c in u && r in u[c] ==> !Contains(RuleText(c, r), x)
  {
    var all := ops + [RemovePod(p)];
    assert all[..|all| - 1] == ops;
    RemovalFits(t, ops, p);
    var base, live := BaseAfter(t, ops), Without(LiveAfter(ops), p);
    RemoveOnOverlay(base, LiveAfter(ops), p);
    FitsParts(base, LiveAfter(ops), p);
    OwnChainsApart(base, LiveAfter(ops), p, x);
    BaseOutside(t, p);
    forall c, r | c in Overlay(base, live) && r in Overlay(base, live)[c]
      ensures !Contains(RuleText(c, r), x)
    {
      if !IsHostport(c) {
        OutsideUntouched(base, live, c);
      } else {
        OverlaySilent(base, live, p, c, r);
      }
    }
  }

  /** Hostport rules of an overlay of foreign pods mention no chain of the pod. */
  lemma {:induction false} OverlaySilent(base: Table, live: seq<Pod>, p: Pod, c: Chain, r: Rule)
    requires CleanFor(base, p) && IsHostport(c) && c in Overlay(base, live) && r in Overlay(base, live)[c]
    requires forall q :: q in live ==> GoodPod(q) && Silent(p, q)
    ensures !Mentions(c, r, ChainsOf(p))
  {
    assert c in base ==> UndisturbedChain(c, base[c], p);
    if IsDispatch(c) {
      LiveJumpsAre(live, c, r);
    } else {
      LiveRuleExists(live, c);
      if c in LiveChains(live) {
        var q :| q in live && c in ChainsOf(q) && LiveRule(live, c) == OwnRule(q, c);
        FreshIs(q, c);
      }
    }
  }
}
