/** Remove undoes Add exactly when the table is free of duplicate and of stray rules. */
module HostportUndo {
  import opened Options
  import opened Sequences
  import opened Text
  import opened Iptables
  import opened Hostport
  import opened HostportProof

  // ---- filtering and appending rules ----

  lemma {:induction false} AppendDisjoint(x: seq<Rule>, y: seq<Rule>)
    requires NoDuplicates(y) && forall r :: r in y ==> r !in x
    ensures AppendAll(x, y) == x + y
    decreases |y|
  {
    if y != [] {
      assert y == [y[0]] + y[1..];
      NoDuplicatesCons(y[0], y[1..]);
      AppendDisjoint(x + [y[0]], y[1..]);
      assert x + [y[0]] + y[1..] == x + y;
    }
  }

  /** The rules without repetitions, first occurrences kept. */
  function Distinct(y: seq<Rule>): seq<Rule> {
    AppendAll([], y)
  }

  lemma {:induction false} AppendAllIs(x: seq<Rule>, y: seq<Rule>)
    requires NoDuplicates(x)
    ensures NoDuplicates(AppendAll(x, y)) && x <= AppendAll(x, y) && |AppendAll(x, y)| <= |x| + |y|
    ensures forall r :: r in AppendAll(x, y) <==> r in x || r in y
    decreases |y|
  {
    if y != [] {
      NoDuplicatesConcat(x, [y[0]]);
      AppendAllIs(Appended(x, y[0]), y[1..]);
    }
  }

  lemma {:induction false} AppendAfter(z: seq<Rule>, x: seq<Rule>, y: seq<Rule>)
    requires forall r :: r in y ==> r !in z
    ensures AppendAll(z + x, y) == z + AppendAll(x, y)
    decreases |y|
  {
    if y != [] {
      assert z + x + [y[0]] == z + (x + [y[0]]);
      AppendAfter(z, Appended(x, y[0]), y[1..]);
    }
  }

  lemma DistinctExactly(y: seq<Rule>)
    ensures NoDuplicates(Distinct(y)) && forall r :: r in Distinct(y) <==> r in y
    ensures Distinct(y) == y <==> NoDuplicates(y)
  {
    AppendAllIs([], y);
    if NoDuplicates(y) {
      AppendDisjoint([], y);
      assert [] + y == y;
    }
  }

  lemma {:induction false} KeptAre(c: Chain, rules: seq<Rule>, f: seq<Chain>)
    ensures forall r :: r in KeptRules(c, rules, f) <==> r in rules && !Mentions(c, r, f)
    ensures |KeptRules(c, rules, f)| <= |rules|
    ensures NoDuplicates(rules) ==> NoDuplicates(KeptRules(c, rules, f))
  {
    if rules != [] {
      KeptAre(c, rules[1..], f);
      assert rules == [rules[0]] + rules[1..];
      NoDuplicatesCons(rules[0], rules[1..]);
      NoDuplicatesCons(rules[0], KeptRules(c, rules[1..], f));
      assert [] + KeptRules(c, rules[1..], f) == KeptRules(c, rules[1..], f);
    }
  }

  lemma {:induction false} KeptAll(c: Chain, rules: seq<Rule>, f: seq<Chain>)
    requires forall r :: r in rules ==> !Mentions(c, r, f)
    ensures KeptRules(c, rules, f) == rules
  {
    if rules != [] {
      KeptAll(c, rules[1..], f);
      assert rules[0] in rules;
    }
  }

  lemma {:induction false} KeptNone(c: Chain, rules: seq<Rule>, f: seq<Chain>)
    requires forall r :: r in rules ==> Mentions(c, r, f)
    ensures KeptRules(c, rules, f) == []
  {
    if rules != [] {
      KeptNone(c, rules[1..], f);
      assert rules[0] in rules;
    }
  }

  lemma {:induction false} KeptRulesConcat(c: Chain, a: seq<Rule>, b: seq<Rule>, f: seq<Chain>)
    ensures KeptRules(c, a + b, f) == KeptRules(c, a, f) + KeptRules(c, b, f)
  {
    if a == [] {
      assert a + b == b;
    } else {
      assert (a + b)[1..] == a[1..] + b;
      KeptRulesConcat(c, a[1..], b, f);
    }
  }

  /** Every rule of one of the filtered chains is itself filtered. */
  lemma OwnChainMentioned(c: Chain, r: Rule, f: seq<Chain>)
    requires c in f
    ensures Mentions(c, r, f)
  {
    ContainsInfix("-A ", c, " " + r);
    assert "-A " + c + (" " + r) == RuleText(c, r);
  }

  lemma TargetMentioned(c: Chain, r: Rule, x: Chain, f: seq<Chain>)
    requires x in f && Contains(r, x)
    ensures Mentions(c, r, f)
  {
    ContainsSuffix("-A " + c + " ", r, x);
  }

  // ---- what a pod's own lines leave in each chain ----

  predicate IsDispatch(c: Chain) {
    c == KUBE_HOSTPORTS || c == CRIO_HOSTPORTS_MASQ
  }

  /** The jump to a port's chain from a dispatch chain. */
  function Jump(p: Port, c: Chain): Rule {
    if c == KUBE_HOSTPORTS then p.jump else p.masqJump
  }

  function Jumps(ports: seq<Port>, c: Chain): seq<Rule> {
    seq(|ports|, i requires 0 <= i < |ports| => Jump(ports[i], c))
  }

  lemma JumpsDistinct(ports: seq<Port>, c: Chain)
    requires GoodPod(ports)
    ensures NoDuplicates(Jumps(ports, c)) && NoDuplicates(Reversed(Jumps(ports, c)))
  {
    forall i, j | 0 <= i < j < |ports|
      ensures Jumps(ports, c)[i] != Jumps(ports, c)[j]
    {
      assert DifferentPorts(ports[i], ports[j]);
    }
  }

  lemma JumpsCons(ports: seq<Port>, c: Chain, x: seq<Rule>)
    requires ports != []
    ensures Reversed(Jumps(ports, c)) + x == Reversed(Jumps(ports[1..], c)) + ([Jump(ports[0], c)] + x)
  {
    assert Reversed(Jumps(ports, c)) == Reversed(Jumps(ports[1..], c)) + [Jump(ports[0], c)];
  }

  lemma {:induction false} JumpsInFront(x: seq<Rule>, ports: seq<Port>, c: Chain)
    requires IsDispatch(c) && GoodPod(ports) && forall p :: p in ports ==> Jump(p, c) !in x
    ensures Effects(Some(x), LinesOf(ports), c, true) == Some(Reversed(Jumps(ports, c)) + x)
    decreases |ports|
  {
    if ports == [] {
      assert Reversed(Jumps(ports, c)) + x == x;
    } else {
      var j := Jump(ports[0], c);
      assert ports[0] in ports;
      TailIsGood(ports);
      EffectsConcat(Some(x), PortLines(ports[0]), LinesOf(ports[1..]), c, true);
      PortEffect(x, ports[0], c);
      forall q | q in ports[1..]
        ensures Jump(q, c) !in [j] + x
      {
        var k :| 1 <= k < |ports| && ports[k] == q;
        assert DifferentPorts(ports[0], ports[k]);
      }
      JumpsInFront([j] + x, ports[1..], c);
      JumpsCons(ports, c, x);
    }
  }

  lemma {:induction false} PortEffect(x: seq<Rule>, p: Port, c: Chain)
    requires GoodPort(p)
    ensures Effects(Some(x), PortLines(p), c, true) == Some(
              if c == KUBE_HOSTPORTS then Prepended(x, p.jump)
              else if c == CRIO_HOSTPORTS_MASQ then Prepended(x, p.masqJump)
              else if c == p.hp then Appended(x, p.dnat)
              else if c == p.masq then Appended(x, p.snat) else x)
  {
    PortChainKinds(p);
    var l := PortLines(p);
    var o1 := Effect(Some(x), l[0], c, true);
    var o2 := Effect(o1, l[1], c, true);
    var o3 := Effect(o2, l[2], c, true);
    OneLine(o3, l[3], [], c);
    OneLine(o2, l[2], [l[3]], c);
    OneLine(o1, l[1], [l[2], l[3]], c);
    OneLine(Some(x), l[0], [l[1], l[2], l[3]], c);
    assert l == [l[0]] + [l[1], l[2], l[3]];
    assert [l[1]] + [l[2], l[3]] == [l[1], l[2], l[3]] && [l[2]] + [l[3]] == [l[2], l[3]] && [l[3]] + [] == [l[3]];
  }

  lemma {:induction false} OneLine(o: Option<seq<Rule>>, l: Line, rest: seq<Line>, c: Chain)
    ensures Effects(o, [l] + rest, c, true) == Effects(Effect(o, l, c, true), rest, c, true)
  {
    assert ([l] + rest)[1..] == rest;
  }

  lemma TailIsGood(ports: seq<Port>)
    requires GoodPod(ports) && ports != []
    ensures GoodPod(ports[1..])
  {
    forall i, j | 0 <= i < j < |ports[1..]|
      ensures DifferentPorts(ports[1..][i], ports[1..][j])
    {
      assert DifferentPorts(ports[i + 1], ports[j + 1]);
    }
  }

  /** The rule of a pod's own chain, if `c` is one. */
  function OwnRule(ports: seq<Port>, c: Chain): Option<Rule> {
    if ports == [] then None
    else if c == ports[0].hp then Some(ports[0].dnat)
    else if c == ports[0].masq then Some(ports[0].snat)
    else OwnRule(ports[1..], c)
  }

  lemma {:induction false} OwnRuleExists(ports: seq<Port>, c: Chain)
    ensures OwnRule(ports, c).Some? <==> c in ChainsOf(ports)
  {
    if ports != [] {
      OwnRuleExists(ports[1..], c);
    }
  }

  lemma {:induction false} LaterPortsElsewhere(ports: seq<Port>, p: Port)
    requires GoodPort(p) && (forall q :: q in ports ==> GoodPort(q) && DifferentPorts(p, q))
    ensures p.hp !in ChainsOf(ports) && p.masq !in ChainsOf(ports)
  {
    if ports != [] {
      assert ports[0] in ports;
      assert DifferentPorts(p, ports[0]);
      PortChainKinds(p);
      PortChainKinds(ports[0]);
      CrossKinds(p, ports[0]);
      LaterPortsElsewhere(ports[1..], p);
    }
  }

  lemma CrossKinds(p: Port, q: Port)
    requires GoodPort(p) && GoodPort(q)
    ensures p.hp != q.masq && p.masq != q.hp
  {
    assert p.hp[..8][0] == 'K' && q.hp[..8][0] == 'K';
    assert p.masq[..10][0] == 'C' && q.masq[..10][0] == 'C';
  }

  lemma {:induction false} OwnChainLines(ports: seq<Port>, c: Chain)
    requires GoodPod(ports) && !IsDispatch(c)
    ensures Effects(Some([]), LinesOf(ports), c, true) ==
            Some(if OwnRule(ports, c).Some? then [OwnRule(ports, c).value] else [])
  {
    if ports != [] {
      var p := ports[0];
      assert p in ports;
      PortChainKinds(p);
      TailIsGood(ports);
      EffectsConcat(Some([]), PortLines(p), LinesOf(ports[1..]), c, true);
      PortEffect([], p, c);
      assert [] + [p.dnat] == [p.dnat] && [] + [p.snat] == [p.snat];
      if c == p.hp || c == p.masq {
        forall q | q in ports[1..]
          ensures GoodPort(q) && DifferentPorts(p, q)
        {
          var k :| 1 <= k < |ports| && ports[k] == q;
          assert DifferentPorts(ports[0], ports[k]);
        }
        LaterPortsElsewhere(ports[1..], p);
        forall l | l in LinesOf(ports[1..])
          ensures !Concerns(l, c)
        {
          LinesConcern(ports[1..], l);
        }
        EffectsElsewhere(Effects(Some([]), PortLines(p), c, true), LinesOf(ports[1..]), c, true);
      } else {
        OwnChainLines(ports[1..], c);
      }
    }
  }

  lemma {:induction false} FreshIs(ports: seq<Port>, c: Chain)
    requires GoodPod(ports)
    ensures Fresh(ports, c) ==
            if IsDispatch(c) then Reversed(Jumps(ports, c))
            else if OwnRule(ports, c).Some? then [OwnRule(ports, c).value] else []
  {
    if IsDispatch(c) {
      JumpsInFront([], ports, c);
    } else {
      OwnChainLines(ports, c);
    }
  }

  lemma {:induction false} PortChainsListed(ports: seq<Port>, p: Port)
    requires p in ports
    ensures p.hp in ChainsOf(ports) && p.masq in ChainsOf(ports)
  {
    if p != ports[0] {
      PortChainsListed(ports[1..], p);
    }
  }

  /** Everything the pod writes mentions one of its chains. */
  lemma {:induction false} FreshMentioned(ports: seq<Port>, c: Chain, r: Rule)
    requires GoodPod(ports) && r in Fresh(ports, c)
    ensures Mentions(c, r, ChainsOf(ports))
  {
    FreshIs(ports, c);
    if IsDispatch(c) {
      var k :| 0 <= k < |ports| && Jump(ports[k], c) == r;
      assert ports[k] in ports;
      PortChainsListed(ports, ports[k]);
      TargetMentioned(c, r, if c == KUBE_HOSTPORTS then ports[k].hp else ports[k].masq, ChainsOf(ports));
    } else {
      OwnRuleExists(ports, c);
      OwnChainMentioned(c, r, ChainsOf(ports));
    }
  }

  lemma FreshDistinct(ports: seq<Port>, c: Chain)
    requires GoodPod(ports)
    ensures NoDuplicates(Fresh(ports, c))
  {
    FreshIs(ports, c);
    JumpsDistinct(ports, c);
  }

  /** After Add a hostport chain holds the pod's rules in front of the surviving old ones. */
  lemma {:induction false} AddedRulesAre(t: Table, ports: seq<Port>, c: Chain)
    requires GoodPod(ports) && IsHostport(c)
    ensures AddedRules(t, ports, c) == Fresh(ports, c) + Distinct(KeptRules(c, RulesAt(t, c), ChainsOf(ports)))
  {
    var f := ChainsOf(ports);
    var kept := KeptRules(c, RulesAt(t, c), f);
    KeptAre(c, RulesAt(t, c), f);
    forall r | r in kept
      ensures r !in Fresh(ports, c)
    {
      if r in Fresh(ports, c) {
        FreshMentioned(ports, c, r);
      }
    }
    AppendAfter(Fresh(ports, c), [], kept);
    assert Fresh(ports, c) + [] == Fresh(ports, c);
  }

  // ---- Remove after Add ----

  /** The hostport chains hold no rule twice and none that mentions the pod's chains. */
  ghost predicate Undisturbed(t: Table, ports: seq<Port>) {
    forall c :: c in t && IsHostport(c) ==> UndisturbedChain(c, t[c], ports)
  }

  ghost predicate UndisturbedChain(c: Chain, rules: seq<Rule>, ports: seq<Port>) {
    NoDuplicates(rules) && forall r :: r in rules ==> !Mentions(c, r, ChainsOf(ports))
  }

  ghost predicate Absent(t: Table, ports: seq<Port>) {
    forall c :: c in ChainsOf(ports) ==> c !in t
  }

  ghost function AddResult(t: Table, ports: seq<Port>): Table {
    if ports == [] then t else AddedTable(EnsureBase(t), ports)
  }

  lemma {:induction false} SurvivesExactly(c: Chain, rules: seq<Rule>, ports: seq<Port>)
    ensures Distinct(KeptRules(c, rules, ChainsOf(ports))) == rules <==> UndisturbedChain(c, rules, ports)
  {
    var kept := KeptRules(c, rules, ChainsOf(ports));
    KeptAre(c, rules, ChainsOf(ports));
    DistinctExactly(kept);
    DistinctExactly(rules);
    if UndisturbedChain(c, rules, ports) {
      KeptAll(c, rules, ChainsOf(ports));
    }
  }

  lemma {:induction false} ChainAddedAndRemoved(t: Table, ports: seq<Port>, c: Chain)
    requires GoodPod(ports) && IsHostport(c) && c in t
    ensures var f := ChainsOf(ports);
            Distinct(KeptRules(c, AddedRules(t, ports, c), f)) == Distinct(KeptRules(c, t[c], f))
  {
    var f := ChainsOf(ports);
    var kept := KeptRules(c, t[c], f);
    AddedRulesAre(t, ports, c);
    KeptAre(c, t[c], f);
    DistinctExactly(kept);
    KeptRulesConcat(c, Fresh(ports, c), Distinct(kept), f);
    forall r | r in Fresh(ports, c)
      ensures Mentions(c, r, f)
    {
      FreshMentioned(ports, c, r);
    }
    KeptNone(c, Fresh(ports, c), f);
    KeptAll(c, Distinct(kept), f);
    DistinctExactly(Distinct(kept));
    assert [] + Distinct(kept) == Distinct(kept);
  }

  lemma BaseOnlyAddsDispatch(t: Table)
    ensures var u := EnsureBase(t);
            && KUBE_HOSTPORTS in u && CRIO_HOSTPORTS_MASQ in u
            && (forall c :: IsHostport(c) ==> RulesAt(u, c) == RulesAt(t, c))
            && (forall c :: IsHostport(c) && !IsDispatch(c) ==> (c in u <==> c in t))
            && (forall c :: c in t ==> c in u)
  {
    HostportNotBuiltin(KUBE_HOSTPORTS);
    HostportNotBuiltin(CRIO_HOSTPORTS_MASQ);
    forall c | IsHostport(c)
      ensures c !in BUILTIN
    {
      HostportNotBuiltin(c);
    }
    assert "OUTPUT" in BUILTIN && "PREROUTING" in BUILTIN && "POSTROUTING" in BUILTIN;
  }

  lemma UndisturbedByBase(t: Table, ports: seq<Port>)
    ensures Undisturbed(EnsureBase(t), ports) <==> Undisturbed(t, ports)
  {
    var u := EnsureBase(t);
    BaseOnlyAddsDispatch(t);
    if Undisturbed(u, ports) {
      forall c | c in t && IsHostport(c)
        ensures UndisturbedChain(c, t[c], ports)
      {
        assert u[c] == RulesAt(u, c) == t[c];
      }
    }
    if Undisturbed(t, ports) {
      forall c | c in u && IsHostport(c)
        ensures UndisturbedChain(c, u[c], ports)
      {
        assert u[c] == RulesAt(u, c) == RulesAt(t, c);
      }
    }
  }

  lemma RemovedRuleOf(u: Table, ports: seq<Port>, c: Chain)
    requires GoodPod(ports) && Absent(u, ports) && c in u
    ensures var r := RemovedTable(AddedTable(u, ports), ports);
            c in r && (r[c] == u[c] <==> (IsHostport(c) ==> UndisturbedChain(c, u[c], ports)))
  {
    if IsHostport(c) {
      ChainAddedAndRemoved(u, ports, c);
      SurvivesExactly(c, u[c], ports);
    }
  }

  lemma RemovedKeys(u: Table, ports: seq<Port>)
    requires ports != [] && Absent(u, ports)
    ensures RemovedTable(AddedTable(u, ports), ports).Keys == u.Keys
    ensures RemoveResult(AddedTable(u, ports), ports) == RemovedTable(AddedTable(u, ports), ports)
  {
    var a := AddedTable(u, ports);
    assert ports[0].hp in ChainsOf(ports) && ports[0].hp in a;
  }

  lemma BackToBase(u: Table, ports: seq<Port>)
    requires GoodPod(ports) && ports != [] && Absent(u, ports)
    ensures RemoveResult(AddedTable(u, ports), ports) == u <==> Undisturbed(u, ports)
  {
    var r := RemovedTable(AddedTable(u, ports), ports);
    RemovedKeys(u, ports);
    forall c | c in u
      ensures r[c] == u[c] <==> (IsHostport(c) ==> UndisturbedChain(c, u[c], ports))
    {
      RemovedRuleOf(u, ports, c);
    }
  }

  /** Remove, asked for with whatever has the pod's chains, undoes Add, back to the table with just
      the base chains, if and only if no hostport chain held a rule twice or a rule mentioning one of
      the pod's (absent) chains. */
  lemma {:induction false} RemoveUndoesAdd(t: Table, ports: seq<Port>, removed: seq<Port>)
    requires GoodPod(ports) && ports != [] && Absent(t, ports) && ChainsOf(removed) == ChainsOf(ports)
    ensures NoDuplicates(Present(ChainsOf(removed), AddResult(t, ports)))
    ensures RemoveResult(AddResult(t, ports), removed) == EnsureBase(t) <==> Undisturbed(t, ports)
  {
    assert RemoveResult(AddResult(t, ports), removed) == RemoveResult(AddResult(t, ports), ports);
    RemoveSucceeds(AddResult(t, ports), ports);
    AbsentFromBase(t, ports);
    BackToBase(EnsureBase(t), ports);
    UndisturbedByBase(t, ports);
  }

  lemma AbsentFromBase(t: Table, ports: seq<Port>)
    requires GoodPod(ports)
    ensures Absent(EnsureBase(t), ports) <==> Absent(t, ports)
  {
    BaseOnlyAddsDispatch(t);
    forall c | c in ChainsOf(ports)
      ensures c in EnsureBase(t) <==> c in t
    {
      ChainsAreHostport(ports, c);
    }
  }

  /** A stray rule that names a chain the pod comes to use is gone after Add and Remove. */
  lemma StrayRuleDropped(ports: seq<Port>, r: Rule)
    requires GoodPod(ports) && ports != [] && Contains(r, ports[0].hp)
    ensures var t := map[KUBE_HOSTPORTS := [r]];
            var u := RemoveResult(AddResult(t, ports), ports);
            KUBE_HOSTPORTS in u && u[KUBE_HOSTPORTS] == [] && EnsureBase(t)[KUBE_HOSTPORTS] == [r]
  {
    var t := map[KUBE_HOSTPORTS := [r]];
    forall c | c in ChainsOf(ports)
      ensures c !in t
    {
      DispatchNotPortChain(ports, c);
    }
    BaseOnlyAddsDispatch(t);
    AbsentFromBase(t, ports);
    assert EnsureBase(t)[KUBE_HOSTPORTS] == RulesAt(t, KUBE_HOSTPORTS);
    OnlyRuleDropped(EnsureBase(t), ports, r);
  }

  lemma OnlyRuleDropped(base: Table, ports: seq<Port>, r: Rule)
    requires GoodPod(ports) && ports != [] && Contains(r, ports[0].hp) && Absent(base, ports)
    requires KUBE_HOSTPORTS in base && base[KUBE_HOSTPORTS] == [r]
    ensures var u := RemoveResult(AddedTable(base, ports), ports); KUBE_HOSTPORTS in u && u[KUBE_HOSTPORTS] == []
  {
    assert ports[0].hp in ChainsOf(ports);
    TargetMentioned(KUBE_HOSTPORTS, r, ports[0].hp, ChainsOf(ports));
    RemovedKeys(base, ports);
    ChainAddedAndRemoved(base, ports, KUBE_HOSTPORTS);
    KeptNone(KUBE_HOSTPORTS, [r], ChainsOf(ports));
  }

  // ---- duplicates do not arise ----

  lemma {:induction false} AppendAllDistinct(x: seq<Rule>, y: seq<Rule>)
    requires NoDuplicates(x)
    ensures NoDuplicates(AppendAll(x, y))
    decreases |y|
  {
    if y != [] {
      PutKeepsDistinct(x, y[0]);
      AppendAllDistinct(Appended(x, y[0]), y[1..]);
    }
  }

  lemma {:induction false} EffectsDistinct(o: Option<seq<Rule>>, lines: seq<Line>, c: Chain, flush: bool)
    requires NoDuplicates(RulesOf(o))
    ensures NoDuplicates(RulesOf(Effects(o, lines, c, flush)))
    decreases |lines|
  {
    if lines != [] {
      if Concerns(lines[0], c) && (lines[0].Append? || lines[0].Insert?) {
        PutKeepsDistinct(RulesOf(o), lines[0].rule);
      }
      EffectsDistinct(Effect(o, lines[0], c, flush), lines[1..], c, flush);
    }
  }

  /** Neither the base set-up, nor Add, nor Remove makes a chain hold a rule twice. */
  lemma OperationsKeepDistinct(t: Table, ports: seq<Port>)
    requires DistinctRules(t)
    ensures DistinctRules(EnsureBase(t)) && DistinctRules(AddResult(t, ports)) && DistinctRules(RemoveResult(t, ports))
  {
    BaseKeepsDistinct(t);
    AddedKeepsDistinct(EnsureBase(t), ports);
    forall c | c in RemovedTable(t, ports)
      ensures NoDuplicates(RemovedTable(t, ports)[c])
    {
      AppendAllDistinct([], KeptRules(c, t[c], ChainsOf(ports)));
    }
  }

  lemma AddedKeepsDistinct(t: Table, ports: seq<Port>)
    requires DistinctRules(t)
    ensures DistinctRules(AddedTable(t, ports))
  {
    forall c | c in AddedTable(t, ports)
      ensures NoDuplicates(AddedTable(t, ports)[c])
    {
      EffectsDistinct(Some([]), LinesOf(ports), c, true);
      AppendAllDistinct(Fresh(ports, c), KeptRules(c, RulesAt(t, c), ChainsOf(ports)));
    }
  }

  lemma BaseKeepsDistinct(t: Table)
    requires DistinctRules(t)
    ensures DistinctRules(EnsureBase(t))
  {
    EnsureKeepsDistinct(t, KUBE_HOSTPORTS, "OUTPUT", PORTALS_JUMP);
    var a := WithRule(WithChain(t, KUBE_HOSTPORTS), "OUTPUT", PORTALS_JUMP);
    EnsureKeepsDistinct(a, "PREROUTING", "PREROUTING", PORTALS_JUMP);
    var b := WithRule(a, "PREROUTING", PORTALS_JUMP);
    assert WithRule(WithChain(a, "PREROUTING"), "PREROUTING", PORTALS_JUMP) == b;
    EnsureKeepsDistinct(b, CRIO_HOSTPORTS_MASQ, "POSTROUTING", MASQ_JUMP);
  }

  lemma EnsureKeepsDistinct(t: Table, c: Chain, d: Chain, r: Rule)
    requires DistinctRules(t)
    ensures DistinctRules(WithRule(WithChain(t, c), d, r))
  {
    PutKeepsDistinct(RulesAt(WithChain(t, c), d), r);
  }

  /** No rule of a hostport chain mentions a chain of the pod. */
  ghost predicate Unmentioned(t: Table, ports: seq<Port>) {
    forall c, r :: c in t && IsHostport(c) && r in t[c] ==> !Mentions(c, r, ChainsOf(ports))
  }

  /** On the tables that can arise, where no chain holds a rule twice, Remove succeeds after Add and
      undoes it if and only if no hostport chain held a rule that mentions the pod's chains. */
  lemma {:induction false} RemoveUndoesAddExactly(t: Table, ports: seq<Port>, removed: seq<Port>)
    requires GoodPod(ports) && ports != [] && Absent(t, ports) && DistinctRules(t) && ChainsOf(removed) == ChainsOf(ports)
    ensures NoDuplicates(Present(ChainsOf(removed), AddResult(t, ports)))
    ensures RemoveResult(AddResult(t, ports), removed) == EnsureBase(t) <==> Unmentioned(t, ports)
  {
    RemoveUndoesAdd(t, ports, removed);
    forall c | c in t && IsHostport(c)
      ensures UndisturbedChain(c, t[c], ports) <==> forall r :: r in t[c] ==> !Mentions(c, r, ChainsOf(ports))
    {
    }
  }

  // ---- Remove succeeds ----

  lemma {:induction false} GoodPodChains(ports: seq<Port>)
    requires GoodPod(ports)
    ensures NoDuplicates(ChainsOf(ports))
  {
    if ports != [] {
      var p, rest := ports[0], ports[1..];
      TailIsGood(ports);
      GoodPodChains(rest);
      PortChainKinds(p);
      forall q | q in rest
        ensures GoodPort(q) && DifferentPorts(p, q)
      {
        var j :| 0 <= j < |rest| && rest[j] == q;
        assert ports[j + 1] == q && DifferentPorts(ports[0], ports[j + 1]);
      }
      LaterPortsElsewhere(rest, p);
      NoDuplicatesConcat(PortChains(p), ChainsOf(rest));
    }
  }

  /** For a well-formed pod Remove succeeds on every table. */
  lemma {:induction false} RemoveSucceeds(t: Table, ports: seq<Port>)
    requires GoodPod(ports)
    ensures NoDuplicates(Present(ChainsOf(ports), t))
  {
    GoodPodChains(ports);
    PresentAre(ChainsOf(ports), t);
  }

  lemma {:induction false} DispatchNotPortChain(ports: seq<Port>, c: Chain)
    requires GoodPod(ports) && c in ChainsOf(ports)
    ensures !IsDispatch(c)
  {
    if c in PortChains(ports[0]) {
      PortChainKinds(ports[0]);
    } else {
      TailIsGood(ports);
      DispatchNotPortChain(ports[1..], c);
    }
  }
}
