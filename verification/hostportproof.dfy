/** The restore input written by Add and Remove produces the tables described in Hostport,
    whatever order the chains were saved and written in. */
module HostportProof {
  import opened Options
  import opened Sequences
  import opened Text
  import opened Iptables
  import opened Hostport

  lemma HostportInitial(c: Chain)
    requires IsHostport(c)
    ensures c != "" && (c[0] == 'K' || c[0] == 'C')
  {
    assert KUBE_HP_PREFIX[0] == 'K' && CRIO_MASQ_PREFIX[0] == 'C';
    assert HasPrefix(c, KUBE_HP_PREFIX) ==> c[..8][0] == 'K';
    assert HasPrefix(c, CRIO_MASQ_PREFIX) ==> c[..10][0] == 'C';
  }

  lemma HostportNotBuiltin(c: Chain)
    requires IsHostport(c)
    ensures c !in BUILTIN
  {
    HostportInitial(c);
    assert forall b :: b in BUILTIN ==> b[0] == 'P' || b[0] == 'I' || b[0] == 'O';
  }

  lemma PortChainKinds(p: Port)
    requires GoodPort(p)
    ensures IsHostport(p.hp) && IsHostport(p.masq) && p.hp != p.masq
    ensures p.hp != KUBE_HOSTPORTS && p.hp != CRIO_HOSTPORTS_MASQ
    ensures p.masq != KUBE_HOSTPORTS && p.masq != CRIO_HOSTPORTS_MASQ
  {
    assert p.hp[..8][6] == 'P' && p.hp[..8][0] == 'K';
    assert p.masq[..10][0] == 'C' && p.masq[..10][5] == 'M';
    assert KUBE_HOSTPORTS[6] == 'O' && CRIO_HOSTPORTS_MASQ[5] == 'H';
  }

  // ---- segments of the restore input ----

  lemma {:induction false} ChainLinesEffect(o: Option<seq<Rule>>, chains: seq<Chain>, c: Chain, flush: bool)
    ensures Effects(o, ChainLines(chains), c, flush) ==
            if c in chains then Some(if flush then [] else RulesOf(o)) else o
    decreases |chains|
  {
    if chains != [] {
      var o' := Effect(o, ChainLine(chains[0]), c, flush);
      assert ChainLines(chains)[1..] == ChainLines(chains[1..]);
      ChainLinesEffect(o', chains[1..], c, flush);
    }
  }

  lemma {:induction false} DeleteLinesEffect(o: Option<seq<Rule>>, chains: seq<Chain>, c: Chain, flush: bool)
    ensures Effects(o, DeleteLines(chains), c, flush) == if c in chains then None else o
    decreases |chains|
  {
    if chains != [] {
      assert DeleteLines(chains)[1..] == DeleteLines(chains[1..]);
      DeleteLinesEffect(Effect(o, Delete(chains[0]), c, flush), chains[1..], c, flush);
    }
  }

  lemma {:induction false} BlockEffect(x: seq<Rule>, rules: seq<Rule>, c: Chain, flush: bool)
    ensures Effects(Some(x), Block(c, rules), c, flush) == Some(AppendAll(x, rules))
    decreases |rules|
  {
    if rules != [] {
      assert Block(c, rules)[1..] == Block(c, rules[1..]);
      BlockEffect(Appended(x, rules[0]), rules[1..], c, flush);
    }
  }

  lemma {:induction false} KeptBlock(c: Chain, rules: seq<Rule>, filters: seq<Chain>)
    ensures KeptLines(Block(c, rules), filters) == Block(c, KeptRules(c, rules, filters))
  {
    if rules != [] {
      assert Block(c, rules)[1..] == Block(c, rules[1..]);
      KeptBlock(c, rules[1..], filters);
    }
  }

  lemma {:induction false} KeptConcat(a: seq<Line>, b: seq<Line>, filters: seq<Chain>)
    ensures KeptLines(a + b, filters) == KeptLines(a, filters) + KeptLines(b, filters)
  {
    if a == [] {
      assert a + b == b;
    } else {
      assert (a + b)[1..] == a[1..] + b;
      KeptConcat(a[1..], b, filters);
    }
  }

  /** The saved rules, filtered and appended again, chain by chain. */
  lemma {:induction false} ExistingEffect(o: Option<seq<Rule>>, t: Table, order: seq<Chain>, filters: seq<Chain>, c: Chain, flush: bool)
    requires NoDuplicates(order)
    ensures Effects(o, KeptLines(Existing(t, order), filters), c, flush) ==
            if c in order && IsHostport(c) && KeptRules(c, RulesAt(t, c), filters) != []
            then Some(AppendAll(RulesOf(o), KeptRules(c, RulesAt(t, c), filters))) else o
    decreases |order|
  {
    if order != [] {
      var head := if IsHostport(order[0]) then Block(order[0], RulesAt(t, order[0])) else [];
      var kept := KeptRules(order[0], RulesAt(t, order[0]), filters);
      KeptConcat(head, Existing(t, order[1..]), filters);
      KeptBlock(order[0], RulesAt(t, order[0]), filters);
      EffectsConcat(o, KeptLines(head, filters), KeptLines(Existing(t, order[1..]), filters), c, flush);
      ExistingEffect(Effects(o, KeptLines(head, filters), c, flush), t, order[1..], filters, c, flush);
      if order[0] != c {
        EffectsElsewhere(o, KeptLines(head, filters), c, flush);
      } else if kept != [] && IsHostport(c) {
        BlockAnew(o, kept, c, flush);
      }
    }
  }

  /** Appending to an absent chain is appending to an empty one. */
  lemma {:induction false} BlockAnew(o: Option<seq<Rule>>, rules: seq<Rule>, c: Chain, flush: bool)
    requires rules != []
    ensures Effects(o, Block(c, rules), c, flush) == Some(AppendAll(RulesOf(o), rules))
  {
    assert Block(c, rules)[1..] == Block(c, rules[1..]);
    BlockEffect(Appended(RulesOf(o), rules[0]), rules[1..], c, flush);
  }

  lemma {:induction false} LinesConcern(ports: seq<Port>, l: Line)
    requires forall p :: p in ports ==> GoodPort(p)
    requires l in LinesOf(ports)
    ensures (l.Append? || l.Insert?) && IsHostport(l.chain)
    ensures l.chain in ChainsOf(ports) || l.chain == KUBE_HOSTPORTS || l.chain == CRIO_HOSTPORTS_MASQ
  {
    assert ports[0] in ports;
    PortChainKinds(ports[0]);
    if l !in PortLines(ports[0]) {
      LinesConcern(ports[1..], l);
    }
  }

  /** The pod's own lines never remove a chain, and do not depend on flushing. */
  lemma {:induction false} LinesKeepSome(x: seq<Rule>, lines: seq<Line>, c: Chain, flush: bool)
    requires forall l :: l in lines ==> l.Append? || l.Insert?
    ensures Effects(Some(x), lines, c, flush).Some?
    ensures Effects(Some(x), lines, c, flush) == Effects(Some(x), lines, c, true)
    decreases |lines|
  {
    if lines != [] {
      assert lines[0] in lines;
      var o := Effect(Some(x), lines[0], c, flush);
      LinesKeepSome(o.value, lines[1..], c, flush);
    }
  }

  lemma {:induction false} ChainsAreHostport(ports: seq<Port>, c: Chain)
    requires forall p :: p in ports ==> GoodPort(p)
    requires c in ChainsOf(ports)
    ensures IsHostport(c) && c != KUBE_HOSTPORTS && c != CRIO_HOSTPORTS_MASQ
  {
    assert ports[0] in ports;
    PortChainKinds(ports[0]);
    if c !in PortChains(ports[0]) {
      ChainsAreHostport(ports[1..], c);
    }
  }

  // ---- Add ----

  lemma {:induction false} Segments(o: Option<seq<Rule>>, a: seq<Line>, b: seq<Line>, k: seq<Line>, c: Chain, flush: bool)
    ensures Effects(o, a + b + k + [Commit], c, flush) ==
            Effects(Effects(Effects(o, a, c, flush), b, c, flush), k, c, flush)
  {
    EffectsConcat(o, a + b + k, [Commit], c, flush);
    EffectsConcat(o, a + b, k, c, flush);
    EffectsConcat(o, a, b, c, flush);
    CommitEffect(Effects(o, a + b + k, c, flush), c, flush);
  }

  lemma {:induction false} AddedLook(t: Table, ports: seq<Port>, c: Chain)
    requires forall p :: p in ports ==> GoodPort(p)
    ensures Look(AddedTable(t, ports), c) ==
            if IsHostport(c) && (c in t || c in ChainsOf(ports))
            then Some(AppendAll(Fresh(ports, c), KeptRules(c, RulesAt(t, c), ChainsOf(ports)))) else Look(t, c)
  {
    if c in ChainsOf(ports) {
      ChainsAreHostport(ports, c);
    }
  }

  lemma {:induction false} AddEffect(t: Table, ports: seq<Port>, order: seq<Chain>, rest: seq<Chain>, c: Chain, flush: bool)
    requires forall p :: p in ports ==> GoodPort(p)
    requires KUBE_HOSTPORTS in t && CRIO_HOSTPORTS_MASQ in t
    requires Enumerates(order, t.Keys)
    requires Enumerates(rest, HostportChains(t) - set c | c in ChainsOf(ports))
    requires IsHostport(c) ==> flush
    ensures Effects(Look(t, c), AddLines(t, ports, order, rest), c, flush) == Look(AddedTable(t, ports), c)
  {
    var kept := KeptLines(Existing(t, order), ChainsOf(ports));
    var a := [TableLine] + ChainLines(ChainsOf(ports)) + ChainLines(rest);
    Segments(Look(t, c), a, LinesOf(ports), kept, c, flush);
    HeadEffect(Look(t, c), ChainsOf(ports), rest, c, flush);
    AddMiddle(t, ports, rest, Effects(Look(t, c), a, c, flush), c, flush);
    ExistingEffect(Effects(Effects(Look(t, c), a, c, flush), LinesOf(ports), c, flush), t, order, ChainsOf(ports), c, flush);
    AddedLook(t, ports, c);
    assert c !in order ==> RulesAt(t, c) == [];
  }

  lemma {:induction false} CommitEffect(o: Option<seq<Rule>>, c: Chain, flush: bool)
    ensures Effects(o, [Commit], c, flush) == o
  {
    EffectsElsewhere(o, [Commit], c, flush);
  }

  lemma {:induction false} HeadEffect(o: Option<seq<Rule>>, a: seq<Chain>, b: seq<Chain>, c: Chain, flush: bool)
    ensures Effects(o, [TableLine] + ChainLines(a) + ChainLines(b), c, flush) ==
            if c in a || c in b then Some(if flush then [] else RulesOf(o)) else o
  {
    EffectsConcat(o, [TableLine] + ChainLines(a), ChainLines(b), c, flush);
    EffectsConcat(o, [TableLine], ChainLines(a), c, flush);
    EffectsElsewhere(o, [TableLine], c, flush);
    ChainLinesEffect(o, a, c, flush);
    ChainLinesEffect(Effects(o, ChainLines(a), c, flush), b, c, flush);
  }

  lemma {:induction false} AddMiddle(t: Table, ports: seq<Port>, rest: seq<Chain>, o: Option<seq<Rule>>, c: Chain, flush: bool)
    requires forall p :: p in ports ==> GoodPort(p)
    requires KUBE_HOSTPORTS in t && CRIO_HOSTPORTS_MASQ in t
    requires Enumerates(rest, HostportChains(t) - set c | c in ChainsOf(ports))
    requires IsHostport(c) ==> flush
    requires o == if c in ChainsOf(ports) || c in rest then Some(if flush then [] else RulesOf(Look(t, c))) else Look(t, c)
    ensures Effects(o, LinesOf(ports), c, flush) ==
            if IsHostport(c) && (c in t || c in ChainsOf(ports)) then Some(Fresh(ports, c)) else Look(t, c)
  {
    forall l | l in LinesOf(ports)
      ensures (l.Append? || l.Insert?) && IsHostport(l.chain)
      ensures l.chain in ChainsOf(ports) || l.chain == KUBE_HOSTPORTS || l.chain == CRIO_HOSTPORTS_MASQ
    {
      LinesConcern(ports, l);
    }
    if IsHostport(c) && (c in t || c in ChainsOf(ports)) {
      assert c in HostportChains(t) || c in ChainsOf(ports);
      LinesKeepSome([], LinesOf(ports), c, flush);
    } else {
      if c in ChainsOf(ports) {
        ChainsAreHostport(ports, c);
      }
      assert c !in rest;
      EffectsElsewhere(o, LinesOf(ports), c, flush);
    }
  }

  lemma {:induction false} KeptAreExisting(lines: seq<Line>, filters: seq<Chain>, l: Line)
    requires l in KeptLines(lines, filters)
    ensures l in lines
  {
    if l != lines[0] {
      KeptAreExisting(lines[1..], filters, l);
    }
  }

  lemma {:induction false} ExistingAppends(t: Table, order: seq<Chain>, l: Line)
    requires l in Existing(t, order)
    ensures l.Append?
  {
    var head := if IsHostport(order[0]) then Block(order[0], RulesAt(t, order[0])) else [];
    if l !in head {
      ExistingAppends(t, order[1..], l);
    }
  }

  lemma AddDeletesNothing(t: Table, ports: seq<Port>, order: seq<Chain>, rest: seq<Chain>)
    requires forall p :: p in ports ==> GoodPort(p)
    ensures forall l :: l in AddLines(t, ports, order, rest) ==> !l.Delete?
    ensures forall c :: IsHostport(c) ==> Flushes(c, AddLines(t, ports, order, rest))
  {
    var all := AddLines(t, ports, order, rest);
    forall l | l in all
      ensures !l.Delete?
    {
      if l in LinesOf(ports) {
        LinesConcern(ports, l);
      } else if l in KeptLines(Existing(t, order), ChainsOf(ports)) {
        KeptAreExisting(Existing(t, order), ChainsOf(ports), l);
        ExistingAppends(t, order, l);
      }
    }
    forall c | IsHostport(c)
      ensures Flushes(c, all)
    {
      HostportNotBuiltin(c);
    }
  }

  /** Add never fails, and the table it leaves does not depend on any iteration order. */
  lemma {:induction false} AddProducesTable(t: Table, ports: seq<Port>, order: seq<Chain>, rest: seq<Chain>)
    requires forall p :: p in ports ==> GoodPort(p)
    requires KUBE_HOSTPORTS in t && CRIO_HOSTPORTS_MASQ in t
    requires Enumerates(order, t.Keys)
    requires Enumerates(rest, HostportChains(t) - set c | c in ChainsOf(ports))
    ensures var all := AddLines(t, ports, order, rest);
            RestoreLines(t, all, all) == (AddedTable(t, ports), true)
  {
    var all := AddLines(t, ports, order, rest);
    AddDeletesNothing(t, ports, order, rest);
    RestoreSucceeds(t, all, all);
    forall c
      ensures Look(RestoreLines(t, all, all).0, c) == Look(AddedTable(t, ports), c)
    {
      RestoreByChain(t, all, all, c);
      AddEffect(t, ports, order, rest, c, Flushes(c, all));
    }
    SameLooks(RestoreLines(t, all, all).0, AddedTable(t, ports));
  }

  // ---- Remove ----

  lemma {:induction false} RemoveKeptEffect(t: Table, ports: seq<Port>, order: seq<Chain>, rest: seq<Chain>, gone: seq<Chain>, c: Chain, flush: bool)
    requires Enumerates(order, t.Keys) && Enumerates(rest, HostportChains(t))
    requires forall c :: c in gone <==> c in ChainsOf(ports) && c in t
    requires IsHostport(c) && c !in gone ==> flush
    ensures Effects(Look(t, c), RemoveLines(t, ports, order, rest, gone), c, flush) ==
            if c in gone then None
            else if IsHostport(c) && c in t then Some(AppendAll([], KeptRules(c, t[c], ChainsOf(ports))))
            else Look(t, c)
  {
    var kept := KeptLines(Existing(t, order), ChainsOf(ports));
    var a := [TableLine] + ChainLines([]) + ChainLines(rest);
    assert a == [TableLine] + ChainLines(rest);
    Segments(Look(t, c), a, kept, DeleteLines(gone), c, flush);
    HeadEffect(Look(t, c), [], rest, c, flush);
    ExistingEffect(Effects(Look(t, c), a, c, flush), t, order, ChainsOf(ports), c, flush);
    DeleteLinesEffect(Effects(Effects(Look(t, c), a, c, flush), kept, c, flush), gone, c, flush);
    assert c in t && IsHostport(c) <==> c in rest;
  }

  /** Deleting a list of chains works exactly when each exists and none is named twice. */
  lemma {:induction false} DeletesSucceed(t: Table, gone: seq<Chain>, all: seq<Line>)
    ensures RestoreLines(t, DeleteLines(gone) + [Commit], all).1 <==>
            (forall c :: c in gone ==> c in t) && NoDuplicates(gone)
    decreases |gone|
  {
    var lines := DeleteLines(gone) + [Commit];
    if gone == [] {
      assert lines == [Commit];
      assert RestoreLines(t, lines[1..], all).1;
    } else {
      var first, rest := gone[0], gone[1..];
      assert lines == [Delete(first)] + (DeleteLines(rest) + [Commit]);
      assert gone == [first] + rest;
      DeleteFirst(t, first, DeleteLines(rest) + [Commit], all);
      DeletesSucceed(t - {first}, rest, all);
      NoDuplicatesCons(first, rest);
    }
  }

  lemma {:induction false} DeleteFirst(t: Table, c: Chain, rest: seq<Line>, all: seq<Line>)
    ensures RestoreLines(t, [Delete(c)] + rest, all).1 <==> c in t && RestoreLines(t - {c}, rest, all).1
  {
    assert ([Delete(c)] + rest)[1..] == rest;
  }

  lemma {:induction false} BeforeDeletes(t: Table, ports: seq<Port>, order: seq<Chain>, rest: seq<Chain>, all: seq<Line>)
    ensures forall l :: l in [TableLine] + ChainLines(rest) + KeptLines(Existing(t, order), ChainsOf(ports)) ==> !l.Delete?
    ensures RestoreLines(t, [TableLine] + ChainLines(rest) + KeptLines(Existing(t, order), ChainsOf(ports)), all).1
  {
    var head := [TableLine] + ChainLines(rest) + KeptLines(Existing(t, order), ChainsOf(ports));
    forall l | l in head
      ensures !l.Delete?
    {
      if l in KeptLines(Existing(t, order), ChainsOf(ports)) {
        KeptAreExisting(Existing(t, order), ChainsOf(ports), l);
        ExistingAppends(t, order, l);
      }
    }
    RestoreSucceeds(t, head, all);
  }

  /** Those of the pod's chains that the save shows, in the order of the pod's ports. */
  function Present(chains: seq<Chain>, t: Table): seq<Chain> {
    if chains == [] then [] else (if chains[0] in t then [chains[0]] else []) + Present(chains[1..], t)
  }

  lemma {:induction false} PresentAre(chains: seq<Chain>, t: Table)
    ensures forall c :: c in Present(chains, t) <==> c in chains && c in t
    ensures NoDuplicates(chains) ==> NoDuplicates(Present(chains, t))
  {
    if chains != [] {
      PresentAre(chains[1..], t);
      assert chains == [chains[0]] + chains[1..];
      NoDuplicatesCons(chains[0], chains[1..]);
      NoDuplicatesCons(chains[0], Present(chains[1..], t));
      assert [] + Present(chains[1..], t) == Present(chains[1..], t);
    }
  }

  lemma {:induction false} ChainsSurviveHead(t: Table, ports: seq<Port>, order: seq<Chain>, rest: seq<Chain>, all: seq<Line>, c: Chain)
    requires c in t && Enumerates(order, t.Keys)
    ensures c in RestoreLines(t, [TableLine] + ChainLines(rest) + KeptLines(Existing(t, order), ChainsOf(ports)), all).0
  {
    var kept := KeptLines(Existing(t, order), ChainsOf(ports));
    var head := [TableLine] + ChainLines(rest) + kept;
    var flush := Flushes(c, all);
    BeforeDeletes(t, ports, order, rest, all);
    RestoreByChain(t, head, all, c);
    EffectsConcat(Look(t, c), [TableLine] + ChainLines(rest), kept, c, flush);
    assert [TableLine] + ChainLines([]) + ChainLines(rest) == [TableLine] + ChainLines(rest);
    HeadEffect(Look(t, c), [], rest, c, flush);
    ExistingEffect(Effects(Look(t, c), [TableLine] + ChainLines(rest), c, flush), t, order, ChainsOf(ports), c, flush);
  }

  /** Remove succeeds exactly when no existing chain of the pod is listed twice, and then
      leaves a table that does not depend on any iteration order. */
  lemma {:induction false} RemoveProducesTable(t: Table, ports: seq<Port>, order: seq<Chain>, rest: seq<Chain>)
    requires Enumerates(order, t.Keys) && Enumerates(rest, HostportChains(t))
    ensures var gone := Present(ChainsOf(ports), t);
            var all := RemoveLines(t, ports, order, rest, gone);
            && (RestoreLines(t, all, all).1 <==> NoDuplicates(gone))
            && (NoDuplicates(gone) ==> RestoreLines(t, all, all).0 == RemovedTable(t, ports))
  {
    var gone := Present(ChainsOf(ports), t);
    var all := RemoveLines(t, ports, order, rest, gone);
    PresentAre(ChainsOf(ports), t);
    var head := [TableLine] + ChainLines(rest) + KeptLines(Existing(t, order), ChainsOf(ports));
    BeforeDeletes(t, ports, order, rest, all);
    assert all == head + (DeleteLines(gone) + [Commit]);
    RestoreConcat(t, head, DeleteLines(gone) + [Commit], all);
    DeletesSucceed(RestoreLines(t, head, all).0, gone, all);
    forall c | c in gone
      ensures c in RestoreLines(t, head, all).0
    {
      ChainsSurviveHead(t, ports, order, rest, all, c);
    }
    if NoDuplicates(gone) {
      forall c
        ensures Look(RestoreLines(t, all, all).0, c) == Look(RemovedTable(t, ports), c)
      {
        RestoreByChain(t, all, all, c);
        RemoveFlushes(t, ports, order, rest, c);
        RemoveKeptEffect(t, ports, order, rest, gone, c, Flushes(c, all));
      }
      SameLooks(RestoreLines(t, all, all).0, RemovedTable(t, ports));
    }
  }

  lemma {:induction false} RemoveFlushes(t: Table, ports: seq<Port>, order: seq<Chain>, rest: seq<Chain>, c: Chain)
    ensures var gone := Present(ChainsOf(ports), t);
            IsHostport(c) && c !in gone ==> Flushes(c, RemoveLines(t, ports, order, rest, gone))
  {
    var gone := Present(ChainsOf(ports), t);
    var all := RemoveLines(t, ports, order, rest, gone);
    BeforeDeletes(t, ports, order, rest, all);
    if IsHostport(c) && c !in gone {
      HostportNotBuiltin(c);
      var head := [TableLine] + ChainLines(rest) + KeptLines(Existing(t, order), ChainsOf(ports));
      assert all == head + DeleteLines(gone) + [Commit];
      assert Delete(c) !in DeleteLines(gone);
    }
  }

  lemma {:induction false} KeptRulesSilent(c: Chain, rules: seq<Rule>, f: seq<Chain>, r: Rule)
    requires r in AppendAll([], KeptRules(c, rules, f))
    ensures !Mentions(c, r, f)
  {
    AppendAllFrom([], KeptRules(c, rules, f), r);
    KeptRuleSilent(c, rules, f, r);
  }

  lemma {:induction false} AppendAllFrom(x: seq<Rule>, y: seq<Rule>, r: Rule)
    requires r in AppendAll(x, y)
    ensures r in x || r in y
    decreases |y|
  {
    if y != [] {
      AppendAllFrom(Appended(x, y[0]), y[1..], r);
    }
  }

  lemma {:induction false} KeptRuleSilent(c: Chain, rules: seq<Rule>, f: seq<Chain>, r: Rule)
    requires r in KeptRules(c, rules, f)
    ensures !Mentions(c, r, f)
  {
    if r in KeptRules(c, rules[1..], f) {
      KeptRuleSilent(c, rules[1..], f, r);
    }
  }
}
