/** The NAT table and the restore language (internal/hostport/fake_iptables.go). A table maps
    each chain to its rules; rules are kept in iptables' normalised form. */
module Iptables {
  import opened Options
  import opened Sequences

  type Chain = string
  type Rule = string
  type Table = map<Chain, seq<Rule>>

  datatype Line =
    | TableLine
    | ChainLine(chain: Chain)
    | Append(chain: Chain, rule: Rule)
    | Insert(chain: Chain, rule: Rule)
    | Delete(chain: Chain)
    | Commit

  const BUILTIN: set<Chain> := {"PREROUTING", "INPUT", "OUTPUT", "POSTROUTING"}

  // ensureRule: a rule already present is not added again, wherever it stands.

  function Appended(rules: seq<Rule>, r: Rule): seq<Rule> {
    if r in rules then rules else rules + [r]
  }

  function Prepended(rules: seq<Rule>, r: Rule): seq<Rule> {
    if r in rules then rules else [r] + rules
  }

  function RulesAt(t: Table, c: Chain): seq<Rule> {
    if c in t then t[c] else []
  }

  /** A chain line creates the chain; it also flushes it unless it is built in or about to be
      deleted by the same input. */
  predicate Flushes(c: Chain, all: seq<Line>) {
    c !in BUILTIN && Delete(c) !in all
  }

  /** One line; the flag is false when a chain to delete does not exist. */
  function RestoreLine(t: Table, l: Line, all: seq<Line>): (Table, bool) {
    match l
    case TableLine | Commit => (t, true)
    case ChainLine(c) => (t[c := if Flushes(c, all) then [] else RulesAt(t, c)], true)
    case Append(c, r) => (t[c := Appended(RulesAt(t, c), r)], true)
    case Insert(c, r) => (t[c := Prepended(RulesAt(t, c), r)], true)
    case Delete(c) => if c in t then (t - {c}, true) else (t, false)
  }

  /** The lines in turn, stopping at the first that fails. */
  function RestoreLines(t: Table, lines: seq<Line>, all: seq<Line>): (Table, bool)
    decreases |lines|
  {
    if lines == [] then (t, true)
    else
      var (t', ok) := RestoreLine(t, lines[0], all);
      if ok then RestoreLines(t', lines[1..], all) else (t', false)
  }

  /** Where the rule first stands, or -1. */
  method FindRule(rules: seq<Rule>, rule: Rule) returns (i: int)
    ensures -1 <= i < |rules|
    ensures i >= 0 ==> rules[i] == rule && rule !in rules[..i]
    ensures i < 0 ==> rule !in rules
  {
    for k := 0 to |rules|
      invariant rule !in rules[..k]
    {
      if rules[k] == rule {
        return k;
      }
      assert rules[..k + 1] == rules[..k] + [rules[k]];
    }
    assert rules[..|rules|] == rules;
    return -1;
  }

  class FakeIPTables {
    var table: Table

    /** The chain is there afterwards, empty if it was not before; every other chain stays. */
    method EnsureChain(c: Chain) returns (existed: bool)
      modifies this
      ensures existed <==> c in old(table)
      ensures table.Keys == old(table).Keys + {c}
      ensures forall d :: d in old(table) ==> table[d] == old(table)[d]
      ensures !existed ==> table[c] == []
    {
      if c !in table {
        table := table[c := []];
        return false;
      }
      return true;
    }

    /** The rule is there afterwards, at the asked end if it was not before; the other rules of the
        chain keep their order, and every other chain stays. */
    method EnsureRule(prepend: bool, c: Chain, r: Rule) returns (existed: bool)
      modifies this
      ensures existed <==> r in RulesAt(old(table), c)
      ensures table.Keys == old(table).Keys + {c}
      ensures forall d :: d in old(table) && d != c ==> table[d] == old(table)[d]
      ensures table[c] == if prepend then Prepended(RulesAt(old(table), c), r) else Appended(RulesAt(old(table), c), r)
    {
      var known := EnsureChain(c);
      var at := FindRule(table[c], r);
      if at >= 0 {
        return true;
      }
      table := table[c := if prepend then [r] + table[c] else table[c] + [r]];
      return false;
    }

    method RestoreAll(lines: seq<Line>) returns (ok: bool)
      modifies this
      ensures (table, ok) == RestoreLines(old(table), lines, lines)
    {
      var i := 0;
      while i < |lines|
        invariant 0 <= i <= |lines|
        invariant RestoreLines(old(table), lines, lines) == RestoreLines(table, lines[i..], lines)
      {
        var l := lines[i];
        ghost var before := table;
        assert lines[i..][1..] == lines[i + 1..];
        match l {
          case TableLine =>
          case Commit =>
          case ChainLine(c) =>
            var existed := EnsureChain(c);
            if c !in BUILTIN && Delete(c) !in lines {
              table := table[c := []];
            }
          case Append(c, r) =>
            var existed := EnsureRule(false, c, r);
          case Insert(c, r) =>
            var existed := EnsureRule(true, c, r);
          case Delete(c) =>
            if c !in table {
              return false;
            }
            table := table - {c};
        }
        assert table == RestoreLine(before, l, lines).0;
        i := i + 1;
      }
      return true;
    }
  }

  // ---- no rule twice ----

  ghost predicate DistinctRules(t: Table) {
    forall c :: c in t ==> NoDuplicates(t[c])
  }

  lemma PutKeepsDistinct(rules: seq<Rule>, r: Rule)
    requires NoDuplicates(rules)
    ensures NoDuplicates(Appended(rules, r)) && NoDuplicates(Prepended(rules, r))
  {
    NoDuplicatesCons(r, rules);
    NoDuplicatesConcat(rules, [r]);
  }

  lemma RestoreLineKeepsDistinct(t: Table, l: Line, all: seq<Line>)
    requires DistinctRules(t)
    ensures DistinctRules(RestoreLine(t, l, all).0)
  {
    if l.Append? || l.Insert? {
      PutKeepsDistinct(RulesAt(t, l.chain), l.rule);
    }
  }

  /** Whatever is restored, no chain comes to hold a rule twice. */
  lemma {:induction false} RestoreKeepsDistinct(t: Table, lines: seq<Line>, all: seq<Line>)
    requires DistinctRules(t)
    ensures DistinctRules(RestoreLines(t, lines, all).0)
    decreases |lines|
  {
    if lines != [] {
      RestoreLineKeepsDistinct(t, lines[0], all);
      RestoreKeepsDistinct(RestoreLine(t, lines[0], all).0, lines[1..], all);
    }
  }

  // ---- what a restore does to one chain ----

  function Look(t: Table, c: Chain): Option<seq<Rule>> {
    if c in t then Some(t[c]) else None
  }

  lemma SameLooks(t: Table, u: Table)
    requires forall c :: Look(t, c) == Look(u, c)
    ensures t == u
  {
    forall c
      ensures c in t <==> c in u
      ensures c in t ==> t[c] == u[c]
    {
      assert Look(t, c) == Look(u, c);
    }
  }

  predicate Concerns(l: Line, c: Chain) {
    (l.ChainLine? || l.Append? || l.Insert? || l.Delete?) && l.chain == c
  }

  function RulesOf(o: Option<seq<Rule>>): seq<Rule> {
    if o.Some? then o.value else []
  }

  function Effect(o: Option<seq<Rule>>, l: Line, c: Chain, flush: bool): Option<seq<Rule>> {
    if !Concerns(l, c) then o
    else match l
      case ChainLine(_) => Some(if flush then [] else RulesOf(o))
      case Append(_, r) => Some(Appended(RulesOf(o), r))
      case Insert(_, r) => Some(Prepended(RulesOf(o), r))
      case Delete(_) => None
      case _ => o
  }

  function Effects(o: Option<seq<Rule>>, lines: seq<Line>, c: Chain, flush: bool): Option<seq<Rule>>
    decreases |lines|
  {
    if lines == [] then o else Effects(Effect(o, lines[0], c, flush), lines[1..], c, flush)
  }

  lemma {:induction false} EffectsConcat(o: Option<seq<Rule>>, a: seq<Line>, b: seq<Line>, c: Chain, flush: bool)
    ensures Effects(o, a + b, c, flush) == Effects(Effects(o, a, c, flush), b, c, flush)
    decreases |a|
  {
    if a == [] {
      assert a + b == b;
    } else {
      EffectsConcat(Effect(o, a[0], c, flush), a[1..], b, c, flush);
      assert (a + b)[1..] == a[1..] + b;
    }
  }

  /** Lines about other chains leave a chain alone. */
  lemma {:induction false} EffectsElsewhere(o: Option<seq<Rule>>, lines: seq<Line>, c: Chain, flush: bool)
    requires forall l :: l in lines ==> !Concerns(l, c)
    ensures Effects(o, lines, c, flush) == o
  {
    if lines != [] {
      assert lines[0] in lines;
      EffectsElsewhere(o, lines[1..], c, flush);
    }
  }

  lemma LineAt(t: Table, l: Line, all: seq<Line>, c: Chain)
    ensures Look(RestoreLine(t, l, all).0, c) == Effect(Look(t, c), l, c, Flushes(c, all))
  {
  }

  /** A restore acts on each chain separately. */
  lemma {:induction false} RestoreByChain(t: Table, lines: seq<Line>, all: seq<Line>, c: Chain)
    requires RestoreLines(t, lines, all).1
    ensures Look(RestoreLines(t, lines, all).0, c) == Effects(Look(t, c), lines, c, Flushes(c, all))
    decreases |lines|
  {
    if lines != [] {
      LineAt(t, lines[0], all, c);
      RestoreByChain(RestoreLine(t, lines[0], all).0, lines[1..], all, c);
    }
  }

  /** Without deletions a restore never fails. */
  lemma {:induction false} RestoreSucceeds(t: Table, lines: seq<Line>, all: seq<Line>)
    requires forall l :: l in lines ==> !l.Delete?
    ensures RestoreLines(t, lines, all).1
    decreases |lines|
  {
    if lines != [] {
      assert lines[0] in lines;
      RestoreSucceeds(RestoreLine(t, lines[0], all).0, lines[1..], all);
    }
  }

  lemma {:induction false} RestoreConcat(t: Table, a: seq<Line>, b: seq<Line>, all: seq<Line>)
    requires RestoreLines(t, a, all).1
    ensures RestoreLines(t, a + b, all) == RestoreLines(RestoreLines(t, a, all).0, b, all)
    decreases |a|
  {
    if a == [] {
      assert a + b == b;
    } else {
      RestoreConcat(RestoreLine(t, a[0], all).0, a[1..], b, all);
      assert (a + b)[1..] == a[1..] + b;
    }
  }
}
