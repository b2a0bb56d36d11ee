/** What Remove leaves at each stage: the table when its first deletion comes, and the table when
    a deletion fails. */
module HostportRemove {
  import opened Sequences
  import opened Iptables
  import opened Hostport
  import opened HostportProof
  import opened HostportUndo

  /** The table just before the deletions: the pod's chains as they were, the other hostport
      chains without the rules that mention them. */
  ghost function AtDelete(t: Table, ports: seq<Port>): Table {
    map c | c in t ::
      if IsHostport(c) && c !in ChainsOf(ports) then AppendAll([], KeptRules(c, t[c], ChainsOf(ports))) else t[c]
  }

  lemma {:induction false} HeadLook(t: Table, ports: seq<Port>, order: seq<Chain>, rest: seq<Chain>, c: Chain, flush: bool)
    requires Enumerates(order, t.Keys) && Enumerates(rest, HostportChains(t))
    requires IsHostport(c) && c in t ==> (flush <==> c !in ChainsOf(ports))
    ensures Effects(Look(t, c), [TableLine] + ChainLines(rest) + KeptLines(Existing(t, order), ChainsOf(ports)), c, flush) ==
            Look(AtDelete(t, ports), c)
  {
    var f := ChainsOf(ports);
    var kept := KeptLines(Existing(t, order), f);
    EffectsConcat(Look(t, c), [TableLine] + ChainLines(rest), kept, c, flush);
    assert [TableLine] + ChainLines([]) + ChainLines(rest) == [TableLine] + ChainLines(rest);
    HeadEffect(Look(t, c), [], rest, c, flush);
    ExistingEffect(Effects(Look(t, c), [TableLine] + ChainLines(rest), c, flush), t, order, f, c, flush);
    if c in f {
      forall r | r in RulesAt(t, c)
        ensures Mentions(c, r, f)
      {
        OwnChainMentioned(c, r, f);
      }
      KeptNone(c, RulesAt(t, c), f);
    }
  }

  lemma {:induction false} HeadFlushes(t: Table, ports: seq<Port>, order: seq<Chain>, rest: seq<Chain>, c: Chain)
    requires IsHostport(c) && c in t
    ensures Flushes(c, RemoveLines(t, ports, order, rest, Present(ChainsOf(ports), t))) <==> c !in ChainsOf(ports)
  {
    var gone := Present(ChainsOf(ports), t);
    var all := RemoveLines(t, ports, order, rest, gone);
    PresentAre(ChainsOf(ports), t);
    RemoveFlushes(t, ports, order, rest, c);
    if c in gone {
      var k :| 0 <= k < |gone| && gone[k] == c;
      assert DeleteLines(gone)[k] == Delete(c);
      assert Delete(c) in DeleteLines(gone);
    }
  }

  /** Everything before the deletions succeeds and leaves AtDelete, whatever the orders. */
  lemma {:induction false} HeadLeaves(t: Table, ports: seq<Port>, order: seq<Chain>, rest: seq<Chain>)
    requires Enumerates(order, t.Keys) && Enumerates(rest, HostportChains(t))
    ensures var all := RemoveLines(t, ports, order, rest, Present(ChainsOf(ports), t));
            var head := [TableLine] + ChainLines(rest) + KeptLines(Existing(t, order), ChainsOf(ports));
            RestoreLines(t, head, all) == (AtDelete(t, ports), true)
  {
    var all := RemoveLines(t, ports, order, rest, Present(ChainsOf(ports), t));
    var head := [TableLine] + ChainLines(rest) + KeptLines(Existing(t, order), ChainsOf(ports));
    BeforeDeletes(t, ports, order, rest, all);
    forall c
      ensures Look(RestoreLines(t, head, all).0, c) == Look(AtDelete(t, ports), c)
    {
      RestoreByChain(t, head, all, c);
      if IsHostport(c) && c in t {
        HeadFlushes(t, ports, order, rest, c);
      }
      HeadLook(t, ports, order, rest, c, Flushes(c, all));
    }
    SameLooks(RestoreLines(t, head, all).0, AtDelete(t, ports));
  }

  // ---- deletions that fail ----

  /** How many deletions succeed: all, or those before the first of a chain that is not there. */
  function Deletable(gone: seq<Chain>, there: set<Chain>): (n: nat)
    ensures n <= |gone|
  {
    if gone == [] || gone[0] !in there then 0 else 1 + Deletable(gone[1..], there - {gone[0]})
  }

  /** Deleting stops at the first chain that is not there, or not any more. */
  lemma {:induction false} StopsAtMissing(gone: seq<Chain>, there: set<Chain>)
    ensures var n := Deletable(gone, there);
            NoDuplicates(gone[..n]) && (forall c :: c in gone[..n] ==> c in there) &&
            (n < |gone| ==> gone[n] in gone[..n] || gone[n] !in there)
    decreases |gone|
  {
    if gone != [] && gone[0] in there {
      var rest := gone[1..];
      var m := Deletable(rest, there - {gone[0]});
      StopsAtMissing(rest, there - {gone[0]});
      assert gone[..m + 1] == [gone[0]] + rest[..m];
      NoDuplicatesCons(gone[0], rest[..m]);
    }
  }

  /** With every chain there at first all are deleted exactly when none is named twice. */
  lemma {:induction false} DeletableAll(gone: seq<Chain>, there: set<Chain>)
    requires forall c :: c in gone ==> c in there
    ensures Deletable(gone, there) == |gone| <==> NoDuplicates(gone)
  {
    var n := Deletable(gone, there);
    StopsAtMissing(gone, there);
    assert gone[..|gone|] == gone;
    assert n < |gone| ==> gone[n] in gone && gone[n] in gone[..n];
  }

  ghost function Elements(s: seq<Chain>): set<Chain> {
    set c | c in s
  }

  lemma {:induction false} DeletesLeave(t: Table, gone: seq<Chain>, all: seq<Line>)
    ensures RestoreLines(t, DeleteLines(gone) + [Commit], all).0 == t - Elements(gone[..Deletable(gone, t.Keys)])
    decreases |gone|
  {
    var lines := DeleteLines(gone) + [Commit];
    if gone == [] {
      assert lines == [Commit];
      assert RestoreLines(t, lines[1..], all).0 == t;
      assert t - {} == t;
    } else {
      var first, rest := gone[0], gone[1..];
      assert lines[1..] == DeleteLines(rest) + [Commit];
      if first in t {
        DeletesLeave(t - {first}, rest, all);
        assert (t - {first}).Keys == t.Keys - {first};
        var m := Deletable(rest, t.Keys - {first});
        assert gone[..m + 1] == [first] + rest[..m];
        assert t - {first} - Elements(rest[..m]) == t - Elements(gone[..m + 1]);
      } else {
        assert t - Elements([]) == t;
      }
    }
  }

  /** What Remove leaves, failing or not. */
  ghost function RemoveLeaves(t: Table, ports: seq<Port>): Table {
    var gone := Present(ChainsOf(ports), t);
    if gone == [] then t else AtDelete(t, ports) - Elements(gone[..Deletable(gone, t.Keys)])
  }

  /** Remove leaves one table whatever the orders, also when it fails: then the chains before the
      first one named a second time are deleted and the others of the pod are as they were. */
  lemma {:induction false} RemoveLeavesTable(t: Table, ports: seq<Port>, order: seq<Chain>, rest: seq<Chain>)
    requires Enumerates(order, t.Keys) && Enumerates(rest, HostportChains(t)) && Present(ChainsOf(ports), t) != []
    ensures var all := RemoveLines(t, ports, order, rest, Present(ChainsOf(ports), t));
            RestoreLines(t, all, all).0 == RemoveLeaves(t, ports)
  {
    var gone := Present(ChainsOf(ports), t);
    var all := RemoveLines(t, ports, order, rest, gone);
    var head := [TableLine] + ChainLines(rest) + KeptLines(Existing(t, order), ChainsOf(ports));
    HeadLeaves(t, ports, order, rest);
    assert all == head + (DeleteLines(gone) + [Commit]);
    RestoreConcat(t, head, DeleteLines(gone) + [Commit], all);
    DeletesLeave(AtDelete(t, ports), gone, all);
    assert AtDelete(t, ports).Keys == t.Keys;
  }

  /** Where no chain is named twice that is the table without the pod. */
  lemma {:induction false} RemoveLeavesResult(t: Table, ports: seq<Port>)
    requires NoDuplicates(Present(ChainsOf(ports), t))
    ensures RemoveLeaves(t, ports) == RemoveResult(t, ports)
  {
    var gone := Present(ChainsOf(ports), t);
    PresentAre(ChainsOf(ports), t);
    DeletableAll(gone, t.Keys);
    assert gone[..|gone|] == gone;
    if gone != [] {
      assert gone[0] in gone;
      WithoutGone(t, ports, gone);
    }
  }

  lemma {:induction false} WithoutGone(t: Table, ports: seq<Port>, gone: seq<Chain>)
    requires forall c :: c in gone <==> c in ChainsOf(ports) && c in t
    ensures RemovedTable(t, ports) == AtDelete(t, ports) - Elements(gone)
  {
  }
}
