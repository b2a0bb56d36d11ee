/** What a packet meets in the NAT table: rules are read word by word, without regard to who wrote
    them, and chains are walked the way the kernel walks them. */
module Packets {
  import opened Options
  import opened Sequences
  import opened Text
  import opened Iptables
  import opened RuleSyntax

  /** A packet as the rules see it: whether its destination is an address of the host, and whether its
      connection has had its destination translated, and from which port. */
  datatype Packet = Packet(
    protocol: string, family: Family, source: string, dest: string, port: int,
    local: bool, translated: bool, originally: int)

  /** How the walk through a chain ends: at its end, or at a rule that decides. */
  datatype Verdict = Passed | Returned | Accepted | Translated(to: string) | Masqueraded

  datatype Arg = Arg(option: string, value: string)

  // ---- reading a rule ----

  function Words(rule: string): seq<string> {
    if rule == "" then []
    else
      var end := ArgumentEnd(rule);
      if end <= 0 || end == |rule| then [rule] else [rule[..end]] + Words(rule[end + 1..])
  }

  /** Options and values take turns. */
  function Args(words: seq<string>): (r: seq<Arg>)
    ensures |r| == |words| / 2
  {
    seq(|words| / 2, i requires 0 <= i < |words| / 2 => Arg(words[2 * i], words[2 * i + 1]))
  }

  function Value(args: seq<Arg>, option: string): Option<string> {
    if args == [] then None else if args[0].option == option then Some(args[0].value) else Value(args[1..], option)
  }

  function Natural(s: string): int {
    if s == "" then 0 else Natural(s[..|s| - 1]) * 10 + (s[|s| - 1] as int - '0' as int)
  }

  function Number(s: string): int {
    if s != "" && s[0] == '-' then -Natural(s[1..]) else Natural(s)
  }

  /** An address with the length of a host's prefix. */
  function HostAddress(pk: Packet, address: string): string {
    address + if pk.family.IPv6? then "/128" else "/32"
  }

  predicate Admits(a: Arg, pk: Packet) {
    && (a.option == "-p" ==> a.value == pk.protocol)
    && (a.option == "--dport" ==> Number(a.value) == pk.port)
    && (a.option == "-s" ==> a.value == HostAddress(pk, pk.source))
    && (a.option == "-d" ==> a.value == HostAddress(pk, pk.dest))
    && (a.option == "--dst-type" ==> a.value == "LOCAL" && pk.local)
    && (a.option == "--ctstate" ==> a.value == "DNAT" && pk.translated)
    && (a.option == "--ctorigdstport" ==> pk.translated && Number(a.value) == pk.originally)
  }

  predicate Matches(args: seq<Arg>, pk: Packet) {
    forall a :: a in args ==> Admits(a, pk)
  }

  // ---- walking the chains ----

  function Meet(t: Table, rule: Rule, pk: Packet, depth: nat): Verdict
    decreases depth, 0
  {
    var args := Args(Words(rule));
    var target := Value(args, "-j");
    if !Matches(args, pk) || target.None? then Passed
    else if target.value == "DNAT" then
      var to := Value(args, "--to-destination");
      if to.Some? then Translated(to.value) else Passed
    else if target.value == "MASQUERADE" then Masqueraded
    else if target.value == "ACCEPT" then Accepted
    else if target.value == "RETURN" then Returned
    else if target.value in t && depth > 0 then
      var v := Walk(t, t[target.value], pk, depth - 1);
      if v.Returned? then Passed else v
    else Passed
  }

  /** Rule by rule until one decides. The depth bounds how far jumps are nested. */
  function Walk(t: Table, rules: seq<Rule>, pk: Packet, depth: nat): Verdict
    decreases depth, |rules| + 1
  {
    if rules == [] then Passed
    else
      var v := Meet(t, rules[0], pk, depth);
      if v.Passed? then Walk(t, rules[1..], pk, depth) else v
  }

  lemma {:induction false} WalkConcat(t: Table, a: seq<Rule>, b: seq<Rule>, pk: Packet, depth: nat)
    ensures Walk(t, a + b, pk, depth) == if Walk(t, a, pk, depth).Passed? then Walk(t, b, pk, depth) else Walk(t, a, pk, depth)
    decreases |a|
  {
    if a == [] {
      assert a + b == b;
    } else {
      assert (a + b)[1..] == a[1..] + b;
      WalkConcat(t, a[1..], b, pk, depth);
    }
  }

  /** Rules of known verdicts, walked from the last to the first. */
  lemma {:induction false} LastVerdict(t: Table, rules: seq<Rule>, verdicts: seq<Verdict>, pk: Packet, depth: nat, i: int)
    requires |rules| == |verdicts| && forall k :: 0 <= k < |rules| ==> Meet(t, rules[k], pk, depth) == verdicts[k]
    requires -1 <= i < |rules| && (i >= 0 ==> !verdicts[i].Passed?) && forall k :: i < k < |rules| ==> verdicts[k].Passed?
    ensures Walk(t, Reversed(rules), pk, depth) == if i >= 0 then verdicts[i] else Passed
    decreases |rules|
  {
    if rules != [] {
      var last := |rules| - 1;
      assert Reversed(rules) == [rules[last]] + Reversed(rules[..last]);
      assert Reversed(rules)[1..] == Reversed(rules[..last]);
      if i < last {
        LastVerdict(t, rules[..last], verdicts[..last], pk, depth, i);
      }
    }
  }

  // ---- what is written can be read ----

  lemma {:induction false} WordsOf(words: seq<string>)
    requires AllWords(words)
    ensures Words(Join(words)) == words
  {
    if words != [] {
      var w := words[0];
      if |words| == 1 {
        WordEnds(w, "");
        assert w + "" == w;
      } else {
        var rest := Join(words[1..]);
        WordEnds(w, " " + rest);
        assert Join(words) == w + (" " + rest);
        assert (w + (" " + rest))[..|w|] == w && (w + (" " + rest))[|w| + 1..] == rest;
        WordsOf(words[1..]);
      }
    }
  }

  lemma ArgsConcat(a: seq<string>, b: seq<string>)
    requires |a| % 2 == 0
    ensures Args(a + b) == Args(a) + Args(b)
  {
    forall i | 0 <= i < |a + b| / 2
      ensures Args(a + b)[i] == (Args(a) + Args(b))[i]
    {
      if i >= |a| / 2 {
        assert (a + b)[2 * i] == b[2 * (i - |a| / 2)] && (a + b)[2 * i + 1] == b[2 * (i - |a| / 2) + 1];
      }
    }
  }

  lemma {:induction false} ValueConcat(a: seq<Arg>, b: seq<Arg>, option: string)
    ensures Value(a + b, option) == if Value(a, option).Some? then Value(a, option) else Value(b, option)
  {
    if a == [] {
      assert a + b == b;
    } else {
      assert (a + b)[1..] == a[1..] + b;
      ValueConcat(a[1..], b, option);
    }
  }

  lemma MatchesConcat(a: seq<Arg>, b: seq<Arg>, pk: Packet)
    ensures Matches(a + b, pk) <==> Matches(a, pk) && Matches(b, pk)
  {
    assert forall x :: x in a + b <==> x in a || x in b;
  }

  lemma {:induction false} NaturalLonger(s: string, d: nat)
    requires d < 10
    ensures Natural(s + [Digit(d)]) == Natural(s) * 10 + d
  {
    assert (s + [Digit(d)])[..|s|] == s;
  }

  lemma {:induction false} NaturalOf(n: nat)
    ensures Natural(Itoa(n)) == n && Itoa(n) != "" && Itoa(n)[0] != '-'
  {
    if n >= 10 {
      NaturalOf(n / 10);
      NaturalLonger(Itoa(n / 10), n % 10);
    } else {
      NaturalLonger("", n);
    }
  }

  lemma {:induction false} NegativeOf(s: string)
    ensures Number("-" + s) == -Natural(s)
  {
    assert ("-" + s)[1..] == s;
  }

  /** A number written in decimal is read as that number. */
  lemma {:induction false} NumberOf(n: int)
    ensures Number(Itoa(n)) == n
  {
    if n < 0 {
      NaturalOf(-n);
      NegativeOf(Itoa(-n));
    } else {
      NaturalOf(n);
    }
  }
}
