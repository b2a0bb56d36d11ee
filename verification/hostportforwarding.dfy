/** Where packets go after any run of the hostport manager, from the chains the kernel starts in. */
module HostportForwarding {
  import opened Options
  import opened Text
  import opened Iptables
  import opened Hostport
  import opened HostportProof
  import opened HostportUndo
  import opened HostportRuns
  import opened HostportManager
  import opened HostportPods
  import opened HostportWords
  import opened RuleSyntax
  import opened Packets
  import opened HostportPackets

  // ---- the dispatch chains after a run ----

  lemma {:induction false} JoinedHas(each: seq<seq<Pod>>, k: nat, p: Pod)
    requires k < |each| && p in each[k]
    ensures p in Joined(each)
  {
    if k < |each| - 1 {
      JoinedHas(each[..|each| - 1], k, p);
    }
  }

  /** Every text the added pods put into a rule can be read back. */
  ghost predicate AllSpelled(family: string -> Family, digest: Digest, requests: seq<Request>) {
    forall k :: 0 <= k < |requests| && requests[k].AddFor? ==> Spelled(family, digest, requests[k].entry)
  }

  lemma {:induction false} StandingInPlace(digest: Digest, t: Table, requests: seq<Request>, k: nat)
    requires Startable(digest, t, requests) && Standing(requests, k)
    ensures AllInPlace(Exec(t, OpsOf(digest, requests)), digest, requests[k].entry)
  {
    LiveIsStanding(digest, requests);
    forall i | 0 <= i < |requests[k].entry.ms|
      ensures InPlace(Exec(t, OpsOf(digest, requests)), Ports(digest, requests[k].entry)[i])
    {
      JoinedHas(StandingPods(digest, requests), k, Ports(digest, requests[k].entry));
      ManagerDispatchIntact(digest, t, requests, k, i, KUBE_HOSTPORTS);
    }
  }

  /** A dispatch chain holds the jumps of the standing pods, newest first, before what was there. */
  lemma {:induction false} DispatchAfter(digest: Digest, t: Table, requests: seq<Request>, c: Chain)
    requires Startable(digest, t, requests) && IsDispatch(c)
    ensures RulesAt(Exec(t, OpsOf(digest, requests)), c) == LiveJumps(Joined(StandingPods(digest, requests)), c) + RulesAt(t, c)
  {
    var ops := OpsOf(digest, requests);
    var base, live := BaseAfter(t, ops), LiveAfter(ops);
    ClusterOrderly(digest, t, requests);
    RunIsOverlay(t, ops);
    LiveIsStanding(digest, requests);
    LiveAfterOk(ops);
    BaseOnlyAddsDispatch(t);
    assert RulesAt(base, c) == RulesAt(t, c);
    if c in base {
      OverlayAt(base, live, c);
    } else {
      OverlayNothing(base);
      assert [] + RulesAt(t, c) == RulesAt(t, c);
    }
  }

  /** The newest mapping that decides does, and a packet none decides goes on to what was there. */
  lemma {:induction false} DispatchVerdict(family: string -> Family, digest: Digest, t: Table, requests: seq<Request>, c: Chain, pk: Packet, depth: nat, k: int, i: int)
    requires Startable(digest, t, requests) && AllSpelled(family, digest, requests) && IsDispatch(c) && depth > 0 && !pk.family.NotIP?
    requires Newest(requests, c, pk, k, i)
    ensures var u := Exec(t, OpsOf(digest, requests));
            Walk(u, RulesAt(u, c), pk, depth) == if k >= 0 then Decision(requests[k].entry, i, c, pk) else Walk(u, RulesAt(t, c), pk, depth)
  {
    var u, n := Exec(t, OpsOf(digest, requests)), |requests|;
    forall m | 0 <= m < n && Standing(requests, m)
      ensures Spelled(family, digest, requests[m].entry) && AllInPlace(u, digest, requests[m].entry)
    {
      StandingInPlace(digest, t, requests, m);
    }
    ReadyDecide(family, digest, requests, c, u, pk, depth);
    StandingWalk(digest, requests, c, u, pk, depth, k, i);
    DispatchAfter(digest, t, requests, c);
    WalkConcat(u, LiveJumps(Joined(StandingPods(digest, requests)), c), RulesAt(t, c), pk, depth);
  }

  // ---- the jumps from the chains the kernel starts in ----

  lemma PortalsRead(pk: Packet)
    ensures AllWords(PORTALS_WORDS) && Reads(PORTALS_WORDS, pk, pk.local, Some(KUBE_HOSTPORTS), None)
  {
    var comment := "\"kube hostport portals\"";
    var a, b, c, d, e := ["-m", "comment"], ["--comment", comment], ["-m", "addrtype"], ["--dst-type", "LOCAL"], ["-j", KUBE_HOSTPORTS];
    OptionNames();
    IdleReads("-m", "comment", pk);
    IdleReads("--comment", comment, pk);
    IdleReads("-m", "addrtype", pk);
    PairReads("--dst-type", "LOCAL", pk);
    PairReads("-j", KUBE_HOSTPORTS, pk);
    ReadsConcat(a, b, pk, true, None, None, true, None, None);
    ReadsConcat(a + b, c, pk, true, None, None, true, None, None);
    ReadsConcat(a + b + c, d, pk, true, None, None, pk.local, None, None);
    ReadsConcat(a + b + c + d, e, pk, pk.local, None, None, true, Some(KUBE_HOSTPORTS), None);
    assert a + b + c + d + e == PORTALS_WORDS;
    PortalsAreWords();
  }

  lemma PortalsAreWords()
    ensures AllWords(PORTALS_WORDS)
  {
    assert IsQuoted("\"kube hostport portals\"");
    assert ' ' !in KUBE_HOSTPORTS;
  }

  lemma MasqueradingRead(pk: Packet)
    ensures AllWords(MASQ_WORDS) && Reads(MASQ_WORDS, pk, pk.translated, Some(CRIO_HOSTPORTS_MASQ), None)
  {
    var comment := "\"kube hostport masquerading\"";
    var a, b, c, d, e := ["-m", "comment"], ["--comment", comment], ["-m", "conntrack"], ["--ctstate", "DNAT"], ["-j", CRIO_HOSTPORTS_MASQ];
    OptionNames();
    IdleReads("-m", "comment", pk);
    IdleReads("--comment", comment, pk);
    IdleReads("-m", "conntrack", pk);
    PairReads("--ctstate", "DNAT", pk);
    PairReads("-j", CRIO_HOSTPORTS_MASQ, pk);
    ReadsConcat(a, b, pk, true, None, None, true, None, None);
    ReadsConcat(a + b, c, pk, true, None, None, true, None, None);
    ReadsConcat(a + b + c, d, pk, true, None, None, pk.translated, None, None);
    ReadsConcat(a + b + c + d, e, pk, pk.translated, None, None, true, Some(CRIO_HOSTPORTS_MASQ), None);
    assert a + b + c + d + e == MASQ_WORDS;
    MasqueradingAreWords();
  }

  lemma MasqueradingAreWords()
    ensures AllWords(MASQ_WORDS)
  {
    assert IsQuoted("\"kube hostport masquerading\"");
    assert ' ' !in CRIO_HOSTPORTS_MASQ;
  }

  /** What the manager adds to a chain the kernel starts in, and where it leads. */
  function BaseJump(c: Chain): Rule {
    if c == "POSTROUTING" then MASQ_JUMP else PORTALS_JUMP
  }

  function Dispatch(c: Chain): Chain {
    if c == "POSTROUTING" then CRIO_HOSTPORTS_MASQ else KUBE_HOSTPORTS
  }

  /** Packets for the host before routing and from the host itself; translated ones after routing. */
  predicate Enters(c: Chain, pk: Packet) {
    if c == "POSTROUTING" then pk.translated else pk.local
  }

  predicate IsEntry(c: Chain) {
    c == "PREROUTING" || c == "OUTPUT" || c == "POSTROUTING"
  }

  lemma {:induction false} BaseJumpMeets(t: Table, c: Chain, pk: Packet, depth: nat)
    requires IsEntry(c) && Dispatch(c) in t && depth > 0
    ensures var v := Walk(t, t[Dispatch(c)], pk, depth - 1);
            Meet(t, BaseJump(c), pk, depth) == if !Enters(c, pk) || v.Returned? then Passed else v
  {
    PrefixedNames(Dispatch(c));
    if c == "POSTROUTING" {
      MasqueradingRead(pk);
      JumpMeets(t, MASQ_WORDS, pk, depth, pk.translated, CRIO_HOSTPORTS_MASQ);
    } else {
      PortalsRead(pk);
      JumpMeets(t, PORTALS_WORDS, pk, depth, pk.local, KUBE_HOSTPORTS);
    }
  }

  /** The rules before a rule, and all but it. */
  function UpTo(rules: seq<Rule>, r: Rule): seq<Rule> {
    if rules == [] || rules[0] == r then [] else [rules[0]] + UpTo(rules[1..], r)
  }

  function Others(rules: seq<Rule>, r: Rule): seq<Rule> {
    if rules == [] then [] else (if rules[0] == r then [] else [rules[0]]) + Others(rules[1..], r)
  }

  lemma {:induction false} UpToAppended(rules: seq<Rule>, r: Rule)
    ensures UpTo(Appended(rules, r), r) == UpTo(rules, r) && Others(Appended(rules, r), r) == Others(rules, r)
  {
    if rules != [] && r !in rules {
      assert r !in rules[1..];
      UpToAppended(rules[1..], r);
      assert (rules + [r])[1..] == rules[1..] + [r];
    }
  }

  lemma {:induction false} WalkUpTo(t: Table, rules: seq<Rule>, r: Rule, pk: Packet, depth: nat)
    requires r in rules && Walk(t, UpTo(rules, r), pk, depth).Passed? && !Meet(t, r, pk, depth).Passed?
    ensures Walk(t, rules, pk, depth) == Meet(t, r, pk, depth)
    decreases |rules|
  {
    if rules[0] != r {
      assert UpTo(rules, r)[1..] == UpTo(rules[1..], r);
      WalkUpTo(t, rules[1..], r, pk, depth);
    }
  }

  lemma {:induction false} WalkOthers(t: Table, rules: seq<Rule>, r: Rule, pk: Packet, depth: nat)
    requires Meet(t, r, pk, depth).Passed?
    ensures Walk(t, rules, pk, depth) == Walk(t, Others(rules, r), pk, depth)
    decreases |rules|
  {
    if rules != [] {
      WalkOthers(t, rules[1..], r, pk, depth);
      if rules[0] != r {
        assert Others(rules, r)[1..] == Others(rules[1..], r);
      } else {
        assert Others(rules, r) == Others(rules[1..], r);
      }
    }
  }

  /** After a run with an Add the chains the kernel starts in have their jump and are otherwise as they
      were. */
  lemma {:induction false} EntryAfter(digest: Digest, t: Table, requests: seq<Request>, k: nat, c: Chain)
    requires Startable(digest, t, requests) && IsEntry(c) && k < |requests| && requests[k].AddFor? && requests[k].entry.ms != []
    ensures var u := Exec(t, OpsOf(digest, requests));
            c in u && u[c] == Appended(RulesAt(t, c), BaseJump(c)) && Dispatch(c) in u
  {
    var ops := OpsOf(digest, requests);
    var base, live := BaseAfter(t, ops), LiveAfter(ops);
    ClusterOrderly(digest, t, requests);
    RunIsOverlay(t, ops);
    assert ops[k].AddPod? && ops[k].pod != [];
    CompatibleLive(t, ops);
    forall q | q in live
      ensures GoodPod(q)
    {
      assert CleanFor(t, q);
    }
    EnsureBaseIdempotent(t);
    assert c in BUILTIN;
    NotHostport(c);
    OutsideUntouched(base, live, c);
    BaseAt(t, c);
  }

  lemma NotHostport(c: Chain)
    requires IsEntry(c)
    ensures !IsHostport(c)
  {
    if IsHostport(c) {
      HostportNotBuiltin(c);
    }
  }

  lemma BaseAt(t: Table, c: Chain)
    requires IsEntry(c)
    ensures c in EnsureBase(t) && EnsureBase(t)[c] == Appended(RulesAt(t, c), BaseJump(c))
  {
    assert KUBE_HOSTPORTS[0] == 'K' && CRIO_HOSTPORTS_MASQ[0] == 'C' && "OUTPUT"[0] == 'O' && "PREROUTING"[1] == 'R' && "POSTROUTING"[1] == 'O';
    assert "PREROUTING"[0] == 'P' && "POSTROUTING"[0] == 'P';
  }

  // ---- keys ----

  predicate Protocol(text: string) {
    text == "TCP" || text == "UDP" || text == "SCTP"
  }

  lemma {:induction false} NumberEnds(a: int, x: string, b: int, y: string)
    requires Itoa(a) + x == Itoa(b) + y && x != "" && y != "" && x[0] >= 'A' && y[0] >= 'A'
    ensures a == b && x == y
  {
    var m, n := Itoa(a), Itoa(b);
    if |m| < |n| {
      assert (m + x)[|m|] == x[0] && (n + y)[|m|] == n[|m|];
      ItoaPlain(b, n[|m|]);
    } else if |n| < |m| {
      assert (m + x)[|n|] == m[|n|] && (n + y)[|n|] == y[0];
      ItoaPlain(a, m[|n|]);
    } else {
      assert (m + x)[..|m|] == m && (n + y)[..|n|] == n;
      assert (m + x)[|m|..] == x && (n + y)[|n|..] == y;
      NumberOf(a);
      NumberOf(b);
    }
  }

  lemma ProtocolEnds(p: string, x: string, q: string, y: string)
    requires p + x == q + y && Protocol(p) && Protocol(q)
    ensures p == q && x == y
  {
    assert (p + x)[0] == p[0] && (q + y)[0] == q[0];
    assert "TCP"[0] == 'T' && "UDP"[0] == 'U' && "SCTP"[0] == 'S';
    assert (p + x)[|p|..] == x && (q + y)[|q|..] == y;
  }

  /** Mappings that differ in sandbox, host port, protocol or host address have different keys, so only
      the hash can make their chains collide. */
  lemma KeysDiffer(id: string, pm: PortMapping, other: string, pn: PortMapping)
    requires |id| == |other| && Protocol(pm.protocol) && Protocol(pn.protocol) && Key(id, pm) == Key(other, pn)
    ensures id == other && pm.hostPort == pn.hostPort && pm.protocol == pn.protocol && pm.hostIP == pn.hostIP
  {
    var x, y := pm.protocol + pm.hostIP, pn.protocol + pn.hostIP;
    assert Key(id, pm) == id + (Itoa(pm.hostPort) + x) && Key(other, pn) == other + (Itoa(pn.hostPort) + y);
    assert Key(id, pm)[..|id|] == id && Key(other, pn)[..|id|] == other;
    assert Key(id, pm)[|id|..] == Itoa(pm.hostPort) + x && Key(other, pn)[|id|..] == Itoa(pn.hostPort) + y;
    assert x[0] == pm.protocol[0] && y[0] == pn.protocol[0];
    NumberEnds(pm.hostPort, x, pn.hostPort, y);
    ProtocolEnds(pm.protocol, pm.hostIP, pn.protocol, pn.hostIP);
  }

  // ---- mappings as they are asked for ----

  /** The mapping is forwarded in the address family, and the packet is for it. */
  predicate Forwards(pm: PortMapping, ipv6: bool, pk: Packet) {
    pm.hostPort > 0 && (pm.hostIP == "" || (pm.hostFamily.IPv6? <==> ipv6)) && Serves(pm, pk)
  }

  /** The mapping is forwarded in the address family, and the packet was sent back to its pod. */
  predicate Returns(pod: PodPortMapping, pm: PortMapping, ipv6: bool, pk: Packet) {
    pm.hostPort > 0 && (pm.hostIP == "" || (pm.hostFamily.IPv6? <==> ipv6)) && Hairpin(pod, pm, pk)
  }

  /** The requests are those of one address family. */
  ghost predicate OfFamily(requests: seq<Request>, ipv6: bool) {
    forall k :: 0 <= k < |requests| && requests[k].AddFor? ==> requests[k].entry.ms == Gathered(requests[k].entry.pod.mappings, ipv6)
  }

  /** What is gathered is the mappings with a host port in the family, in their order. */
  lemma {:induction false} GatheredFrom(mappings: seq<PortMapping>, ipv6: bool, g: nat) returns (i: nat)
    requires g < |Gathered(mappings, ipv6)|
    ensures i < |mappings| && mappings[i] == Gathered(mappings, ipv6)[g] && |Gathered(mappings[..i], ipv6)| == g
    ensures mappings[i].hostPort > 0 && (mappings[i].hostIP == "" || (mappings[i].hostFamily.IPv6? <==> ipv6))
  {
    if Wanted(mappings[0], ipv6) && g == 0 {
      i := 0;
      assert mappings[..0] == [];
    } else {
      var j := GatheredFrom(mappings[1..], ipv6, if Wanted(mappings[0], ipv6) then g - 1 else g);
      i := j + 1;
      assert mappings[..i][1..] == mappings[1..][..j];
    }
  }

  lemma {:induction false} GatheredConcat(a: seq<PortMapping>, b: seq<PortMapping>, ipv6: bool)
    ensures Gathered(a + b, ipv6) == Gathered(a, ipv6) + Gathered(b, ipv6)
  {
    if a == [] {
      assert a + b == b;
    } else {
      assert (a + b)[1..] == a[1..] + b;
      GatheredConcat(a[1..], b, ipv6);
    }
  }

  lemma {:induction false} GatheredAt(mappings: seq<PortMapping>, ipv6: bool, i: nat) returns (g: nat)
    requires i < |mappings| && mappings[i].hostPort > 0 && (mappings[i].hostIP == "" || (mappings[i].hostFamily.IPv6? <==> ipv6))
    ensures g < |Gathered(mappings, ipv6)| && Gathered(mappings, ipv6)[g] == mappings[i]
    ensures Gathered(mappings, ipv6)[g + 1..] == Gathered(mappings[i + 1..], ipv6)
  {
    var before, after := mappings[..i], mappings[i..];
    assert mappings == before + after && after[1..] == mappings[i + 1..];
    GatheredConcat(before, after, ipv6);
    assert Gathered(after, ipv6) == [mappings[i]] + Gathered(mappings[i + 1..], ipv6);
    g := |Gathered(before, ipv6)|;
  }

  /** No mapping of a standing pod decides if none is for the packet. */
  lemma {:induction false} NoneForwards(requests: seq<Request>, ipv6: bool, pk: Packet, m: nat, j: nat)
    requires OfFamily(requests, ipv6) && Standing(requests, m) && j < |requests[m].entry.ms|
    requires forall pm :: pm in requests[m].entry.pod.mappings ==> !Forwards(pm, ipv6, pk)
    ensures Decision(requests[m].entry, j, KUBE_HOSTPORTS, pk).Passed?
  {
    var i := GatheredFrom(requests[m].entry.pod.mappings, ipv6, j);
    assert requests[m].entry.pod.mappings[i] in requests[m].entry.pod.mappings;
  }

  lemma {:induction false} NoneReturns(requests: seq<Request>, ipv6: bool, pk: Packet, m: nat, j: nat)
    requires OfFamily(requests, ipv6) && Standing(requests, m) && j < |requests[m].entry.ms|
    requires forall pm :: pm in requests[m].entry.pod.mappings ==> !Returns(requests[m].entry.pod, pm, ipv6, pk)
    ensures Decision(requests[m].entry, j, CRIO_HOSTPORTS_MASQ, pk).Passed?
  {
    var i := GatheredFrom(requests[m].entry.pod.mappings, ipv6, j);
    assert requests[m].entry.pod.mappings[i] in requests[m].entry.pod.mappings;
    assert CRIO_HOSTPORTS_MASQ != KUBE_HOSTPORTS;
  }

  lemma {:induction false} LastForwards(e: Entry, ipv6: bool, pk: Packet, i: nat) returns (g: nat)
    requires e.ms == Gathered(e.pod.mappings, ipv6) && i < |e.pod.mappings| && Forwards(e.pod.mappings[i], ipv6, pk)
    requires forall pm :: pm in e.pod.mappings[i + 1..] ==> !Forwards(pm, ipv6, pk)
    ensures g < |e.ms| && e.ms[g] == e.pod.mappings[i] && Last(e, KUBE_HOSTPORTS, pk, g)
  {
    g := GatheredAt(e.pod.mappings, ipv6, i);
    var later := e.pod.mappings[i + 1..];
    forall j | g < j < |e.ms|
      ensures Decision(e, j, KUBE_HOSTPORTS, pk).Passed?
    {
      assert e.ms[j] == e.ms[g + 1..][j - g - 1];
      var k := GatheredFrom(later, ipv6, j - g - 1);
      assert later[k] in later && later[k] == e.ms[j] && !Forwards(later[k], ipv6, pk);
    }
  }

  // ---- where packets go ----

  /** The manager's run, in one family, and a packet of that family. */
  ghost predicate Setting(family: string -> Family, digest: Digest, t: Table, requests: seq<Request>, ipv6: bool, pk: Packet) {
    && Startable(digest, t, requests) && AllSpelled(family, digest, requests) && OfFamily(requests, ipv6)
    && pk.family == if ipv6 then IPv6 else IPv4
  }

  /** Of the standing pods the one added last, and of its mappings the last, is the packet's. */
  ghost predicate Winner(requests: seq<Request>, ipv6: bool, pk: Packet, k: nat, i: nat) {
    && Standing(requests, k) && i < |requests[k].entry.pod.mappings|
    && Forwards(requests[k].entry.pod.mappings[i], ipv6, pk)
    && (forall pm :: pm in requests[k].entry.pod.mappings[i + 1..] ==> !Forwards(pm, ipv6, pk))
    && (forall m, pm :: k < m < |requests| && Standing(requests, m) && pm in requests[m].entry.pod.mappings ==> !Forwards(pm, ipv6, pk))
  }

  lemma {:induction false} WinnerIsNewest(requests: seq<Request>, ipv6: bool, pk: Packet, k: nat, i: nat) returns (g: nat)
    requires OfFamily(requests, ipv6) && Winner(requests, ipv6, pk, k, i)
    ensures g < |requests[k].entry.ms| && requests[k].entry.ms[g] == requests[k].entry.pod.mappings[i]
    ensures Newest(requests, KUBE_HOSTPORTS, pk, k, g)
  {
    g := LastForwards(requests[k].entry, ipv6, pk, i);
    forall m, j | k < m < |requests| && Standing(requests, m) && 0 <= j < |requests[m].entry.ms|
      ensures Decision(requests[m].entry, j, KUBE_HOSTPORTS, pk).Passed?
    {
      NoneForwards(requests, ipv6, pk, m, j);
    }
  }

  /** What the manager's chain decides is decided, if nothing before the jump to it is. */
  lemma {:induction false} Entered(u: Table, rules: seq<Rule>, c: Chain, pk: Packet, depth: nat, v: Verdict)
    requires IsEntry(c) && Enters(c, pk) && depth > 0 && c in u && u[c] == Appended(rules, BaseJump(c)) && Dispatch(c) in u
    requires Walk(u, UpTo(rules, BaseJump(c)), pk, depth).Passed?
    requires Walk(u, u[Dispatch(c)], pk, depth - 1) == v && !v.Passed? && !v.Returned?
    ensures Walk(u, u[c], pk, depth) == v
  {
    BaseJumpMeets(u, c, pk, depth);
    UpToAppended(rules, BaseJump(c));
    WalkUpTo(u, u[c], BaseJump(c), pk, depth);
  }

  lemma {:induction false} EntryVerdict(digest: Digest, t: Table, requests: seq<Request>, k: nat, c: Chain, pk: Packet, depth: nat, v: Verdict)
    requires Startable(digest, t, requests) && IsEntry(c) && Enters(c, pk) && depth > 0
    requires k < |requests| && requests[k].AddFor? && requests[k].entry.ms != [] && !v.Passed? && !v.Returned?
    requires var u := Exec(t, OpsOf(digest, requests));
             Walk(u, UpTo(RulesAt(t, c), BaseJump(c)), pk, depth).Passed? && Walk(u, RulesAt(u, Dispatch(c)), pk, depth - 1) == v
    ensures var u := Exec(t, OpsOf(digest, requests)); Walk(u, RulesAt(u, c), pk, depth) == v
  {
    EntryAfter(digest, t, requests, k, c);
    Entered(Exec(t, OpsOf(digest, requests)), RulesAt(t, c), c, pk, depth, v);
  }

  lemma {:induction false} WinnerVerdict(family: string -> Family, digest: Digest, t: Table, requests: seq<Request>, ipv6: bool,
      pk: Packet, depth: nat, k: nat, i: nat)
    requires Setting(family, digest, t, requests, ipv6, pk) && Winner(requests, ipv6, pk, k, i) && depth > 0
    ensures requests[k].AddFor? && requests[k].entry.ms != []
    ensures var u, e := Exec(t, OpsOf(digest, requests)), requests[k].entry;
            Walk(u, RulesAt(u, KUBE_HOSTPORTS), pk, depth) == Translated(Endpoint(e.pod.ip, e.pod.mappings[i].containerPort))
  {
    var g := WinnerIsNewest(requests, ipv6, pk, k, i);
    DispatchVerdict(family, digest, t, requests, KUBE_HOSTPORTS, pk, depth, k, g);
  }

  /** After any run of Adds and Removes a packet for a host port that is forwarded, arriving or sent by
      the host itself, leaves for the address of the pod and the container port of the mapping: the
      last added standing pod wins. Rules of others that stand before the manager's jump come first. */
  lemma {:induction false} PacketReachesPod(family: string -> Family, digest: Digest, t: Table, requests: seq<Request>, ipv6: bool,
      c: Chain, pk: Packet, depth: nat, k: nat, i: nat)
    requires Setting(family, digest, t, requests, ipv6, pk) && Winner(requests, ipv6, pk, k, i)
    requires (c == "PREROUTING" || c == "OUTPUT") && pk.local && depth >= 2
    requires Walk(Exec(t, OpsOf(digest, requests)), UpTo(RulesAt(t, c), PORTALS_JUMP), pk, depth).Passed?
    ensures var u, e := Exec(t, OpsOf(digest, requests)), requests[k].entry;
            Walk(u, RulesAt(u, c), pk, depth) == Translated(Endpoint(e.pod.ip, e.pod.mappings[i].containerPort))
  {
    var e := requests[k].entry;
    WinnerVerdict(family, digest, t, requests, ipv6, pk, depth - 1, k, i);
    EntryVerdict(digest, t, requests, k, c, pk, depth, Translated(Endpoint(e.pod.ip, e.pod.mappings[i].containerPort)));
  }

  lemma {:induction false} NoneVerdict(family: string -> Family, digest: Digest, t: Table, requests: seq<Request>, ipv6: bool, pk: Packet, depth: nat)
    requires Setting(family, digest, t, requests, ipv6, pk) && depth > 0
    requires forall m, pm :: 0 <= m < |requests| && Standing(requests, m) && pm in requests[m].entry.pod.mappings ==> !Forwards(pm, ipv6, pk)
    ensures var u := Exec(t, OpsOf(digest, requests));
            Walk(u, RulesAt(u, KUBE_HOSTPORTS), pk, depth) == Walk(u, RulesAt(t, KUBE_HOSTPORTS), pk, depth)
  {
    forall m, j | 0 <= m < |requests| && Standing(requests, m) && 0 <= j < |requests[m].entry.ms|
      ensures Decision(requests[m].entry, j, KUBE_HOSTPORTS, pk).Passed?
    {
      NoneForwards(requests, ipv6, pk, m, j);
    }
    DispatchVerdict(family, digest, t, requests, KUBE_HOSTPORTS, pk, depth, -1, 0);
  }

  /** A packet for no mapping of a standing pod, or not for the host, fares as if the manager's jump
      were not there, provided what stood in its chain before the manager came lets it pass. */
  lemma {:induction false} PacketLeftAlone(family: string -> Family, digest: Digest, t: Table, requests: seq<Request>, ipv6: bool,
      c: Chain, pk: Packet, depth: nat)
    requires Setting(family, digest, t, requests, ipv6, pk) && (c == "PREROUTING" || c == "OUTPUT") && depth >= 2
    requires pk.local ==> forall m, pm :: 0 <= m < |requests| && Standing(requests, m) && pm in requests[m].entry.pod.mappings ==> !Forwards(pm, ipv6, pk)
    requires Walk(Exec(t, OpsOf(digest, requests)), RulesAt(t, KUBE_HOSTPORTS), pk, depth - 1).Passed?
    ensures var u := Exec(t, OpsOf(digest, requests));
            Walk(u, RulesAt(u, c), pk, depth) == Walk(u, Others(RulesAt(u, c), PORTALS_JUMP), pk, depth)
  {
    var u := Exec(t, OpsOf(digest, requests));
    if pk.local {
      NoneVerdict(family, digest, t, requests, ipv6, pk, depth - 1);
    }
    BaseJumpPasses(u, c, pk, depth);
    WalkOthers(u, RulesAt(u, c), PORTALS_JUMP, pk, depth);
  }

  lemma {:induction false} BaseJumpPasses(t: Table, c: Chain, pk: Packet, depth: nat)
    requires IsEntry(c) && depth > 0 && (Enters(c, pk) ==> Walk(t, RulesAt(t, Dispatch(c)), pk, depth - 1).Passed?)
    ensures Meet(t, BaseJump(c), pk, depth).Passed?
  {
    if Dispatch(c) in t {
      BaseJumpMeets(t, c, pk, depth);
    } else {
      PrefixedNames(Dispatch(c));
      PortalsRead(pk);
      WordsOf(PORTALS_WORDS);
      MasqueradingRead(pk);
      WordsOf(MASQ_WORDS);
    }
  }

  // ---- packets on their way back into a pod ----

  lemma {:induction false} LastBelow(e: Entry, c: Chain, pk: Packet, n: nat) returns (i: int)
    requires n <= |e.ms| && forall j :: n <= j < |e.ms| ==> Decision(e, j, c, pk).Passed?
    ensures Last(e, c, pk, i) && i < n
    ensures (exists j :: 0 <= j < n && !Decision(e, j, c, pk).Passed?) ==> i >= 0
  {
    if n == 0 {
      i := -1;
    } else if !Decision(e, n - 1, c, pk).Passed? {
      i := n - 1;
    } else {
      i := LastBelow(e, c, pk, n - 1);
    }
  }

  /** If some standing pod decides there is a newest that does. */
  lemma {:induction false} NewestBelow(requests: seq<Request>, c: Chain, pk: Packet, n: nat, m: nat, j: nat) returns (k: int, i: int)
    requires n <= |requests| && NoneAfter(requests, c, pk, n - 1)
    requires m < n && Standing(requests, m) && j < |requests[m].entry.ms| && !Decision(requests[m].entry, j, c, pk).Passed?
    ensures k >= 0 && Newest(requests, c, pk, k, i)
  {
    var e := requests[n - 1].entry;
    i := LastBelow(e, c, pk, |e.ms|);
    if Standing(requests, n - 1) && i >= 0 {
      k := n - 1;
    } else {
      k, i := NewestBelow(requests, c, pk, n - 1, m, j);
    }
  }

  lemma {:induction false} HairpinVerdict(family: string -> Family, digest: Digest, t: Table, requests: seq<Request>, ipv6: bool,
      pk: Packet, depth: nat, m: nat, i: nat)
    requires Setting(family, digest, t, requests, ipv6, pk) && depth > 0
    requires Standing(requests, m) && i < |requests[m].entry.pod.mappings|
    requires Returns(requests[m].entry.pod, requests[m].entry.pod.mappings[i], ipv6, pk)
    ensures requests[m].AddFor? && requests[m].entry.ms != []
    ensures var u := Exec(t, OpsOf(digest, requests)); Walk(u, RulesAt(u, CRIO_HOSTPORTS_MASQ), pk, depth) == Masqueraded
  {
    var g := GatheredAt(requests[m].entry.pod.mappings, ipv6, i);
    assert CRIO_HOSTPORTS_MASQ != KUBE_HOSTPORTS;
    var k, j := NewestBelow(requests, CRIO_HOSTPORTS_MASQ, pk, |requests|, m, g);
    DispatchVerdict(family, digest, t, requests, CRIO_HOSTPORTS_MASQ, pk, depth, k, j);
  }

  /** After any run a packet a pod sends to its own host port, translated back to the pod, leaves with
      the host's address, whichever pods stand besides. */
  lemma {:induction false} HairpinMasqueraded(family: string -> Family, digest: Digest, t: Table, requests: seq<Request>, ipv6: bool,
      pk: Packet, depth: nat, m: nat, i: nat)
    requires Setting(family, digest, t, requests, ipv6, pk) && depth >= 2
    requires Standing(requests, m) && i < |requests[m].entry.pod.mappings|
    requires Returns(requests[m].entry.pod, requests[m].entry.pod.mappings[i], ipv6, pk)
    requires Walk(Exec(t, OpsOf(digest, requests)), UpTo(RulesAt(t, "POSTROUTING"), MASQ_JUMP), pk, depth).Passed?
    ensures var u := Exec(t, OpsOf(digest, requests)); Walk(u, RulesAt(u, "POSTROUTING"), pk, depth) == Masqueraded
  {
    HairpinVerdict(family, digest, t, requests, ipv6, pk, depth - 1, m, i);
    EntryVerdict(digest, t, requests, m, "POSTROUTING", pk, depth, Masqueraded);
  }

  lemma {:induction false} NoneSentBack(family: string -> Family, digest: Digest, t: Table, requests: seq<Request>, ipv6: bool, pk: Packet, depth: nat)
    requires Setting(family, digest, t, requests, ipv6, pk) && depth > 0
    requires forall m, pm :: 0 <= m < |requests| && Standing(requests, m) && pm in requests[m].entry.pod.mappings ==> !Returns(requests[m].entry.pod, pm, ipv6, pk)
    ensures var u := Exec(t, OpsOf(digest, requests));
            Walk(u, RulesAt(u, CRIO_HOSTPORTS_MASQ), pk, depth) == Walk(u, RulesAt(t, CRIO_HOSTPORTS_MASQ), pk, depth)
  {
    forall m, j | 0 <= m < |requests| && Standing(requests, m) && 0 <= j < |requests[m].entry.ms|
      ensures Decision(requests[m].entry, j, CRIO_HOSTPORTS_MASQ, pk).Passed?
    {
      NoneReturns(requests, ipv6, pk, m, j);
    }
    DispatchVerdict(family, digest, t, requests, CRIO_HOSTPORTS_MASQ, pk, depth, -1, 0);
  }

  /** Every other packet leaves with the address it has, as far as the manager is concerned. */
  lemma {:induction false} OthersNotMasqueraded(family: string -> Family, digest: Digest, t: Table, requests: seq<Request>, ipv6: bool, pk: Packet, depth: nat)
    requires Setting(family, digest, t, requests, ipv6, pk) && depth >= 2
    requires forall m, pm :: 0 <= m < |requests| && Standing(requests, m) && pm in requests[m].entry.pod.mappings ==> !Returns(requests[m].entry.pod, pm, ipv6, pk)
    requires Walk(Exec(t, OpsOf(digest, requests)), RulesAt(t, CRIO_HOSTPORTS_MASQ), pk, depth - 1).Passed?
    ensures var u := Exec(t, OpsOf(digest, requests));
            Walk(u, RulesAt(u, "POSTROUTING"), pk, depth) == Walk(u, Others(RulesAt(u, "POSTROUTING"), MASQ_JUMP), pk, depth)
  {
    var u := Exec(t, OpsOf(digest, requests));
    NoneSentBack(family, digest, t, requests, ipv6, pk, depth - 1);
    BaseJumpPasses(u, "POSTROUTING", pk, depth);
    WalkOthers(u, RulesAt(u, "POSTROUTING"), MASQ_JUMP, pk, depth);
  }

  // ---- a run the theorems are about ----

  const WEB := PodPortMapping("default", "web", [PortMapping(8080, 80, "TCP", "", NotIP)], V4("10.0.0.5"))
  const WEB_ENTRY := Entry("sandbox", WEB, WEB.mappings)

  function SomeDigest(key: string): string {
    "ABCDEFGHIJKLMNOP"
  }

  function SomeFamily(text: string): Family {
    if text == "10.0.0.5" then IPv4 else NotIP
  }

  lemma SomeSensible()
    ensures Sensible(SomeFamily) && Base32(SomeDigest) && Hashes(SomeDigest)
  {
    assert "10.0.0.5"[2] == '.';
    forall a: string, n: int | a == "10.0.0.5"
      ensures SomeFamily(a + ":" + Itoa(n)).NotIP?
    {
      assert |a + ":" + Itoa(n)| > |a|;
    }
  }

  lemma TcpPlain()
    ensures Lower("TCP") == "tcp" && Plain(SomeFamily, "tcp")
  {
    SomeSensible();
    Literal(SomeFamily, "tcp");
  }

  lemma WebName()
    ensures FullName(WEB) == "web_default" && Tidy("web_default") && Free("web_default")
  {
    QuietWithout("web_default");
    FreeOfCapitals("web_default");
  }

  lemma WebReadable()
    ensures Readable(SomeFamily, WEB, WEB.mappings[0])
  {
    TcpPlain();
    WebName();
    assert '"' !in "web_default" && ':' !in "10.0.0.5";
  }

  lemma WebOrdinary()
    ensures Ordinary(WEB_ENTRY) && Collisionless(SomeDigest, WEB_ENTRY)
  {
    WebName();
    FreeOfCapitals("10.0.0.5");
    FreeOfCapitals("");
  }

  lemma WebSetting(pk: Packet)
    requires pk.family == IPv4
    ensures Setting(SomeFamily, SomeDigest, map[], [AddFor(WEB_ENTRY)], false, pk)
  {
    SomeSensible();
    WebReadable();
    WebOrdinary();
    assert WEB.mappings[1..] == [];
  }

  lemma WebWins(pk: Packet)
    requires pk.protocol == "tcp" && pk.port == 8080
    ensures Winner([AddFor(WEB_ENTRY)], false, pk, 0, 0)
  {
    TcpPlain();
    assert WEB.mappings[1..] == [];
  }

  lemma WebEndpoint()
    ensures Endpoint(WEB.ip, 80) == "10.0.0.5:80"
  {
    assert Itoa(80) == Itoa(8) + ['0'];
    assert Itoa(8) == "8";
  }

  /** On a host without rules a packet for port 8080 goes to port 80 of the pod that asked for it. */
  lemma {:induction false} WebReached(pk: Packet)
    requires pk.protocol == "tcp" && pk.family == IPv4 && pk.port == 8080 && pk.local
    ensures var u := Exec(map[], OpsOf(SomeDigest, [AddFor(WEB_ENTRY)]));
            Walk(u, RulesAt(u, "PREROUTING"), pk, 2) == Translated("10.0.0.5:80")
  {
    WebSetting(pk);
    WebWins(pk);
    WebEndpoint();
    PacketReachesPod(SomeFamily, SomeDigest, map[], [AddFor(WEB_ENTRY)], false, "PREROUTING", pk, 2, 0, 0);
  }
}
