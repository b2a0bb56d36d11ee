/** The hostport manager itself: the rules written for a pod's port mappings, and Add and Remove
    on the tables of both address families (internal/hostport/hostport_manager.go). */
module HostportManager {
  import opened Sequences
  import opened Text
  import opened Iptables
  import opened Hostport
  import opened HostportProof
  import opened HostportUndo
  import opened HostportRemove
  import opened RuleSyntax

  datatype PortMapping = PortMapping(hostPort: int, containerPort: int, protocol: string, hostIP: string, hostFamily: Family)

  datatype PodIP = Invalid | V4(text: string) | V6(text: string)

  datatype PodPortMapping = PodPortMapping(namespace: string, name: string, mappings: seq<PortMapping>, ip: PodIP)

  /** The part of the chain name taken from the hash of the mapping's key. */
  type Digest = string -> string

  function Key(id: string, pm: PortMapping): string {
    id + Itoa(pm.hostPort) + pm.protocol + pm.hostIP
  }

  function FullName(pod: PodPortMapping): string {
    pod.name + "_" + pod.namespace
  }

  function IPFamily(ip: PodIP): Family {
    match ip
    case Invalid => NotIP
    case V4(_) => IPv4
    case V6(_) => IPv6
  }

  function IPText(ip: PodIP): string {
    if ip.Invalid? then "" else ip.text
  }

  /** net.JoinHostPort */
  function Binding(ip: PodIP, port: int): string {
    if ip.V6? then "[" + ip.text + "]:" + Itoa(port) else IPText(ip) + ":" + Itoa(port)
  }

  // ---- the rules, word by word, as the table shows them ----

  function Quoted(pod: PodPortMapping, pm: PortMapping): string {
    "\"" + FullName(pod) + " hostport " + Itoa(pm.hostPort) + "\""
  }

  function CommentWords(pod: PodPortMapping, pm: PortMapping): seq<string> {
    ["-m", "comment", "--comment", Quoted(pod, pm)]
  }

  function MatchWords(pm: PortMapping): seq<string> {
    ["-m", Lower(pm.protocol), "-p", Lower(pm.protocol)]
  }

  predicate Restricted(pm: PortMapping) {
    pm.hostIP != "" && pm.hostIP != "0.0.0.0" && pm.hostIP != "::"
  }

  function HpChain(digest: Digest, id: string, pm: PortMapping): Chain {
    KUBE_HP_PREFIX + digest(Key(id, pm))
  }

  function MasqChain(digest: Digest, id: string, pm: PortMapping): Chain {
    CRIO_MASQ_PREFIX + digest(Key(id, pm))
  }

  /** Everything of the jump but its target. */
  function JumpWords(pod: PodPortMapping, pm: PortMapping): seq<string> {
    CommentWords(pod, pm) + MatchWords(pm) + ["--dport", Itoa(pm.hostPort), "-j"]
  }

  function MasqJumpWords(pod: PodPortMapping, pm: PortMapping): seq<string> {
    CommentWords(pod, pm) + ["-j"]
  }

  function HostWords(pm: PortMapping): seq<string> {
    if Restricted(pm) then ["-d", Prefixed(pm.hostIP, pm.hostFamily)] else []
  }

  function DnatWords(pod: PodPortMapping, pm: PortMapping): seq<string> {
    CommentWords(pod, pm) + MatchWords(pm) + HostWords(pm) + ["-j", "DNAT", "--to-destination", Binding(pod.ip, pm.containerPort)]
  }

  function SnatWords(pod: PodPortMapping, pm: PortMapping): seq<string> {
    var address := Prefixed(IPText(pod.ip), IPFamily(pod.ip));
    CommentWords(pod, pm) + ["-m", "conntrack", "--ctorigdstport", Itoa(pm.hostPort)] + MatchWords(pm)
      + ["--dport", Itoa(pm.containerPort), "-s", address, "-d", address, "-j", "MASQUERADE"]
  }

  function PortOf(digest: Digest, id: string, pod: PodPortMapping, pm: PortMapping): Port {
    var hp, masq := HpChain(digest, id, pm), MasqChain(digest, id, pm);
    Port(hp, masq, Join(JumpWords(pod, pm) + [hp]), Join(MasqJumpWords(pod, pm) + [masq]),
         Join(DnatWords(pod, pm)), Join(SnatWords(pod, pm)))
  }

  predicate Wanted(pm: PortMapping, ipv6: bool) {
    pm.hostPort > 0 && (pm.hostIP == "" || pm.hostFamily.IPv6? == ipv6)
  }

  /** gatherHostportMappings */
  function Gathered(mappings: seq<PortMapping>, ipv6: bool): seq<PortMapping> {
    if mappings == [] then []
    else (if Wanted(mappings[0], ipv6) then [mappings[0]] else []) + Gathered(mappings[1..], ipv6)
  }

  function PortsOf(digest: Digest, id: string, pod: PodPortMapping, ms: seq<PortMapping>): (r: seq<Port>)
    ensures |r| == |ms| && forall i :: 0 <= i < |ms| ==> r[i] == PortOf(digest, id, pod, ms[i])
  {
    seq(|ms|, i requires 0 <= i < |ms| => PortOf(digest, id, pod, ms[i]))
  }

  /** The ports of a pod in one address family. */
  function FamilyPorts(digest: Digest, id: string, pod: PodPortMapping, ipv6: bool): seq<Port> {
    PortsOf(digest, id, pod, Gathered(pod.mappings, ipv6))
  }

  lemma {:induction false} EndsIn(words: seq<string>, x: string)
    requires words != []
    ensures Join(words + [x]) == Join(words) + " " + x
  {
    JoinConcat(words, [x]);
  }

  lemma PortIsGood(digest: Digest, id: string, pod: PodPortMapping, pm: PortMapping)
    ensures GoodPort(PortOf(digest, id, pod, pm))
  {
    var p := PortOf(digest, id, pod, pm);
    EndsIn(JumpWords(pod, pm), p.hp);
    ContainsInfix(Join(JumpWords(pod, pm)) + " ", p.hp, "");
    assert Join(JumpWords(pod, pm)) + " " + p.hp + "" == p.jump;
    EndsIn(MasqJumpWords(pod, pm), p.masq);
    ContainsInfix(Join(MasqJumpWords(pod, pm)) + " ", p.masq, "");
    assert Join(MasqJumpWords(pod, pm)) + " " + p.masq + "" == p.masqJump;
  }

  lemma PortsAreGood(digest: Digest, id: string, pod: PodPortMapping, ms: seq<PortMapping>)
    ensures forall p :: p in PortsOf(digest, id, pod, ms) ==> GoodPort(p)
  {
    var ports := PortsOf(digest, id, pod, ms);
    forall p | p in ports
      ensures GoodPort(p)
    {
      var i :| 0 <= i < |ports| && ports[i] == p;
      PortIsGood(digest, id, pod, ms[i]);
    }
  }

  lemma PortsDiffer(digest: Digest, id: string, pod: PodPortMapping, a: PortMapping, b: PortMapping)
    requires |digest(Key(id, a))| == |digest(Key(id, b))| && digest(Key(id, a)) != digest(Key(id, b))
    ensures DifferentPorts(PortOf(digest, id, pod, a), PortOf(digest, id, pod, b))
  {
    var p, q := PortOf(digest, id, pod, a), PortOf(digest, id, pod, b);
    var x, y := digest(Key(id, a)), digest(Key(id, b));
    if p.hp == q.hp {
      SameEnd(KUBE_HP_PREFIX, x, KUBE_HP_PREFIX, y);
    }
    if p.masq == q.masq {
      SameEnd(CRIO_MASQ_PREFIX, x, CRIO_MASQ_PREFIX, y);
    }
    EndsIn(JumpWords(pod, a), p.hp);
    EndsIn(JumpWords(pod, b), q.hp);
    if p.jump == q.jump {
      SameEnd(Join(JumpWords(pod, a)) + " ", p.hp, Join(JumpWords(pod, b)) + " ", q.hp);
    }
    EndsIn(MasqJumpWords(pod, a), p.masq);
    EndsIn(MasqJumpWords(pod, b), q.masq);
    if p.masqJump == q.masqJump {
      SameEnd(Join(MasqJumpWords(pod, a)) + " ", p.masq, Join(MasqJumpWords(pod, b)) + " ", q.masq);
    }
  }

  /** Distinct digests of equal length make the pod's chains and jumps well formed. */
  lemma PodIsGood(digest: Digest, id: string, pod: PodPortMapping, ms: seq<PortMapping>)
    requires forall i, j :: 0 <= i < j < |ms| ==> digest(Key(id, ms[i])) != digest(Key(id, ms[j]))
    requires forall i, j :: 0 <= i < j < |ms| ==> |digest(Key(id, ms[i]))| == |digest(Key(id, ms[j]))|
    ensures GoodPod(PortsOf(digest, id, pod, ms))
  {
    var ports := PortsOf(digest, id, pod, ms);
    PortsAreGood(digest, id, pod, ms);
    forall i, j | 0 <= i < j < |ports|
      ensures DifferentPorts(ports[i], ports[j])
    {
      PortsDiffer(digest, id, pod, ms[i], ms[j]);
    }
  }

  // ---- the loops ----

  method GatherHostportMappings(mappings: seq<PortMapping>, ipv6: bool) returns (r: seq<PortMapping>)
    ensures r == Gathered(mappings, ipv6)
  {
    r := [];
    var i := 0;
    while i < |mappings|
      invariant 0 <= i <= |mappings|
      invariant Gathered(mappings, ipv6) == r + Gathered(mappings[i..], ipv6)
    {
      var pm := mappings[i];
      assert mappings[i..][1..] == mappings[i + 1..];
      i := i + 1;
      if pm.hostPort <= 0 {
        continue;
      }
      if pm.hostIP != "" && pm.hostFamily.IPv6? != ipv6 {
        continue;
      }
      r := r + [pm];
    }
  }

  /** Ranges over a Go map: each key once, in an arbitrary order. */
  method Range(keys: set<Chain>) returns (order: seq<Chain>)
    ensures Enumerates(order, keys)
  {
    order := [];
    var todo := keys;
    while todo != {}
      invariant todo <= keys && NoDuplicates(order)
      invariant forall e :: e in order <==> e in keys && e !in todo
      decreases |todo|
    {
      var c :| c in todo;
      todo := todo - {c};
      order := order + [c];
    }
  }

  method ReadExisting(t: Table, order: seq<Chain>) returns (lines: seq<Line>)
    ensures lines == Existing(t, order)
  {
    lines := [];
    var i := 0;
    while i < |order|
      invariant 0 <= i <= |order|
      invariant Existing(t, order) == lines + Existing(t, order[i..])
    {
      assert order[i..][1..] == order[i + 1..];
      if IsHostport(order[i]) {
        lines := lines + Block(order[i], RulesAt(t, order[i]));
      }
      i := i + 1;
    }
  }

  method FilterRules(lines: seq<Line>, filters: seq<Chain>) returns (r: seq<Line>)
    requires forall l :: l in lines ==> l.Append?
    ensures r == KeptLines(lines, filters)
  {
    r := [];
    var i := 0;
    while i < |lines|
      invariant 0 <= i <= |lines|
      invariant KeptLines(lines, filters) == r + KeptLines(lines[i..], filters)
    {
      var l := lines[i];
      assert lines[i..][1..] == lines[i + 1..] && l in lines;
      var skip := false;
      var k := 0;
      while k < |filters| && !skip
        invariant 0 <= k <= |filters|
        invariant skip ==> Mentions(l.chain, l.rule, filters)
        invariant !skip ==> forall m :: 0 <= m < k ==> !Contains(RuleText(l.chain, l.rule), filters[m])
      {
        skip := Search(RuleText(l.chain, l.rule), filters[k]);
        assert filters[k] in filters;
        k := k + 1;
      }
      if !skip {
        r := r + [l];
      }
      i := i + 1;
    }
  }

  /** The existing rules that do not mention the chains. */
  method ReadKept(t: Table, order: seq<Chain>, chains: seq<Chain>) returns (kept: seq<Line>)
    ensures kept == KeptLines(Existing(t, order), chains)
  {
    var existing := ReadExisting(t, order);
    forall l | l in existing
      ensures l.Append?
    {
      ExistingAppends(t, order, l);
    }
    kept := FilterRules(existing, chains);
  }

  method PortBuffers(ports: seq<Port>) returns (chains: seq<Chain>, rules: seq<Line>)
    ensures chains == ChainsOf(ports) && rules == LinesOf(ports)
  {
    chains, rules := [], [];
    var i := 0;
    while i < |ports|
      invariant 0 <= i <= |ports|
      invariant ChainsOf(ports) == chains + ChainsOf(ports[i..])
      invariant LinesOf(ports) == rules + LinesOf(ports[i..])
    {
      assert ports[i..][1..] == ports[i + 1..];
      chains := chains + [ports[i].hp, ports[i].masq];
      rules := rules + PortLines(ports[i]);
      i := i + 1;
    }
  }

  method PresentChains(chains: seq<Chain>, t: Table) returns (r: seq<Chain>)
    ensures r == Present(chains, t)
  {
    r := [];
    var i := 0;
    while i < |chains|
      invariant 0 <= i <= |chains|
      invariant Present(chains, t) == r + Present(chains[i..], t)
    {
      assert chains[i..][1..] == chains[i + 1..];
      if chains[i] in t {
        r := r + [chains[i]];
      }
      i := i + 1;
    }
  }

  method EnsureKubeHostportChains(ipt: FakeIPTables)
    modifies ipt
    ensures ipt.table == EnsureBase(old(ipt.table))
  {
    EnsureNamed(ipt, KUBE_HOSTPORTS);
    EnsureJump(ipt, "OUTPUT", PORTALS_JUMP);
    EnsureJump(ipt, "PREROUTING", PORTALS_JUMP);
    EnsureNamed(ipt, CRIO_HOSTPORTS_MASQ);
    EnsureJump(ipt, "POSTROUTING", MASQ_JUMP);
  }

  method EnsureNamed(ipt: FakeIPTables, c: Chain)
    modifies ipt
    ensures ipt.table == WithChain(old(ipt.table), c)
  {
    var existed := ipt.EnsureChain(c);
    assert ipt.table == WithChain(old(ipt.table), c);
  }

  method EnsureJump(ipt: FakeIPTables, c: Chain, r: Rule)
    modifies ipt
    ensures ipt.table == WithRule(old(ipt.table), c, r)
  {
    var existed := ipt.EnsureRule(false, c, r);
    assert ipt.table == WithRule(old(ipt.table), c, r);
  }

  lemma {:induction false} RemovePromises(t: Table, ports: seq<Port>)
    ensures GoodPod(ports) ==> NoDuplicates(Present(ChainsOf(ports), t))
    ensures NoDuplicates(Present(ChainsOf(ports), t)) ==> RemoveLeaves(t, ports) == RemoveResult(t, ports)
    ensures Present(ChainsOf(ports), t) == [] ==> RemoveResult(t, ports) == t
    ensures Present(ChainsOf(ports), t) != [] ==> RemoveResult(t, ports) == RemovedTable(t, ports)
  {
    var gone := Present(ChainsOf(ports), t);
    if GoodPod(ports) {
      RemoveSucceeds(t, ports);
    }
    if NoDuplicates(gone) {
      RemoveLeavesResult(t, ports);
    }
    PresentAre(ChainsOf(ports), t);
    if gone != [] {
      assert gone[0] in gone;
    }
  }

  class HostportManager {
    const ip4tables: FakeIPTables
    const ip6tables: FakeIPTables

    ghost predicate Valid() {
      ip4tables != ip6tables
    }

    constructor (ip4: FakeIPTables, ip6: FakeIPTables)
      requires ip4 != ip6
      ensures Valid() && ip4tables == ip4 && ip6tables == ip6
    {
      ip4tables, ip6tables := ip4, ip6;
    }

    /** Fails only for a pod without a valid IP; otherwise the table of the pod's own family
        becomes AddResult, and the other family is untouched. */
    method Add(digest: Digest, id: string, pod: PodPortMapping) returns (ok: bool)
      requires Valid()
      modifies ip4tables, ip6tables
      ensures ok <==> !pod.ip.Invalid?
      ensures ip4tables.table == if pod.ip.V4? then AddResult(old(ip4tables.table), FamilyPorts(digest, id, pod, false)) else old(ip4tables.table)
      ensures ip6tables.table == if pod.ip.V6? then AddResult(old(ip6tables.table), FamilyPorts(digest, id, pod, true)) else old(ip6tables.table)
    {
      if pod.ip.Invalid? {
        return false;
      }
      var isIPv6 := pod.ip.V6?;
      var ms := GatherHostportMappings(pod.mappings, isIPv6);
      if |ms| == 0 {
        return true;
      }
      var ipt := if isIPv6 then ip6tables else ip4tables;
      BaseOnlyAddsDispatch(ipt.table);
      PortsAreGood(digest, id, pod, ms);
      EnsureKubeHostportChains(ipt);
      ok := AddPorts(ipt, PortsOf(digest, id, pod, ms));
    }

    method AddPorts(ipt: FakeIPTables, ports: seq<Port>) returns (ok: bool)
      requires forall p :: p in ports ==> GoodPort(p)
      requires KUBE_HOSTPORTS in ipt.table && CRIO_HOSTPORTS_MASQ in ipt.table
      modifies ipt
      ensures ok && ipt.table == AddedTable(old(ipt.table), ports)
    {
      var t := ipt.table;
      var order := Range(t.Keys);
      var newChains, natRules := PortBuffers(ports);
      var rest := Range((set c | c in t && IsHostport(c)) - set c | c in newChains);
      var kept := ReadKept(t, order, newChains);
      AddProducesTable(t, ports, order, rest);
      ok := ipt.RestoreAll([TableLine] + ChainLines(newChains) + ChainLines(rest) + natRules + kept + [Commit]);
    }

    /** Cleans up one family. It fails exactly when an existing chain of the pod is listed
        twice, never for a well-formed pod, and leaves the same table whatever the orders. */
    method RemoveForFamily(ipt: FakeIPTables, ports: seq<Port>) returns (ok: bool)
      modifies ipt
      ensures ok <==> NoDuplicates(Present(ChainsOf(ports), old(ipt.table)))
      ensures GoodPod(ports) ==> ok
      ensures ok ==> ipt.table == RemoveResult(old(ipt.table), ports)
      ensures ipt.table == RemoveLeaves(old(ipt.table), ports)
    {
      var t := ipt.table;
      var order := Range(t.Keys);
      var chains, _ := PortBuffers(ports);
      var kept := ReadKept(t, order, chains);
      var gone := PresentChains(chains, t);
      RemovePromises(t, ports);
      if |gone| == 0 {
        return true;
      }
      var rest := Range(set c | c in t && IsHostport(c));
      RemoveProducesTable(t, ports, order, rest);
      RemoveLeavesTable(t, ports, order, rest);
      ok := ipt.RestoreAll([TableLine] + ChainLines(rest) + kept + DeleteLines(gone) + [Commit]);
    }

    /** Remove does not know the pod's family, so it cleans up both. */
    method Remove(digest: Digest, id: string, pod: PodPortMapping) returns (ok: bool)
      requires Valid()
      modifies ip4tables, ip6tables
      ensures ok <==> && NoDuplicates(Present(ChainsOf(FamilyPorts(digest, id, pod, false)), old(ip4tables.table)))
                      && NoDuplicates(Present(ChainsOf(FamilyPorts(digest, id, pod, true)), old(ip6tables.table)))
      ensures GoodPod(FamilyPorts(digest, id, pod, false)) && GoodPod(FamilyPorts(digest, id, pod, true)) ==> ok
      ensures ok ==> ip4tables.table == RemoveResult(old(ip4tables.table), FamilyPorts(digest, id, pod, false))
      ensures ok ==> ip6tables.table == RemoveResult(old(ip6tables.table), FamilyPorts(digest, id, pod, true))
      ensures ip4tables.table == RemoveLeaves(old(ip4tables.table), FamilyPorts(digest, id, pod, false))
      ensures ip6tables.table == RemoveLeaves(old(ip6tables.table), FamilyPorts(digest, id, pod, true))
    {
      var v4 := GatherHostportMappings(pod.mappings, false);
      var ok4 := RemoveForFamily(ip4tables, PortsOf(digest, id, pod, v4));
      var v6 := GatherHostportMappings(pod.mappings, true);
      var ok6 := RemoveForFamily(ip6tables, PortsOf(digest, id, pod, v6));
      ok := ok4 && ok6;
    }
  }
}
