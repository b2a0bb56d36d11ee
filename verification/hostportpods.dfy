/** The manager's own pods are compatible: what is written for one names no chain of another. */
module HostportPods {
  import opened Sequences
  import opened Text
  import opened Iptables
  import opened Hostport
  import opened HostportUndo
  import opened HostportRemove
  import opened HostportRuns
  import opened HostportManager
  import opened RuleSyntax

  /** A pod as the manager is asked to handle it in one address family. */
  datatype Entry = Entry(id: string, pod: PodPortMapping, ms: seq<PortMapping>)

  function Ports(digest: Digest, e: Entry): Pod {
    PortsOf(digest, e.id, e.pod, e.ms)
  }

  /** Sixteen characters of a base32 text. */
  ghost predicate Hashes(digest: Digest) {
    forall k :: |digest(k)| == 16 && ' ' !in digest(k)
  }

  function DigestOf(digest: Digest, e: Entry, i: nat): string
    requires i < |e.ms|
  {
    digest(Key(e.id, e.ms[i]))
  }

  /** No two mappings of the pod have the same hash. */
  ghost predicate Collisionless(digest: Digest, e: Entry) {
    forall i, j :: 0 <= i < j < |e.ms| ==> DigestOf(digest, e, i) != DigestOf(digest, e, j)
  }

  ghost predicate Apart(digest: Digest, a: Entry, b: Entry) {
    forall i, j :: 0 <= i < |a.ms| && 0 <= j < |b.ms| ==> DigestOf(digest, a, i) != DigestOf(digest, b, j)
  }

  /** Names and addresses in which no prefix of a port's chain stands. */
  ghost predicate Ordinary(e: Entry) {
    Free(FullName(e.pod)) && Free(IPText(e.pod.ip)) && forall i :: 0 <= i < |e.ms| ==> Free(e.ms[i].hostIP)
  }

  // ---- words that name no chain ----

  lemma {:induction false} NumberFree(n: int)
    ensures Free(Itoa(n))
  {
    if 'K' in Itoa(n) {
      ItoaPlain(n, 'K');
    }
    if 'C' in Itoa(n) {
      ItoaPlain(n, 'C');
    }
    FreeOfCapitals(Itoa(n));
  }

  lemma ProtocolFree(s: string)
    ensures Free(Lower(s))
  {
    if 'K' in Lower(s) {
      LowerPlain(s, 'K');
    }
    if 'C' in Lower(s) {
      LowerPlain(s, 'C');
    }
    FreeOfCapitals(Lower(s));
  }

  lemma QuotedFree(pod: PodPortMapping, pm: PortMapping)
    requires Free(FullName(pod))
    ensures Free(Quoted(pod, pm))
  {
    var n, name := Itoa(pm.hostPort), FullName(pod);
    NumberFree(pm.hostPort);
    FreeOfCapitals("");
    FreeAcross(n, '"', "");
    FreeOfCapitals("hostport");
    FreeAcross("hostport", ' ', n + ['"'] + "");
    FreeAcross(name, ' ', "hostport" + [' '] + (n + ['"'] + ""));
    FreeAcross("", '"', name + [' '] + ("hostport" + [' '] + (n + ['"'] + "")));
    assert Quoted(pod, pm) == "" + ['"'] + (name + [' '] + ("hostport" + [' '] + (n + ['"'] + "")));
  }

  lemma PrefixedFree(text: string, family: Family)
    requires Free(text)
    ensures Free(Prefixed(text, family))
  {
    FreeOfCapitals("32");
    FreeAcross(text, '/', "32");
    assert text + "/32" == text + ['/'] + "32";
    FreeOfCapitals("128");
    FreeAcross(text, '/', "128");
    assert text + "/128" == text + ['/'] + "128";
  }

  lemma BindingFree(ip: PodIP, port: int)
    requires Free(IPText(ip))
    ensures Free(Binding(ip, port))
  {
    var n := Itoa(port);
    NumberFree(port);
    if ip.V6? {
      FreeOfCapitals("");
      FreeAcross("", ':', n);
      FreeAcross(ip.text, ']', "" + [':'] + n);
      FreeAcross("", '[', ip.text + [']'] + ("" + [':'] + n));
      assert Binding(ip, port) == "" + ['['] + (ip.text + [']'] + ("" + [':'] + n));
    } else {
      FreeAcross(IPText(ip), ':', n);
      assert Binding(ip, port) == IPText(ip) + [':'] + n;
    }
  }

  lemma CommonWordsFree(pod: PodPortMapping, pm: PortMapping)
    requires Free(FullName(pod))
    ensures AllFree(CommentWords(pod, pm)) && AllFree(MatchWords(pm))
  {
    QuotedFree(pod, pm);
    ProtocolFree(pm.protocol);
    FreeOfCapitals("-m");
    FreeOfCapitals("comment");
    FreeOfCapitals("--comment");
    FreeOfCapitals("-p");
  }

  lemma AllFreeConcat(a: seq<string>, b: seq<string>)
    requires AllFree(a) && AllFree(b)
    ensures AllFree(a + b)
  {
  }

  lemma JumpWordsFree(pod: PodPortMapping, pm: PortMapping)
    requires Free(FullName(pod))
    ensures AllFree(JumpWords(pod, pm)) && AllFree(MasqJumpWords(pod, pm))
  {
    CommonWordsFree(pod, pm);
    NumberFree(pm.hostPort);
    FreeOfCapitals("--dport");
    FreeOfCapitals("-j");
    AllFreeConcat(CommentWords(pod, pm), MatchWords(pm));
    AllFreeConcat(CommentWords(pod, pm) + MatchWords(pm), ["--dport", Itoa(pm.hostPort), "-j"]);
    AllFreeConcat(CommentWords(pod, pm), ["-j"]);
  }

  lemma DnatWordsFree(pod: PodPortMapping, pm: PortMapping)
    requires Free(FullName(pod)) && Free(IPText(pod.ip)) && Free(pm.hostIP)
    ensures AllFree(DnatWords(pod, pm))
  {
    CommonWordsFree(pod, pm);
    PrefixedFree(pm.hostIP, pm.hostFamily);
    FreeOfCapitals("-d");
    assert AllFree(HostWords(pm));
    BindingFree(pod.ip, pm.containerPort);
    FreeOfCapitals("-j");
    FreeOfCapitals("DNAT");
    FreeOfCapitals("--to-destination");
    AllFreeConcat(CommentWords(pod, pm), MatchWords(pm));
    AllFreeConcat(CommentWords(pod, pm) + MatchWords(pm), HostWords(pm));
    AllFreeConcat(CommentWords(pod, pm) + MatchWords(pm) + HostWords(pm), ["-j", "DNAT", "--to-destination", Binding(pod.ip, pm.containerPort)]);
  }

  lemma SnatWordsFree(pod: PodPortMapping, pm: PortMapping)
    requires Free(FullName(pod)) && Free(IPText(pod.ip))
    ensures AllFree(SnatWords(pod, pm))
  {
    var address := Prefixed(IPText(pod.ip), IPFamily(pod.ip));
    CommonWordsFree(pod, pm);
    NumberFree(pm.hostPort);
    NumberFree(pm.containerPort);
    PrefixedFree(IPText(pod.ip), IPFamily(pod.ip));
    var tracked := ["-m", "conntrack", "--ctorigdstport", Itoa(pm.hostPort)];
    forall k | 0 <= k < 3
      ensures Free(tracked[k])
    {
      FreeOfCapitals(tracked[k]);
    }
    var end := ["--dport", Itoa(pm.containerPort), "-s", address, "-d", address, "-j", "MASQUERADE"];
    FreeOfCapitals("--dport");
    FreeOfCapitals("-s");
    FreeOfCapitals("-d");
    FreeOfCapitals("-j");
    FreeOfCapitals("MASQUERADE");
    AllFreeConcat(CommentWords(pod, pm), tracked);
    AllFreeConcat(CommentWords(pod, pm) + tracked, MatchWords(pm));
    AllFreeConcat(CommentWords(pod, pm) + tracked + MatchWords(pm), end);
  }

  // ---- chains of equally long hashes ----

  /** A prefix followed by sixteen characters, none of them a space. */
  ghost predicate PortChain(x: Chain) {
    ' ' !in x && ((|x| == 24 && HasPrefix(x, KUBE_HP_PREFIX)) || (|x| == 26 && HasPrefix(x, CRIO_MASQ_PREFIX)))
  }

  lemma PortChainsFit(digest: Digest, e: Entry, i: nat)
    requires Hashes(digest) && i < |e.ms|
    ensures PortChain(Ports(digest, e)[i].hp) && PortChain(Ports(digest, e)[i].masq)
  {
    var d := DigestOf(digest, e, i);
    assert |d| == 16 && ' ' !in d;
    assert (KUBE_HP_PREFIX + d)[..8] == KUBE_HP_PREFIX && (CRIO_MASQ_PREFIX + d)[..10] == CRIO_MASQ_PREFIX;
  }

  /** A port's chain stands in another only if it is that one. */
  lemma ChainInChain(x: Chain, y: Chain)
    requires PortChain(x) && PortChain(y) && Contains(y, x)
    ensures x == y
  {
    if |x| == |y| {
      ContainsWhole(y, x);
    } else {
      LengthsApart(x, y);
    }
  }

  lemma LengthsApart(x: Chain, y: Chain)
    requires PortChain(x) && PortChain(y) && |x| != |y|
    ensures !Contains(y, x)
  {
    ChainStart(x);
    ChainStart(y);
    forall i: nat | i + |x| <= |y|
      ensures !OccursAt(y, x, i)
    {
      assert y[i..i + |x|][0] == y[i];
    }
  }

  lemma ChainStart(x: Chain)
    requires PortChain(x)
    ensures if |x| == 24 then x[0] == 'K' else |x| == 26 && x[0] == 'C' && x[1] == 'R' && x[2] == 'I'
  {
    assert |x| == 24 ==> x[..8][0] == 'K';
    assert |x| == 26 ==> x[..10][0] == 'C' && x[..10][1] == 'R' && x[..10][2] == 'I';
  }

  lemma ChainInWord(x: Chain, w: string)
    requires PortChain(x) && Contains(w, x)
    ensures !Free(w)
  {
    ContainsPrefix(w, x, if HasPrefix(x, KUBE_HP_PREFIX) then KUBE_HP_PREFIX else CRIO_MASQ_PREFIX);
  }

  /** A port's chain stands in the text of a rule only as one of its words that is a port's chain. */
  lemma {:induction false} ChainInRule(c: Chain, words: seq<string>, x: Chain)
    requires PortChain(x) && words != [] && Contains(RuleText(c, Join(words)), x)
    ensures Contains(c, x) || exists k :: 0 <= k < |words| && Contains(words[k], x)
  {
    var r := Join(words);
    assert RuleText(c, r) == "-A" + [' '] + (c + [' '] + r);
    ContainsAcross("-A", ' ', c + [' '] + r, x);
    FreeOfCapitals("-A");
    if Contains("-A", x) {
      ChainInWord(x, "-A");
    } else {
      ContainsAcross(c, ' ', r, x);
      if !Contains(c, x) {
        ContainsWord(words, x);
      }
    }
  }

  /** What the rules written for a port can name: a jump its target, another rule its own chain. */
  lemma RuleNames(digest: Digest, e: Entry, i: nat, c: Chain, r: Rule, x: Chain)
    requires Hashes(digest) && Ordinary(e) && i < |e.ms| && PortChain(x)
    requires RuleOf(Ports(digest, e)[i], c, r) && Contains(RuleText(c, r), x)
    ensures x == if IsDispatch(c) then Target(Ports(digest, e)[i], c) else c
  {
    var p, pm := Ports(digest, e)[i], e.ms[i];
    PortChainsFit(digest, e, i);
    DispatchNamesFree();
    if c == KUBE_HOSTPORTS && r == p.jump {
      JumpWordsFree(e.pod, pm);
      JumpNames(c, JumpWords(e.pod, pm), p.hp, x);
    } else if c == CRIO_HOSTPORTS_MASQ && r == p.masqJump {
      JumpWordsFree(e.pod, pm);
      JumpNames(c, MasqJumpWords(e.pod, pm), p.masq, x);
    } else if c == p.hp && r == p.dnat {
      DnatWordsFree(e.pod, pm);
      OwnNames(c, DnatWords(e.pod, pm), x);
    } else {
      SnatWordsFree(e.pod, pm);
      OwnNames(c, SnatWords(e.pod, pm), x);
    }
  }

  /** One of the four rules of a port, in its chain. */
  ghost predicate RuleOf(p: Port, c: Chain, r: Rule) {
    (c == KUBE_HOSTPORTS && r == p.jump) || (c == CRIO_HOSTPORTS_MASQ && r == p.masqJump) ||
    (c == p.hp && r == p.dnat) || (c == p.masq && r == p.snat)
  }

  lemma {:induction false} JumpNames(c: Chain, words: seq<string>, target: Chain, x: Chain)
    requires PortChain(x) && PortChain(target) && Free(c) && AllFree(words) && Contains(RuleText(c, Join(words + [target])), x)
    ensures x == target
  {
    ChainInRule(c, words + [target], x);
    if Contains(c, x) {
      ChainInWord(x, c);
    } else {
      var k :| 0 <= k < |words| + 1 && Contains((words + [target])[k], x);
      if k < |words| {
        ChainInWord(x, words[k]);
      } else {
        ChainInChain(x, target);
      }
    }
  }

  lemma {:induction false} OwnNames(c: Chain, words: seq<string>, x: Chain)
    requires PortChain(x) && PortChain(c) && words != [] && AllFree(words) && Contains(RuleText(c, Join(words)), x)
    ensures x == c
  {
    ChainInRule(c, words, x);
    if Contains(c, x) {
      ChainInChain(x, c);
    } else {
      var k :| 0 <= k < |words| && Contains(words[k], x);
      ChainInWord(x, words[k]);
    }
  }

  // ---- from rules to ports and chains to ports ----

  lemma {:induction false} ChainFrom(ports: seq<Port>, x: Chain) returns (i: nat)
    requires x in ChainsOf(ports)
    ensures i < |ports| && (x == ports[i].hp || x == ports[i].masq)
  {
    if x == ports[0].hp || x == ports[0].masq {
      i := 0;
    } else {
      var j := ChainFrom(ports[1..], x);
      i := j + 1;
    }
  }

  lemma {:induction false} OwnRuleFrom(ports: seq<Port>, c: Chain) returns (i: nat)
    requires OwnRule(ports, c).Some?
    ensures i < |ports| && RuleOf(ports[i], c, OwnRule(ports, c).value)
  {
    if c == ports[0].hp || c == ports[0].masq {
      i := 0;
    } else {
      var j := OwnRuleFrom(ports[1..], c);
      i := j + 1;
    }
  }

  lemma {:induction false} FreshFrom(ports: seq<Port>, c: Chain, r: Rule) returns (i: nat)
    requires GoodPod(ports) && r in Fresh(ports, c)
    ensures i < |ports| && RuleOf(ports[i], c, r)
  {
    FreshIs(ports, c);
    if IsDispatch(c) {
      var k :| 0 <= k < |ports| && Reversed(Jumps(ports, c))[k] == r;
      i := |ports| - 1 - k;
    } else {
      i := OwnRuleFrom(ports, c);
    }
  }

  lemma GoodEntry(digest: Digest, e: Entry)
    requires Hashes(digest) && Collisionless(digest, e)
    ensures GoodPod(Ports(digest, e))
  {
    forall i, j | 0 <= i < j < |e.ms|
      ensures digest(Key(e.id, e.ms[i])) != digest(Key(e.id, e.ms[j]))
    {
      assert DigestOf(digest, e, i) != DigestOf(digest, e, j);
    }
    PodIsGood(digest, e.id, e.pod, e.ms);
  }

  /** Chains of ports with different hashes are different. */
  lemma DifferentHashes(digest: Digest, a: Entry, i: nat, b: Entry, j: nat)
    requires Hashes(digest) && i < |a.ms| && j < |b.ms| && DigestOf(digest, a, i) != DigestOf(digest, b, j)
    ensures var p, q := Ports(digest, a)[i], Ports(digest, b)[j];
            p.hp != q.hp && p.masq != q.masq && p.hp != q.masq && p.masq != q.hp
  {
    PortIsGood(digest, a.id, a.pod, a.ms[i]);
    PortIsGood(digest, b.id, b.pod, b.ms[j]);
    CrossKinds(Ports(digest, a)[i], Ports(digest, b)[j]);
    var d, e := DigestOf(digest, a, i), DigestOf(digest, b, j);
    assert |d| == 16 && |e| == 16;
    if KUBE_HP_PREFIX + d == KUBE_HP_PREFIX + e {
      SameEnd(KUBE_HP_PREFIX, d, KUBE_HP_PREFIX, e);
    }
    if CRIO_MASQ_PREFIX + d == CRIO_MASQ_PREFIX + e {
      SameEnd(CRIO_MASQ_PREFIX, d, CRIO_MASQ_PREFIX, e);
    }
  }

  // ---- the pods are compatible ----

  /** Nothing written for b names a chain of a. */
  lemma EntriesSilent(digest: Digest, a: Entry, b: Entry)
    requires Hashes(digest) && Ordinary(b) && Collisionless(digest, b) && Apart(digest, a, b)
    ensures Silent(Ports(digest, a), Ports(digest, b))
  {
    GoodEntry(digest, b);
    var p, q := Ports(digest, a), Ports(digest, b);
    forall c, r, x | r in Fresh(q, c) && x in ChainsOf(p)
      ensures !Contains(RuleText(c, r), x)
    {
      RuleSilent(digest, a, b, c, r, x);
    }
  }

  lemma RuleSilent(digest: Digest, a: Entry, b: Entry, c: Chain, r: Rule, x: Chain)
    requires Hashes(digest) && Ordinary(b) && Apart(digest, a, b) && GoodPod(Ports(digest, b))
    requires r in Fresh(Ports(digest, b), c) && x in ChainsOf(Ports(digest, a))
    ensures !Contains(RuleText(c, r), x)
  {
    var i := ChainFrom(Ports(digest, a), x);
    var j := FreshFrom(Ports(digest, b), c, r);
    PortChainsFit(digest, a, i);
    DifferentHashes(digest, a, i, b, j);
    if Contains(RuleText(c, r), x) {
      RuleNames(digest, b, j, c, r, x);
    }
  }

  lemma EntryTargets(digest: Digest, e: Entry, c: Chain)
    requires Hashes(digest) && Ordinary(e) && Collisionless(digest, e) && IsDispatch(c)
    ensures OwnTargets(Ports(digest, e), c)
  {
    var p := Ports(digest, e);
    forall i, j | 0 <= i < |p| && 0 <= j < |p| && i != j
      ensures !Contains(RuleText(c, Jump(p[j], c)), Target(p[i], c))
    {
      PortChainsFit(digest, e, i);
      assert DigestOf(digest, e, i) != DigestOf(digest, e, j);
      DifferentHashes(digest, e, i, e, j);
      if Contains(RuleText(c, Jump(p[j], c)), Target(p[i], c)) {
        RuleNames(digest, e, j, c, Jump(p[j], c), Target(p[i], c));
      }
    }
  }

  lemma EntryRulesApart(digest: Digest, e: Entry)
    requires Hashes(digest) && Ordinary(e)
    ensures OwnRulesApart(Ports(digest, e))
  {
    var p := Ports(digest, e);
    forall c, x | c in ChainsOf(p) && x in ChainsOf(p) && x != c && OwnRule(p, c).Some?
      ensures !Contains(RuleText(c, OwnRule(p, c).value), x)
    {
      OwnRuleSilent(digest, e, c, x);
    }
  }

  lemma {:induction false} OwnRuleSilent(digest: Digest, e: Entry, c: Chain, x: Chain)
    requires Hashes(digest) && Ordinary(e) && c in ChainsOf(Ports(digest, e)) && x in ChainsOf(Ports(digest, e)) && x != c
    requires OwnRule(Ports(digest, e), c).Some?
    ensures !Contains(RuleText(c, OwnRule(Ports(digest, e), c).value), x)
  {
    var p := Ports(digest, e);
    var k := ChainFrom(p, x);
    PortChainsFit(digest, e, k);
    var i := OwnRuleFrom(p, c);
    var m := ChainFrom(p, c);
    PortChainsFit(digest, e, m);
    if Contains(RuleText(c, OwnRule(p, c).value), x) {
      RuleNames(digest, e, i, c, OwnRule(p, c).value, x);
    }
  }

  // ---- what the manager's runs guarantee ----

  /** A request to the manager in one address family. A removal is asked for with the sandbox's ID and
      mappings; its name and address need not be those of the pod, and the server gives no address. */
  datatype Request = AddFor(entry: Entry) | RemoveFor(entry: Entry)

  function OpOf(digest: Digest, r: Request): Op {
    if r.AddFor? then AddPod(Ports(digest, r.entry)) else RemovePod(Ports(digest, r.entry))
  }

  function OpsOf(digest: Digest, requests: seq<Request>): (ops: seq<Op>)
    ensures |ops| == |requests| && forall i :: 0 <= i < |requests| ==> ops[i] == OpOf(digest, requests[i])
  {
    seq(|requests|, i requires 0 <= i < |requests| => OpOf(digest, requests[i]))
  }

  predicate SameSandbox(a: Entry, b: Entry) {
    a.id == b.id && a.ms == b.ms
  }

  /** A pod's chains come from the sandbox's ID and mappings alone. */
  lemma {:induction false} SandboxChains(digest: Digest, a: Entry, b: Entry)
    requires SameSandbox(a, b)
    ensures SameChains(Ports(digest, a), Ports(digest, b))
  {
    ChainsFromMappings(digest, a.id, a.pod, b.pod, a.ms);
  }

  lemma {:induction false} ChainsFromMappings(digest: Digest, id: string, pod: PodPortMapping, other: PodPortMapping, ms: seq<PortMapping>)
    ensures ChainsOf(PortsOf(digest, id, pod, ms)) == ChainsOf(PortsOf(digest, id, other, ms))
  {
    if ms != [] {
      ChainsFromMappings(digest, id, pod, other, ms[1..]);
      assert PortsOf(digest, id, pod, ms)[1..] == PortsOf(digest, id, pod, ms[1..]);
      assert PortsOf(digest, id, other, ms)[1..] == PortsOf(digest, id, other, ms[1..]);
    }
  }

  /** Requests for an ordinary cluster: different sandboxes have different hashes, and no name or
      address of an added pod looks like a chain. */
  ghost predicate Cluster(digest: Digest, requests: seq<Request>) {
    && Hashes(digest)
    && (forall i :: 0 <= i < |requests| ==> Collisionless(digest, requests[i].entry))
    && (forall j :: 0 <= j < |requests| && requests[j].AddFor? ==> Ordinary(requests[j].entry))
    && (forall i, j :: 0 <= i < |requests| && 0 <= j < |requests| ==>
         SameSandbox(requests[i].entry, requests[j].entry) || Apart(digest, requests[i].entry, requests[j].entry))
  }

  /** A table the manager can start from: it has neither the pods' chains nor rules that name them,
      and no chain holds a rule twice. */
  ghost predicate Startable(digest: Digest, t: Table, requests: seq<Request>) {
    Cluster(digest, requests) && DistinctRules(t) &&
    forall i :: 0 <= i < |requests| ==>
      Absent(t, Ports(digest, requests[i].entry)) && Unmentioned(t, Ports(digest, requests[i].entry))
  }

  /** Such requests meet every assumption of the run theorems. */
  lemma ClusterOrderly(digest: Digest, t: Table, requests: seq<Request>)
    requires Startable(digest, t, requests)
    ensures Orderly(t, OpsOf(digest, requests))
  {
    var ops := OpsOf(digest, requests);
    forall i | 0 <= i < |ops|
      ensures CleanFor(t, ops[i].pod)
    {
      GoodEntry(digest, requests[i].entry);
      assert Absent(t, Ports(digest, requests[i].entry)) && Unmentioned(t, ops[i].pod);
    }
    forall i, j | 0 <= i < |ops| && 0 <= j < |ops| && ops[j].AddPod?
      ensures Foreign(ops[i].pod, ops[j].pod)
    {
      var a, b := requests[i].entry, requests[j].entry;
      if SameSandbox(a, b) {
        SandboxChains(digest, b, a);
      } else {
        EntriesSilent(digest, a, b);
      }
    }
  }

  /** The life of a sandbox as the server drives it: an Add, and a Remove for the same ID and mappings
      with whatever name and address. It is a run of the kind the theorems are about, and leaves the
      table with just the base chains. */
  lemma {:induction false} ServerLife(digest: Digest, t: Table, e: Entry, gone: Entry)
    requires Hashes(digest) && Collisionless(digest, e) && Ordinary(e) && DistinctRules(t) && SameSandbox(e, gone)
    requires Absent(t, Ports(digest, e)) && Unmentioned(t, Ports(digest, e)) && e.ms != []
    ensures Startable(digest, t, [AddFor(e), RemoveFor(gone)])
    ensures Exec(t, OpsOf(digest, [AddFor(e), RemoveFor(gone)])) == EnsureBase(t)
  {
    var p, q := Ports(digest, e), Ports(digest, gone);
    SandboxChains(digest, e, gone);
    LifeStartable(digest, t, e, gone);
    GoodEntry(digest, e);
    AddThenRemove(t, p, q);
    assert OpsOf(digest, [AddFor(e), RemoveFor(gone)]) == [AddPod(p), RemovePod(q)];
  }

  lemma LifeStartable(digest: Digest, t: Table, e: Entry, gone: Entry)
    requires Hashes(digest) && Collisionless(digest, e) && Ordinary(e) && DistinctRules(t) && SameSandbox(e, gone)
    requires Absent(t, Ports(digest, e)) && Unmentioned(t, Ports(digest, e))
    ensures Startable(digest, t, [AddFor(e), RemoveFor(gone)])
  {
    SandboxChains(digest, e, gone);
    forall i, j | 0 <= i < j < |gone.ms|
      ensures DigestOf(digest, gone, i) != DigestOf(digest, gone, j)
    {
      assert DigestOf(digest, e, i) != DigestOf(digest, e, j);
    }
  }

  lemma {:induction false} AddThenRemove(t: Table, p: Pod, q: Pod)
    requires GoodPod(p) && p != [] && SameChains(p, q) && Absent(t, p) && Unmentioned(t, p) && DistinctRules(t)
    ensures Exec(t, [AddPod(p), RemovePod(q)]) == EnsureBase(t)
  {
    var ops := [AddPod(p), RemovePod(q)];
    assert ops[..1] == [AddPod(p)] && [AddPod(p)][..0] == [];
    assert Exec(t, [AddPod(p)]) == AddResult(t, p);
    RemoveUndoesAddExactly(t, p, q);
  }

  /** After any run of the manager's Adds and Removes every live port has its
      two chains with their single rules, and exactly one rule of each dispatch chain names it. */
  lemma {:induction false} ManagerDispatchIntact(digest: Digest, t: Table, requests: seq<Request>, k: nat, i: nat, c: Chain)
    requires Startable(digest, t, requests) && k < |requests| && i < |requests[k].entry.ms| && IsDispatch(c)
    requires requests[k].AddFor? && Ports(digest, requests[k].entry) in LiveAfter(OpsOf(digest, requests))
    ensures var u, p := Exec(t, OpsOf(digest, requests)), Ports(digest, requests[k].entry)[i];
            && p.hp in u && u[p.hp] == [p.dnat]
            && p.masq in u && u[p.masq] == [p.snat]
            && c in u
            && exists n: nat :: OnlyJump(u[c], p, c, n)
  {
    var e := requests[k].entry;
    ClusterOrderly(digest, t, requests);
    EntryTargets(digest, e, c);
    DispatchIntact(t, OpsOf(digest, requests), Ports(digest, e), i, c);
  }

  /** A sandbox added and neither added again nor removed since is live. */
  lemma {:induction false} ManagerLive(digest: Digest, requests: seq<Request>, k: nat)
    requires k < |requests| && requests[k].AddFor? && requests[k].entry.ms != [] && Hashes(digest)
    requires forall i :: k < i < |requests| ==>
               Apart(digest, requests[i].entry, requests[k].entry)
    ensures Ports(digest, requests[k].entry) in LiveAfter(OpsOf(digest, requests))
    decreases |requests|
  {
    var n, p := |requests| - 1, Ports(digest, requests[k].entry);
    var ops := OpsOf(digest, requests);
    assert ops[..n] == OpsOf(digest, requests[..n]);
    if k < n {
      ManagerLive(digest, requests[..n], k);
      ApartChains(digest, requests[n].entry, requests[k].entry);
      WithoutIs(LiveAfter(ops[..n]), ops[n].pod);
    } else {
      assert ops[n] == AddPod(p);
    }
  }

  lemma {:induction false} ApartChains(digest: Digest, a: Entry, b: Entry)
    requires Hashes(digest) && Apart(digest, a, b) && b.ms != []
    ensures !SameChains(Ports(digest, b), Ports(digest, a))
  {
    var p, q := Ports(digest, a), Ports(digest, b);
    assert q[0].hp in ChainsOf(q);
    if q[0].hp in ChainsOf(p) {
      var i := ChainFrom(p, q[0].hp);
      DifferentHashes(digest, a, i, b, 0);
    }
  }

  /** In any run of the manager's Adds and Removes, when a removal comes to its deletions no rule of
      any other chain names a chain that is to be deleted, provided none outside the manager's
      reach did at first. */
  lemma {:induction false} ManagerNoReference(digest: Digest, t: Table, requests: seq<Request>, e: Entry, c: Chain, r: Rule, x: Chain)
    requires Startable(digest, t, requests + [RemoveFor(e)]) && NotNamedOutside(t, Ports(digest, e))
    requires var p, u := Ports(digest, e), Exec(t, OpsOf(digest, requests));
             x in ChainsOf(p) && c != x && c in AtDelete(u, p) && r in AtDelete(u, p)[c]
    ensures !Contains(RuleText(c, r), x)
  {
    var all, ops := requests + [RemoveFor(e)], OpsOf(digest, requests);
    ClusterOrderly(digest, t, all);
    assert OpsOf(digest, all) == ops + [RemovePod(Ports(digest, e))];
    LiveAfterOk(ops);
    forall q | q in LiveAfter(ops)
      ensures OwnRulesApart(q)
    {
      var j :| 0 <= j < |ops| && ops[j] == AddPod(q);
      assert all[j] == requests[j];
      EntryRulesApart(digest, requests[j].entry);
    }
    NoReferenceWhenDeleted(t, ops, Ports(digest, e), c, r, x);
  }

  /** After a removal, in any run, nothing is left of the sandbox: none of its chains, and no rule
      that names one. */
  lemma {:induction false} ManagerNothingLeft(digest: Digest, t: Table, requests: seq<Request>, e: Entry, x: Chain)
    requires Startable(digest, t, requests + [RemoveFor(e)]) && NotNamedOutside(t, Ports(digest, e)) && x in ChainsOf(Ports(digest, e))
    ensures var u := Exec(t, OpsOf(digest, requests + [RemoveFor(e)]));
            x !in u && forall c, r :: c in u && r in u[c] ==> !Contains(RuleText(c, r), x)
  {
    ClusterOrderly(digest, t, requests + [RemoveFor(e)]);
    assert OpsOf(digest, requests + [RemoveFor(e)]) == OpsOf(digest, requests) + [RemovePod(Ports(digest, e))];
    NothingLeft(t, OpsOf(digest, requests), Ports(digest, e), x);
  }
}
