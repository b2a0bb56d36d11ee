/** Port forwarding rules of pods (internal/hostport): what Add and Remove write, and what the
    NAT table is afterwards. */
module Hostport {
  import opened Options
  import opened Sequences
  import opened Text
  import opened Iptables

  const KUBE_HOSTPORTS: Chain := "KUBE-HOSTPORTS"
  const KUBE_HP_PREFIX := "KUBE-HP-"
  const CRIO_HOSTPORTS_MASQ: Chain := "CRIO-HOSTPORTS-MASQ"
  const CRIO_MASQ_PREFIX := "CRIO-MASQ-"

  predicate IsHostport(c: Chain) {
    c == KUBE_HOSTPORTS || c == CRIO_HOSTPORTS_MASQ || HasPrefix(c, KUBE_HP_PREFIX) || HasPrefix(c, CRIO_MASQ_PREFIX)
  }

  /** The two chains of one forwarded port and the four rules Add writes for it: a jump from
      each dispatch chain, and the single rule of each of its own chains. */
  datatype Port = Port(hp: Chain, masq: Chain, jump: Rule, masqJump: Rule, dnat: Rule, snat: Rule)

  function PortChains(p: Port): seq<Chain> {
    [p.hp, p.masq]
  }

  function PortLines(p: Port): seq<Line> {
    [Insert(KUBE_HOSTPORTS, p.jump), Insert(CRIO_HOSTPORTS_MASQ, p.masqJump), Append(p.hp, p.dnat), Append(p.masq, p.snat)]
  }

  function ChainsOf(ports: seq<Port>): seq<Chain> {
    if ports == [] then [] else PortChains(ports[0]) + ChainsOf(ports[1..])
  }

  function LinesOf(ports: seq<Port>): seq<Line> {
    if ports == [] then [] else PortLines(ports[0]) + LinesOf(ports[1..])
  }

  function ChainLines(chains: seq<Chain>): (r: seq<Line>)
    ensures |r| == |chains| && forall i :: 0 <= i < |r| ==> r[i] == ChainLine(chains[i])
  {
    seq(|chains|, i requires 0 <= i < |chains| => ChainLine(chains[i]))
  }

  function DeleteLines(chains: seq<Chain>): (r: seq<Line>)
    ensures |r| == |chains| && forall i :: 0 <= i < |r| ==> r[i] == Delete(chains[i])
  {
    seq(|chains|, i requires 0 <= i < |chains| => Delete(chains[i]))
  }

  // ---- what is read back from iptables-save ----

  function Block(c: Chain, rules: seq<Rule>): (r: seq<Line>)
    ensures |r| == |rules| && forall i :: 0 <= i < |r| ==> r[i] == Append(c, rules[i])
  {
    seq(|rules|, i requires 0 <= i < |rules| => Append(c, rules[i]))
  }

  /** The rule lines of hostport chains, the chains in the order of the save. */
  function Existing(t: Table, order: seq<Chain>): seq<Line> {
    if order == [] then []
    else (if IsHostport(order[0]) then Block(order[0], RulesAt(t, order[0])) else []) + Existing(t, order[1..])
  }

  function RuleText(c: Chain, r: Rule): string {
    "-A " + c + " " + r
  }

  /** strings.Contains on the saved line: the rule's own chain counts too. */
  ghost predicate Mentions(c: Chain, r: Rule, filters: seq<Chain>) {
    exists f :: f in filters && Contains(RuleText(c, r), f)
  }

  ghost function KeptRules(c: Chain, rules: seq<Rule>, filters: seq<Chain>): seq<Rule> {
    if rules == [] then []
    else (if Mentions(c, rules[0], filters) then [] else [rules[0]]) + KeptRules(c, rules[1..], filters)
  }

  /** filterRules */
  ghost function KeptLines(lines: seq<Line>, filters: seq<Chain>): seq<Line> {
    if lines == [] then []
    else (if lines[0].Append? && Mentions(lines[0].chain, lines[0].rule, filters) then [] else [lines[0]])
         + KeptLines(lines[1..], filters)
  }

  // ---- the input handed to iptables-restore ----

  ghost predicate Enumerates(s: seq<Chain>, x: set<Chain>) {
    NoDuplicates(s) && forall e :: e in s <==> e in x
  }

  ghost function HostportChains(t: Table): set<Chain> {
    set c | c in t && IsHostport(c)
  }

  /** `order` is the order of chains in the save, `rest` the order in which the surviving chain
      lines are written; both are arbitrary. */
  ghost function AddLines(t: Table, ports: seq<Port>, order: seq<Chain>, rest: seq<Chain>): seq<Line> {
    [TableLine] + ChainLines(ChainsOf(ports)) + ChainLines(rest)
    + LinesOf(ports) + KeptLines(Existing(t, order), ChainsOf(ports)) + [Commit]
  }

  /** `rest` lists every hostport chain, `gone` those of the pod's chains that exist. */
  ghost function RemoveLines(t: Table, ports: seq<Port>, order: seq<Chain>, rest: seq<Chain>, gone: seq<Chain>): seq<Line> {
    [TableLine] + ChainLines(rest) + KeptLines(Existing(t, order), ChainsOf(ports)) + DeleteLines(gone) + [Commit]
  }

  // ---- the table afterwards, independent of any order ----

  function AppendAll(rules: seq<Rule>, more: seq<Rule>): seq<Rule>
    decreases |more|
  {
    if more == [] then rules else AppendAll(Appended(rules, more[0]), more[1..])
  }

  /** What the pod's own lines put into an empty chain. */
  function Fresh(ports: seq<Port>, c: Chain): seq<Rule> {
    RulesOf(Effects(Some([]), LinesOf(ports), c, true))
  }

  ghost function AddedRules(t: Table, ports: seq<Port>, c: Chain): seq<Rule> {
    if IsHostport(c) then AppendAll(Fresh(ports, c), KeptRules(c, RulesAt(t, c), ChainsOf(ports))) else RulesAt(t, c)
  }

  ghost function AddedTable(t: Table, ports: seq<Port>): Table {
    map c | c in t.Keys + (set c | c in ChainsOf(ports)) :: AddedRules(t, ports, c)
  }

  ghost function RemovedTable(t: Table, ports: seq<Port>): Table {
    map c | c in t && c !in ChainsOf(ports) ::
      if IsHostport(c) then AppendAll([], KeptRules(c, t[c], ChainsOf(ports))) else t[c]
  }

  /** Remove does nothing when none of the pod's chains exists. */
  ghost function RemoveResult(t: Table, ports: seq<Port>): Table {
    if exists c :: c in ChainsOf(ports) && c in t then RemovedTable(t, ports) else t
  }

  // ---- base set-up ----

  const PORTALS_WORDS: seq<string> :=
    ["-m", "comment", "--comment", "\"kube hostport portals\"", "-m", "addrtype", "--dst-type", "LOCAL", "-j", KUBE_HOSTPORTS]
  const MASQ_WORDS: seq<string> :=
    ["-m", "comment", "--comment", "\"kube hostport masquerading\"", "-m", "conntrack", "--ctstate", "DNAT", "-j", CRIO_HOSTPORTS_MASQ]
  const PORTALS_JUMP: Rule := Join(PORTALS_WORDS)
  const MASQ_JUMP: Rule := Join(MASQ_WORDS)

  function WithChain(t: Table, c: Chain): Table {
    t[c := RulesAt(t, c)]
  }

  function WithRule(t: Table, c: Chain, r: Rule): Table {
    t[c := Appended(RulesAt(t, c), r)]
  }

  /** ensureKubeHostportChains */
  function EnsureBase(t: Table): Table {
    WithRule(WithChain(WithRule(WithRule(WithChain(t, KUBE_HOSTPORTS),
      "OUTPUT", PORTALS_JUMP), "PREROUTING", PORTALS_JUMP), CRIO_HOSTPORTS_MASQ), "POSTROUTING", MASQ_JUMP)
  }

  // ---- well-formed pods ----

  /** Chains named by prefix, all of them different; jumps differ and name their chain. */
  ghost predicate GoodPort(p: Port) {
    && HasPrefix(p.hp, KUBE_HP_PREFIX) && HasPrefix(p.masq, CRIO_MASQ_PREFIX)
    && Contains(p.jump, p.hp) && Contains(p.masqJump, p.masq)
  }

  ghost predicate GoodPod(ports: seq<Port>) {
    && (forall p :: p in ports ==> GoodPort(p))
    && (forall i, j :: 0 <= i < j < |ports| ==> DifferentPorts(ports[i], ports[j]))
  }

  predicate DifferentPorts(p: Port, q: Port) {
    p.hp != q.hp && p.masq != q.masq && p.jump != q.jump && p.masqJump != q.masqJump
  }

  // ---- texts that name no port's chain ----

  /** Neither prefix of a port's chain stands in the text. */
  ghost predicate Free(s: string) {
    !Contains(s, KUBE_HP_PREFIX) && !Contains(s, CRIO_MASQ_PREFIX)
  }

  lemma FreeOfCapitals(s: string)
    requires 'K' !in s && 'C' !in s
    ensures Free(s)
  {
    AbsentStart(s, KUBE_HP_PREFIX);
    AbsentStart(s, CRIO_MASQ_PREFIX);
  }

  lemma FreeAcross(a: string, sep: char, b: string)
    requires Free(a) && Free(b) && (sep == ' ' || sep == '"' || sep == '/' || sep == ':' || sep == '[' || sep == ']')
    ensures Free(a + [sep] + b)
  {
    if Contains(a + [sep] + b, KUBE_HP_PREFIX) {
      ContainsAcross(a, sep, b, KUBE_HP_PREFIX);
    }
    if Contains(a + [sep] + b, CRIO_MASQ_PREFIX) {
      ContainsAcross(a, sep, b, CRIO_MASQ_PREFIX);
    }
  }

  lemma DispatchNamesFree()
    ensures Free(KUBE_HOSTPORTS) && Free(CRIO_HOSTPORTS_MASQ)
  {
    AbsentStart(KUBE_HOSTPORTS, CRIO_MASQ_PREFIX);
    AbsentStart(CRIO_HOSTPORTS_MASQ, KUBE_HP_PREFIX);
    forall i: nat | i + 8 <= |KUBE_HOSTPORTS|
      ensures !OccursAt(KUBE_HOSTPORTS, KUBE_HP_PREFIX, i)
    {
      assert KUBE_HOSTPORTS[i..i + 8][0] == KUBE_HOSTPORTS[i] && KUBE_HOSTPORTS[i..i + 8][6] == KUBE_HOSTPORTS[i + 6];
    }
    forall i: nat | i + 10 <= |CRIO_HOSTPORTS_MASQ|
      ensures !OccursAt(CRIO_HOSTPORTS_MASQ, CRIO_MASQ_PREFIX, i)
    {
      assert CRIO_HOSTPORTS_MASQ[i..i + 10][0] == CRIO_HOSTPORTS_MASQ[i] && CRIO_HOSTPORTS_MASQ[i..i + 10][5] == CRIO_HOSTPORTS_MASQ[i + 5];
    }
  }

  lemma {:induction false} RuleWords(c: Chain, words: seq<string>)
    requires words != []
    ensures RuleText(c, Join(words)) == Join(["-A", c] + words)
  {
    JoinConcat(["-A", c], words);
    assert ["-A", c][1..] == [c];
    assert Join(["-A", c]) == "-A" + " " + c;
  }

  ghost predicate AllFree(words: seq<string>) {
    forall k :: 0 <= k < |words| ==> Free(words[k])
  }

  lemma {:induction false} FreeJoin(words: seq<string>)
    requires AllFree(words)
    ensures Free(Join(words))
  {
    if Contains(Join(words), KUBE_HP_PREFIX) {
      ContainsWord(words, KUBE_HP_PREFIX);
    }
    if Contains(Join(words), CRIO_MASQ_PREFIX) {
      ContainsWord(words, CRIO_MASQ_PREFIX);
    }
  }

  /** The jumps of the base set-up name no port's chain. */
  lemma BaseJumpFree(c: Chain)
    requires Free(c)
    ensures Free(RuleText(c, PORTALS_JUMP)) && Free(RuleText(c, MASQ_JUMP))
  {
    FreeOfCapitals("-A");
    PortalsFree();
    RuleWords(c, PORTALS_WORDS);
    FreeJoin(["-A", c] + PORTALS_WORDS);
    MasqueradingFree();
    RuleWords(c, MASQ_WORDS);
    FreeJoin(["-A", c] + MASQ_WORDS);
  }

  lemma PortalsFree()
    ensures AllFree(PORTALS_WORDS)
  {
    DispatchNamesFree();
    AbsentStart("LOCAL", KUBE_HP_PREFIX);
    assert Free("LOCAL");
    forall k | 0 <= k < 7 || k == 8
      ensures Free(PORTALS_WORDS[k])
    {
      FreeOfCapitals(PORTALS_WORDS[k]);
    }
  }

  lemma MasqueradingFree()
    ensures AllFree(MASQ_WORDS)
  {
    DispatchNamesFree();
    forall k | 0 <= k < 9
      ensures Free(MASQ_WORDS[k])
    {
      FreeOfCapitals(MASQ_WORDS[k]);
    }
  }
}
