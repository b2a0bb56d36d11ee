/** What the rules of the hostport manager do to packets: after any run a packet for a forwarded port
    reaches the pod, and every other packet is left alone. */
module HostportPackets {
  import opened Options
  import opened Sequences
  import opened Text
  import opened Iptables
  import opened Hostport
  import opened HostportUndo
  import opened HostportRuns
  import opened HostportManager
  import opened HostportPods
  import opened HostportWords
  import opened RuleSyntax
  import opened Packets

  // ---- what is promised of a mapping ----

  /** The host address the mapping is bound to is that of the packet; no address, and those that stand
      for all, admit every packet. A text that is no address is compared as it stands. */
  predicate Covers(pm: PortMapping, pk: Packet) {
    || pm.hostIP == "" || pm.hostIP == "0.0.0.0" || pm.hostIP == "::"
    || (pm.hostFamily == pk.family && pm.hostIP == pk.dest)
    || (pm.hostFamily.NotIP? && pm.hostIP == HostAddress(pk, pk.dest))
  }

  /** The packet is for the host port of the mapping. */
  predicate Serves(pm: PortMapping, pk: Packet) {
    Lower(pm.protocol) == pk.protocol && pm.hostPort == pk.port && Covers(pm, pk)
  }

  function Endpoint(ip: PodIP, port: int): string {
    match ip
    case Invalid => ":" + Itoa(port)
    case V4(text) => text + ":" + Itoa(port)
    case V6(text) => "[" + text + "]:" + Itoa(port)
  }

  /** The packet comes from the pod, for the host port of the mapping, and has been sent back to it. */
  predicate Hairpin(pod: PodPortMapping, pm: PortMapping, pk: Packet) {
    && !pod.ip.Invalid? && pk.source == pod.ip.text && pk.dest == pod.ip.text && (pk.family.IPv6? <==> pod.ip.V6?)
    && Lower(pm.protocol) == pk.protocol && pk.port == pm.containerPort && pk.translated && pk.originally == pm.hostPort
  }

  // ---- reading words ----

  ghost predicate Reads(words: seq<string>, pk: Packet, matches: bool, target: Option<string>, to: Option<string>) {
    && |words| % 2 == 0
    && (Matches(Args(words), pk) <==> matches)
    && Value(Args(words), "-j") == target && Value(Args(words), "--to-destination") == to
  }

  function First(a: Option<string>, b: Option<string>): Option<string> {
    if a.Some? then a else b
  }

  lemma {:induction false} ReadsConcat(a: seq<string>, b: seq<string>, pk: Packet,
      m: bool, target: Option<string>, to: Option<string>, m': bool, target': Option<string>, to': Option<string>)
    requires Reads(a, pk, m, target, to) && Reads(b, pk, m', target', to')
    ensures Reads(a + b, pk, m && m', First(target, target'), First(to, to'))
  {
    ArgsConcat(a, b);
    MatchesConcat(Args(a), Args(b), pk);
    ValueConcat(Args(a), Args(b), "-j");
    ValueConcat(Args(a), Args(b), "--to-destination");
  }

  lemma PairReads(option: string, value: string, pk: Packet)
    ensures Reads([option, value], pk, Admits(Arg(option, value), pk), if option == "-j" then Some(value) else None, if option == "--to-destination" then Some(value) else None)
  {
    assert Args([option, value]) == [Arg(option, value)];
    assert [Arg(option, value)][1..] == [];
  }

  /** An option that neither matches nor decides. */
  predicate Idle(option: string) {
    option !in ["-p", "--dport", "-s", "-d", "--dst-type", "--ctstate", "--ctorigdstport", "-j", "--to-destination"]
  }

  lemma OptionNames()
    ensures Idle("-m") && Idle("--comment")
    ensures "-p" != "-j" && "-s" != "-j" && "-d" != "-j" && "-p" != "-s" && "-p" != "-d" && "-s" != "-d"
    ensures "--dport" != "--ctstate" && "--dst-type" != "--ctstate" && "--dst-type" != "--comment" && "--ctstate" != "--comment"
  {
    assert "-m"[1] == 'm' && "-p"[1] == 'p' && "-s"[1] == 's' && "-d"[1] == 'd' && "-j"[1] == 'j';
    assert "--comment"[2] == 'c' && "--comment"[3] == 'o' && "--ctstate"[3] == 't' && "--dst-type"[2] == 'd';
  }

  lemma IdleReads(option: string, value: string, pk: Packet)
    requires Idle(option)
    ensures Reads([option, value], pk, true, None, None)
  {
    PairReads(option, value, pk);
  }

  lemma CommonReads(pod: PodPortMapping, pm: PortMapping, pk: Packet)
    ensures Reads(CommentWords(pod, pm), pk, true, None, None)
    ensures Reads(MatchWords(pm), pk, Lower(pm.protocol) == pk.protocol, None, None)
  {
    OptionNames();
    IdleReads("-m", "comment", pk);
    IdleReads("--comment", Quoted(pod, pm), pk);
    ReadsConcat(["-m", "comment"], ["--comment", Quoted(pod, pm)], pk, true, None, None, true, None, None);
    assert ["-m", "comment"] + ["--comment", Quoted(pod, pm)] == CommentWords(pod, pm);
    var protocol := Lower(pm.protocol);
    IdleReads("-m", protocol, pk);
    PairReads("-p", protocol, pk);
    ReadsConcat(["-m", protocol], ["-p", protocol], pk, true, None, None, protocol == pk.protocol, None, None);
    assert ["-m", protocol] + ["-p", protocol] == MatchWords(pm);
  }

  lemma JumpReads(pod: PodPortMapping, pm: PortMapping, chain: Chain, pk: Packet)
    ensures Reads(JumpWords(pod, pm) + [chain], pk, Lower(pm.protocol) == pk.protocol && pm.hostPort == pk.port, Some(chain), None)
  {
    var start, n := CommentWords(pod, pm) + MatchWords(pm), Itoa(pm.hostPort);
    OptionNames();
    CommonReads(pod, pm, pk);
    NumberOf(pm.hostPort);
    ReadsConcat(CommentWords(pod, pm), MatchWords(pm), pk, true, None, None, Lower(pm.protocol) == pk.protocol, None, None);
    PairReads("--dport", n, pk);
    ReadsConcat(start, ["--dport", n], pk, Lower(pm.protocol) == pk.protocol, None, None, pm.hostPort == pk.port, None, None);
    PairReads("-j", chain, pk);
    ReadsConcat(start + ["--dport", n], ["-j", chain], pk, Lower(pm.protocol) == pk.protocol && pm.hostPort == pk.port, None, None, true, Some(chain), None);
    assert start + ["--dport", n] + ["-j", chain] == JumpWords(pod, pm) + [chain];
  }

  lemma MasqJumpReads(pod: PodPortMapping, pm: PortMapping, chain: Chain, pk: Packet)
    ensures Reads(MasqJumpWords(pod, pm) + [chain], pk, true, Some(chain), None)
  {
    OptionNames();
    CommonReads(pod, pm, pk);
    PairReads("-j", chain, pk);
    ReadsConcat(CommentWords(pod, pm), ["-j", chain], pk, true, None, None, true, Some(chain), None);
    assert CommentWords(pod, pm) + ["-j", chain] == MasqJumpWords(pod, pm) + [chain];
  }

  lemma SameAddress(text: string, family: Family, pk: Packet, address: string)
    requires !pk.family.NotIP?
    ensures Prefixed(text, family) == HostAddress(pk, address) <==>
            (family == pk.family && text == address) || (family.NotIP? && text == HostAddress(pk, address))
  {
    var a, b := Prefixed(text, family), HostAddress(pk, address);
    if a == b && !family.NotIP? {
      assert a[|a| - 1] == b[|b| - 1];
      assert family == pk.family;
      assert a[..|text|] == text && b[..|address|] == address && |text| == |address|;
    }
  }

  lemma HostReads(pm: PortMapping, pk: Packet)
    requires !pk.family.NotIP?
    ensures Reads(HostWords(pm), pk, Covers(pm, pk), None, None)
  {
    OptionNames();
    if Restricted(pm) {
      PairReads("-d", Prefixed(pm.hostIP, pm.hostFamily), pk);
      SameAddress(pm.hostIP, pm.hostFamily, pk, pk.dest);
    } else {
      assert Args([]) == [];
    }
  }

  lemma DnatStartReads(pod: PodPortMapping, pm: PortMapping, pk: Packet)
    requires !pk.family.NotIP?
    ensures Reads(CommentWords(pod, pm) + MatchWords(pm) + HostWords(pm), pk, Lower(pm.protocol) == pk.protocol && Covers(pm, pk), None, None)
  {
    var same := Lower(pm.protocol) == pk.protocol;
    CommonReads(pod, pm, pk);
    ReadsConcat(CommentWords(pod, pm), MatchWords(pm), pk, true, None, None, same, None, None);
    HostReads(pm, pk);
    ReadsConcat(CommentWords(pod, pm) + MatchWords(pm), HostWords(pm), pk, same, None, None, Covers(pm, pk), None, None);
  }

  lemma DnatEndReads(to: string, pk: Packet)
    ensures Reads(["-j", "DNAT", "--to-destination", to], pk, true, Some("DNAT"), Some(to))
  {
    OptionNames();
    PairReads("-j", "DNAT", pk);
    PairReads("--to-destination", to, pk);
    ReadsConcat(["-j", "DNAT"], ["--to-destination", to], pk, true, Some("DNAT"), None, true, None, Some(to));
    assert ["-j", "DNAT"] + ["--to-destination", to] == ["-j", "DNAT", "--to-destination", to];
  }

  lemma DnatReads(pod: PodPortMapping, pm: PortMapping, pk: Packet)
    requires !pk.family.NotIP?
    ensures Reads(DnatWords(pod, pm), pk, Lower(pm.protocol) == pk.protocol && Covers(pm, pk), Some("DNAT"), Some(Endpoint(pod.ip, pm.containerPort)))
  {
    var matches, to := Lower(pm.protocol) == pk.protocol && Covers(pm, pk), Endpoint(pod.ip, pm.containerPort);
    var start := CommentWords(pod, pm) + MatchWords(pm) + HostWords(pm);
    DnatStartReads(pod, pm, pk);
    DnatEndReads(to, pk);
    ReadsConcat(start, ["-j", "DNAT", "--to-destination", to], pk, matches, None, None, true, Some("DNAT"), Some(to));
    SameEndpoint(pod.ip, pm.containerPort);
  }

  lemma SameEndpoint(ip: PodIP, port: int)
    ensures Binding(ip, port) == Endpoint(ip, port)
  {
    assert "" + ":" + Itoa(port) == ":" + Itoa(port);
  }

  lemma AddressReads(ip: PodIP, pk: Packet)
    requires !pk.family.NotIP? && !ip.Invalid?
    ensures var a := Prefixed(IPText(ip), IPFamily(ip));
            Reads(["-s", a, "-d", a], pk, (pk.family.IPv6? <==> ip.V6?) && pk.source == ip.text && pk.dest == ip.text, None, None)
  {
    var a := Prefixed(IPText(ip), IPFamily(ip));
    OptionNames();
    PairReads("-s", a, pk);
    PairReads("-d", a, pk);
    SameAddress(ip.text, IPFamily(ip), pk, pk.source);
    SameAddress(ip.text, IPFamily(ip), pk, pk.dest);
    var same := IPFamily(ip) == pk.family;
    ReadsConcat(["-s", a], ["-d", a], pk, same && pk.source == ip.text, None, None, same && pk.dest == ip.text, None, None);
    assert ["-s", a] + ["-d", a] == ["-s", a, "-d", a];
  }

  lemma TrackReads(pod: PodPortMapping, pm: PortMapping, pk: Packet)
    ensures var track := ["-m", "conntrack", "--ctorigdstport", Itoa(pm.hostPort)];
            Reads(CommentWords(pod, pm) + track, pk, pk.translated && pk.originally == pm.hostPort, None, None)
  {
    var n, tracked := Itoa(pm.hostPort), pk.translated && pk.originally == pm.hostPort;
    OptionNames();
    CommonReads(pod, pm, pk);
    IdleReads("-m", "conntrack", pk);
    NumberOf(pm.hostPort);
    PairReads("--ctorigdstport", n, pk);
    ReadsConcat(["-m", "conntrack"], ["--ctorigdstport", n], pk, true, None, None, tracked, None, None);
    assert ["-m", "conntrack"] + ["--ctorigdstport", n] == ["-m", "conntrack", "--ctorigdstport", n];
    ReadsConcat(CommentWords(pod, pm), ["-m", "conntrack", "--ctorigdstport", n], pk, true, None, None, tracked, None, None);
  }

  lemma SnatStartReads(pod: PodPortMapping, pm: PortMapping, pk: Packet)
    ensures Reads(SnatStart(pod, pm), pk,
              pk.translated && pk.originally == pm.hostPort && Lower(pm.protocol) == pk.protocol && pm.containerPort == pk.port, None, None)
  {
    var n, same, tracked := Itoa(pm.containerPort), Lower(pm.protocol) == pk.protocol, pk.translated && pk.originally == pm.hostPort;
    var start := CommentWords(pod, pm) + ["-m", "conntrack", "--ctorigdstport", Itoa(pm.hostPort)];
    OptionNames();
    TrackReads(pod, pm, pk);
    CommonReads(pod, pm, pk);
    ReadsConcat(start, MatchWords(pm), pk, tracked, None, None, same, None, None);
    NumberOf(pm.containerPort);
    PairReads("--dport", n, pk);
    ReadsConcat(start + MatchWords(pm), ["--dport", n], pk, tracked && same, None, None, pm.containerPort == pk.port, None, None);
  }

  lemma SnatEndReads(ip: PodIP, pk: Packet)
    requires !pk.family.NotIP? && !ip.Invalid?
    ensures var a := Prefixed(IPText(ip), IPFamily(ip));
            Reads(["-s", a, "-d", a, "-j", "MASQUERADE"], pk,
              (pk.family.IPv6? <==> ip.V6?) && pk.source == ip.text && pk.dest == ip.text, Some("MASQUERADE"), None)
  {
    var a := Prefixed(IPText(ip), IPFamily(ip));
    OptionNames();
    AddressReads(ip, pk);
    PairReads("-j", "MASQUERADE", pk);
    ReadsConcat(["-s", a, "-d", a], ["-j", "MASQUERADE"], pk,
      (pk.family.IPv6? <==> ip.V6?) && pk.source == ip.text && pk.dest == ip.text, None, None, true, Some("MASQUERADE"), None);
    assert ["-s", a, "-d", a] + ["-j", "MASQUERADE"] == ["-s", a, "-d", a, "-j", "MASQUERADE"];
  }

  lemma SnatReads(pod: PodPortMapping, pm: PortMapping, pk: Packet)
    requires !pk.family.NotIP? && !pod.ip.Invalid?
    ensures Reads(SnatWords(pod, pm), pk, Hairpin(pod, pm, pk), Some("MASQUERADE"), None)
  {
    var a := Prefixed(IPText(pod.ip), IPFamily(pod.ip));
    SnatStartReads(pod, pm, pk);
    SnatEndReads(pod.ip, pk);
    ReadsConcat(SnatStart(pod, pm), ["-s", a, "-d", a, "-j", "MASQUERADE"], pk,
      pk.translated && pk.originally == pm.hostPort && Lower(pm.protocol) == pk.protocol && pm.containerPort == pk.port, None, None,
      (pk.family.IPv6? <==> pod.ip.V6?) && pk.source == pod.ip.text && pk.dest == pod.ip.text, Some("MASQUERADE"), None);
    SnatTail(pod, pm, a);
  }

  // ---- meeting the rules of a port ----

  /** A chain's name is no target of its own. */
  predicate ChainName(c: Chain) {
    c != "DNAT" && c != "MASQUERADE" && c != "ACCEPT" && c != "RETURN"
  }

  lemma PrefixedNames(c: Chain)
    requires HasPrefix(c, KUBE_HP_PREFIX) || HasPrefix(c, CRIO_MASQ_PREFIX) || IsDispatch(c)
    ensures ChainName(c)
  {
    assert HasPrefix(c, KUBE_HP_PREFIX) ==> c[..8][0] == c[0];
    assert HasPrefix(c, CRIO_MASQ_PREFIX) ==> c[..10][0] == c[0];
    assert c[0] == 'K' || c[0] == 'C';
    assert "DNAT"[0] == 'D' && "MASQUERADE"[0] == 'M' && "ACCEPT"[0] == 'A' && "RETURN"[0] == 'R';
  }

  lemma {:induction false} JumpMeets(t: Table, words: seq<string>, pk: Packet, depth: nat, matches: bool, c: Chain)
    requires AllWords(words) && Reads(words, pk, matches, Some(c), None) && ChainName(c) && c in t && depth > 0
    ensures var v := Walk(t, t[c], pk, depth - 1);
            Meet(t, Join(words), pk, depth) == if !matches || v.Returned? then Passed else v
  {
    WordsOf(words);
  }

  lemma {:induction false} TargetMeets(t: Table, words: seq<string>, pk: Packet, depth: nat, matches: bool, to: Option<string>)
    requires AllWords(words)
    ensures Reads(words, pk, matches, Some("DNAT"), to) && to.Some? ==>
              Meet(t, Join(words), pk, depth) == if matches then Translated(to.value) else Passed
    ensures Reads(words, pk, matches, Some("MASQUERADE"), to) ==>
              Meet(t, Join(words), pk, depth) == if matches then Masqueraded else Passed
  {
    WordsOf(words);
    assert "DNAT"[0] == 'D' && "MASQUERADE"[0] == 'M';
  }

  /** What the texts of a pod must be for its rules to be kept as they were written. */
  ghost predicate Spelled(family: string -> Family, digest: Digest, e: Entry) {
    Sensible(family) && Base32(digest) && forall i :: 0 <= i < |e.ms| ==> Readable(family, e.pod, e.ms[i])
  }

  lemma {:induction false} RuleWordsOf(family: string -> Family, digest: Digest, e: Entry, i: nat)
    requires Spelled(family, digest, e) && i < |e.ms|
    ensures AllWords(JumpWords(e.pod, e.ms[i]) + [HpChain(digest, e.id, e.ms[i])])
    ensures AllWords(MasqJumpWords(e.pod, e.ms[i]) + [MasqChain(digest, e.id, e.ms[i])])
    ensures AllWords(DnatWords(e.pod, e.ms[i])) && AllWords(SnatWords(e.pod, e.ms[i]))
  {
    var pm := e.ms[i];
    JumpShown(family, digest, e.id, e.pod, pm);
    ShownAllAre(family, JumpWords(e.pod, pm) + [HpChain(digest, e.id, pm)], JumpWords(e.pod, pm) + [HpChain(digest, e.id, pm)]);
    ShownAllAre(family, MasqJumpWords(e.pod, pm) + [MasqChain(digest, e.id, pm)], MasqJumpWords(e.pod, pm) + [MasqChain(digest, e.id, pm)]);
    DnatAreWords(family, e.pod, pm);
    SnatAreWords(family, e.pod, pm);
  }

  lemma {:induction false} EndpointIsWord(family: string -> Family, ip: PodIP, port: int)
    requires Sensible(family) && Printed(family, ip)
    ensures IsWord(Binding(ip, port))
  {
    BindingShown(family, ip, port);
  }

  lemma {:induction false} StartIsWords(family: string -> Family, pod: PodPortMapping, pm: PortMapping)
    requires Sensible(family) && Readable(family, pod, pm)
    ensures AllWords(DnatShown(pod, pm))
  {
    DnatStartShown(family, pod, pm);
    ShownAllAre(family, DnatStart(pod, pm), DnatShown(pod, pm));
  }

  lemma {:induction false} DnatAreWords(family: string -> Family, pod: PodPortMapping, pm: PortMapping)
    requires Sensible(family) && Readable(family, pod, pm)
    ensures AllWords(DnatWords(pod, pm))
  {
    var shown, to := DnatShown(pod, pm), Binding(pod.ip, pm.containerPort);
    StartIsWords(family, pod, pm);
    EndpointIsWord(family, pod.ip, pm.containerPort);
    DestinationWords(shown, to);
    assert shown + ["--to-destination", to] == DnatWords(pod, pm);
  }

  lemma DestinationWords(words: seq<string>, to: string)
    requires AllWords(words) && IsWord(to)
    ensures AllWords(words + ["--to-destination", to])
  {
    assert IsWord("--to-destination");
  }

  lemma {:induction false} SnatAreWords(family: string -> Family, pod: PodPortMapping, pm: PortMapping)
    requires Sensible(family) && Readable(family, pod, pm)
    ensures AllWords(SnatWords(pod, pm))
  {
    var a := Prefixed(IPText(pod.ip), IPFamily(pod.ip));
    var end, shown := ["-s", pod.ip.text, "-d", pod.ip.text, "-j", "MASQUERADE"], ["-s", a, "-d", a, "-j", "MASQUERADE"];
    SnatStartShown(family, pod, pm);
    ShownAllAre(family, SnatStart(pod, pm), SnatStart(pod, pm));
    SnatEndShown(family, pod.ip);
    ShownAllAre(family, end, shown);
    SnatTail(pod, pm, a);
  }

  /** Both chains of the port are there with their rules. */
  ghost predicate InPlace(t: Table, p: Port) {
    p.hp in t && t[p.hp] == [p.dnat] && p.masq in t && t[p.masq] == [p.snat]
  }

  lemma {:induction false} WalkOne(t: Table, r: Rule, pk: Packet, depth: nat)
    ensures Walk(t, [r], pk, depth) == Meet(t, r, pk, depth)
  {
    assert [r][1..] == [];
  }

  /** The jump to a port translates exactly the packets the mapping serves. */
  lemma {:induction false} PortMeets(family: string -> Family, digest: Digest, e: Entry, i: nat, t: Table, pk: Packet, depth: nat)
    requires Spelled(family, digest, e) && i < |e.ms| && InPlace(t, Ports(digest, e)[i]) && depth > 0 && !pk.family.NotIP?
    ensures Meet(t, Ports(digest, e)[i].jump, pk, depth) ==
            if Serves(e.ms[i], pk) then Translated(Endpoint(e.pod.ip, e.ms[i].containerPort)) else Passed
  {
    var p, pm := Ports(digest, e)[i], e.ms[i];
    var same := Lower(pm.protocol) == pk.protocol;
    RuleWordsOf(family, digest, e, i);
    PortIsGood(digest, e.id, e.pod, pm);
    PrefixedNames(p.hp);
    JumpReads(e.pod, pm, p.hp, pk);
    JumpMeets(t, JumpWords(e.pod, pm) + [p.hp], pk, depth, same && pm.hostPort == pk.port, p.hp);
    DnatReads(e.pod, pm, pk);
    WalkOne(t, p.dnat, pk, depth - 1);
    TargetMeets(t, DnatWords(e.pod, pm), pk, depth - 1, same && Covers(pm, pk), Some(Endpoint(e.pod.ip, pm.containerPort)));
  }

  /** The jump to a port's masquerading chain masquerades exactly the packets sent back to the pod. */
  lemma {:induction false} MasqMeets(family: string -> Family, digest: Digest, e: Entry, i: nat, t: Table, pk: Packet, depth: nat)
    requires Spelled(family, digest, e) && i < |e.ms| && InPlace(t, Ports(digest, e)[i]) && depth > 0 && !pk.family.NotIP?
    ensures Meet(t, Ports(digest, e)[i].masqJump, pk, depth) == if Hairpin(e.pod, e.ms[i], pk) then Masqueraded else Passed
  {
    var p, pm := Ports(digest, e)[i], e.ms[i];
    RuleWordsOf(family, digest, e, i);
    PortIsGood(digest, e.id, e.pod, pm);
    PrefixedNames(p.masq);
    MasqJumpReads(e.pod, pm, p.masq, pk);
    JumpMeets(t, MasqJumpWords(e.pod, pm) + [p.masq], pk, depth, true, p.masq);
    SnatReads(e.pod, pm, pk);
    WalkOne(t, p.snat, pk, depth - 1);
    TargetMeets(t, SnatWords(e.pod, pm), pk, depth - 1, Hairpin(e.pod, pm, pk), None);
  }

  // ---- walking the dispatch chains ----

  ghost predicate AllInPlace(t: Table, digest: Digest, e: Entry) {
    forall i :: 0 <= i < |e.ms| ==> InPlace(t, Ports(digest, e)[i])
  }

  /** What the jump from a dispatch chain to the mapping's own chain decides. */
  function Decision(e: Entry, i: nat, c: Chain, pk: Packet): Verdict
    requires i < |e.ms|
  {
    if c == KUBE_HOSTPORTS then
      if Serves(e.ms[i], pk) then Translated(Endpoint(e.pod.ip, e.ms[i].containerPort)) else Passed
    else if Hairpin(e.pod, e.ms[i], pk) then Masqueraded
    else Passed
  }

  /** Mapping `i` decides and none after it does; -1 when none does. */
  ghost predicate Last(e: Entry, c: Chain, pk: Packet, i: int) {
    && -1 <= i < |e.ms| && (i >= 0 ==> !Decision(e, i, c, pk).Passed?)
    && forall j :: i < j < |e.ms| ==> Decision(e, j, c, pk).Passed?
  }

  lemma {:induction false} JumpDecides(family: string -> Family, digest: Digest, e: Entry, i: nat, c: Chain, t: Table, pk: Packet, depth: nat)
    requires IsDispatch(c) && Spelled(family, digest, e) && i < |e.ms| && AllInPlace(t, digest, e) && depth > 0 && !pk.family.NotIP?
    ensures Meet(t, Jump(Ports(digest, e)[i], c), pk, depth) == Decision(e, i, c, pk)
  {
    if c == KUBE_HOSTPORTS {
      PortMeets(family, digest, e, i, t, pk, depth);
    } else {
      MasqMeets(family, digest, e, i, t, pk, depth);
    }
  }

  /** The jumps to the pod's mappings decide as the mappings do. */
  ghost predicate JumpsDecide(digest: Digest, e: Entry, c: Chain, t: Table, pk: Packet, depth: nat) {
    forall i :: 0 <= i < |e.ms| ==> Meet(t, Jump(Ports(digest, e)[i], c), pk, depth) == Decision(e, i, c, pk)
  }

  /** Of a pod's mappings the last that decides does. */
  lemma {:induction false} PodWalk(digest: Digest, e: Entry, c: Chain, t: Table, pk: Packet, depth: nat, i: int)
    requires JumpsDecide(digest, e, c, t, pk, depth) && Last(e, c, pk, i)
    ensures Walk(t, Reversed(Jumps(Ports(digest, e), c)), pk, depth) == if i >= 0 then Decision(e, i, c, pk) else Passed
  {
    LastVerdict(t, Jumps(Ports(digest, e), c), seq(|e.ms|, k requires 0 <= k < |e.ms| => Decision(e, k, c, pk)), pk, depth, i);
  }

  // ---- the live pods of a run ----

  /** The sandbox was added and neither added again nor removed since. */
  ghost predicate Standing(requests: seq<Request>, k: nat) {
    k < |requests| && requests[k].AddFor? && forall i {:trigger SameSandbox(requests[i].entry, requests[k].entry)} :: k < i < |requests| ==> !SameSandbox(requests[i].entry, requests[k].entry)
  }

  /** The pod of a request that stands and forwards a port. */
  ghost function StandingPod(digest: Digest, requests: seq<Request>, k: nat): seq<Pod>
    requires k < |requests|
  {
    if Standing(requests, k) && requests[k].entry.ms != [] then [Ports(digest, requests[k].entry)] else []
  }

  /** For each request its pod, if it stands. */
  ghost function StandingPods(digest: Digest, requests: seq<Request>): (r: seq<seq<Pod>>)
    ensures |r| == |requests| && forall k :: 0 <= k < |r| ==> r[k] == StandingPod(digest, requests, k)
  {
    seq(|requests|, k requires 0 <= k < |requests| => StandingPod(digest, requests, k))
  }

  /** All in one, the last first. */
  function Joined(each: seq<seq<Pod>>): seq<Pod> {
    if each == [] then [] else each[|each| - 1] + Joined(each[..|each| - 1])
  }

  lemma {:induction false} JoinedMore(each: seq<seq<Pod>>, x: seq<Pod>)
    ensures Joined(each + [x]) == x + Joined(each)
  {
    assert (each + [x])[..|each|] == each;
  }

  lemma StandingBefore(was: seq<Request>, r: Request, k: nat)
    requires k < |was|
    ensures Standing(was + [r], k) <==> Standing(was, k) && !SameSandbox(r.entry, was[k].entry)
  {
    var requests := was + [r];
    assert forall i :: 0 <= i < |was| ==> requests[i] == was[i];
    if Standing(requests, k) {
      assert !SameSandbox(requests[|was|].entry, requests[k].entry);
      forall i | k < i < |was|
        ensures !SameSandbox(was[i].entry, was[k].entry)
      {
        assert !SameSandbox(requests[i].entry, requests[k].entry);
      }
    }
    if Standing(was, k) && !SameSandbox(r.entry, was[k].entry) {
      forall i | k < i < |requests|
        ensures !SameSandbox(requests[i].entry, requests[k].entry)
      {
        assert i < |was| ==> !SameSandbox(was[i].entry, was[k].entry);
      }
    }
  }

  /** A pod that stood is dropped by a request if and only if it is for its sandbox. */
  lemma {:induction false} SandboxOrApart(digest: Digest, requests: seq<Request>, i: nat, j: nat)
    requires Cluster(digest, requests) && i < |requests| && j < |requests| && requests[j].entry.ms != []
    ensures SameSandbox(requests[i].entry, requests[j].entry) <==> SameChains(Ports(digest, requests[j].entry), Ports(digest, requests[i].entry))
  {
    if SameSandbox(requests[i].entry, requests[j].entry) {
      SandboxChains(digest, requests[j].entry, requests[i].entry);
    } else {
      ApartChains(digest, requests[i].entry, requests[j].entry);
    }
  }

  lemma {:induction false} WithoutOne(x: seq<Pod>, rest: seq<Pod>, p: Pod)
    requires |x| <= 1
    ensures Without(x + rest, p) == Without(x, p) + Without(rest, p)
  {
    if x == [] {
      assert x + rest == rest;
    } else {
      assert (x + rest)[1..] == rest && x[1..] == [];
    }
  }

  lemma {:induction false} WithoutJoined(each: seq<seq<Pod>>, left: seq<seq<Pod>>, p: Pod)
    requires |left| == |each| && forall k :: 0 <= k < |each| ==> |each[k]| <= 1 && left[k] == Without(each[k], p)
    ensures Without(Joined(each), p) == Joined(left)
  {
    if each != [] {
      var last := |each| - 1;
      WithoutJoined(each[..last], left[..last], p);
      WithoutOne(each[last], Joined(each[..last]), p);
    }
  }

  lemma {:induction false} StillStanding(digest: Digest, was: seq<Request>, r: Request, k: nat)
    requires k < |was| && Cluster(digest, was + [r])
    ensures StandingPod(digest, was + [r], k) == Without(StandingPod(digest, was, k), Ports(digest, r.entry))
  {
    var requests, e := was + [r], was[k].entry;
    StandingBefore(was, r, k);
    if e.ms != [] {
      assert requests[|was|] == r && requests[k] == was[k];
      SandboxOrApart(digest, requests, |was|, k);
      assert [Ports(digest, e)][1..] == [];
    }
  }

  /** The live pods are those of the requests that stand, newest first. */
  lemma {:induction false} LiveIsStanding(digest: Digest, requests: seq<Request>)
    requires Cluster(digest, requests)
    ensures LiveAfter(OpsOf(digest, requests)) == Joined(StandingPods(digest, requests))
    decreases |requests|
  {
    if requests != [] {
      var n := |requests| - 1;
      var was, r := requests[..n], requests[n];
      assert was + [r] == requests;
      LiveIsStanding(digest, was);
      LiveStep(digest, was, r);
      StandingStep(digest, was, r);
    }
  }

  /** Whatever the request, the live pods without its chains stay, and an added pod comes in front. */
  lemma {:induction false} LiveStep(digest: Digest, was: seq<Request>, r: Request)
    ensures var p := Ports(digest, r.entry);
            LiveAfter(OpsOf(digest, was + [r])) == (if r.AddFor? && p != [] then [p] else []) + Without(LiveAfter(OpsOf(digest, was)), p)
  {
    var ops, n, p := OpsOf(digest, was + [r]), |was|, Ports(digest, r.entry);
    assert ops[..n] == OpsOf(digest, was) && ops[n] == OpOf(digest, r);
    if p == [] {
      LiveAfterOk(ops[..n]);
      NothingWithout(LiveAfter(ops[..n]));
    }
    assert [] + Without(LiveAfter(ops[..n]), p) == Without(LiveAfter(ops[..n]), p);
  }

  lemma {:induction false} StandingStep(digest: Digest, was: seq<Request>, r: Request)
    requires Cluster(digest, was + [r])
    ensures var p := Ports(digest, r.entry);
            Joined(StandingPods(digest, was + [r])) == (if r.AddFor? && p != [] then [p] else []) + Without(Joined(StandingPods(digest, was)), p)
  {
    var requests, n, p := was + [r], |was|, Ports(digest, r.entry);
    var each, all := StandingPods(digest, was), StandingPods(digest, requests);
    forall k | 0 <= k < n
      ensures all[k] == Without(each[k], p)
    {
      StillStanding(digest, was, r, k);
    }
    WithoutJoined(each, all[..n], p);
    JoinedMore(all[..n], all[n]);
    assert all == all[..n] + [all[n]];
    NewestStands(was, r);
  }

  lemma NewestStands(was: seq<Request>, r: Request)
    ensures Standing(was + [r], |was|) <==> r.AddFor?
  {
  }

  // ---- the walk after a run ----

  /** No mapping of a standing request after `k` decides. */
  ghost predicate NoneAfter(requests: seq<Request>, c: Chain, pk: Packet, k: int) {
    forall m, j :: 0 <= m && k < m < |requests| && Standing(requests, m) && 0 <= j < |requests[m].entry.ms| ==> Decision(requests[m].entry, j, c, pk).Passed?
  }

  ghost predicate AllReady(family: string -> Family, digest: Digest, requests: seq<Request>, t: Table) {
    forall k {:trigger Standing(requests, k)} :: 0 <= k < |requests| && Standing(requests, k) ==>
      Spelled(family, digest, requests[k].entry) && AllInPlace(t, digest, requests[k].entry)
  }

  /** Mapping `i` of request `k` decides and nothing newer does; k is -1 when nothing does. */
  ghost predicate Newest(requests: seq<Request>, c: Chain, pk: Packet, k: int, i: int) {
    && -1 <= k < |requests| && NoneAfter(requests, c, pk, k)
    && (k >= 0 ==> Standing(requests, k) && i >= 0 && Last(requests[k].entry, c, pk, i))
  }

  lemma {:induction false} WalkPair(x: seq<Pod>, rest: seq<Pod>, c: Chain, t: Table, pk: Packet, depth: nat)
    requires |x| <= 1
    ensures var v := Walk(t, LiveJumps(x, c), pk, depth);
            Walk(t, LiveJumps(x + rest, c), pk, depth) == if v.Passed? then Walk(t, LiveJumps(rest, c), pk, depth) else v
  {
    LiveJumpsJoin(x, rest, c);
    WalkConcat(t, LiveJumps(x, c), LiveJumps(rest, c), pk, depth);
  }

  /** The last pod of the sequence that decides does. */
  lemma {:induction false} WalkJoined(each: seq<seq<Pod>>, c: Chain, t: Table, pk: Packet, depth: nat, k: int)
    requires -1 <= k < |each| && (forall m :: 0 <= m < |each| ==> |each[m]| <= 1)
    requires forall m :: 0 <= m && k < m < |each| ==> Walk(t, LiveJumps(each[m], c), pk, depth).Passed?
    requires k >= 0 ==> !Walk(t, LiveJumps(each[k], c), pk, depth).Passed?
    ensures Walk(t, LiveJumps(Joined(each), c), pk, depth) == if k >= 0 then Walk(t, LiveJumps(each[k], c), pk, depth) else Passed
    decreases |each|
  {
    if each != [] {
      var last := |each| - 1;
      WalkPair(each[last], Joined(each[..last]), c, t, pk, depth);
      if k < last {
        WalkJoined(each[..last], c, t, pk, depth, k);
      }
    }
  }

  lemma {:induction false} LiveJumpsJoin(x: seq<Pod>, rest: seq<Pod>, c: Chain)
    requires |x| <= 1
    ensures LiveJumps(x + rest, c) == LiveJumps(x, c) + LiveJumps(rest, c)
  {
    if x == [] {
      assert x + rest == rest;
    } else {
      assert (x + rest)[1..] == rest && x[1..] == [];
      assert LiveJumps(x, c) == Reversed(Jumps(x[0], c)) + [];
    }
  }

  lemma {:induction false} LiveJumpsOne(p: Pod, c: Chain)
    ensures LiveJumps([p], c) == Reversed(Jumps(p, c))
  {
    assert [p][1..] == [] && Reversed(Jumps(p, c)) + [] == Reversed(Jumps(p, c));
  }

  /** The pod of a standing request decides as its last mapping that does. */
  lemma {:induction false} OneWalk(digest: Digest, requests: seq<Request>, c: Chain, t: Table, pk: Packet, depth: nat, m: nat, i: int)
    requires m < |requests|
    requires Standing(requests, m) ==> JumpsDecide(digest, requests[m].entry, c, t, pk, depth) && Last(requests[m].entry, c, pk, i)
    ensures Walk(t, LiveJumps(StandingPod(digest, requests, m), c), pk, depth) ==
            if Standing(requests, m) && i >= 0 then Decision(requests[m].entry, i, c, pk) else Passed
  {
    if Standing(requests, m) && requests[m].entry.ms != [] {
      PodWalk(digest, requests[m].entry, c, t, pk, depth, i);
      LiveJumpsOne(Ports(digest, requests[m].entry), c);
    }
  }

  ghost predicate AllDecide(digest: Digest, requests: seq<Request>, c: Chain, t: Table, pk: Packet, depth: nat) {
    forall k {:trigger Standing(requests, k)} :: 0 <= k < |requests| && Standing(requests, k) ==> JumpsDecide(digest, requests[k].entry, c, t, pk, depth)
  }

  lemma {:induction false} ReadyDecide(family: string -> Family, digest: Digest, requests: seq<Request>, c: Chain, t: Table, pk: Packet, depth: nat)
    requires IsDispatch(c) && AllReady(family, digest, requests, t) && depth > 0 && !pk.family.NotIP?
    ensures AllDecide(digest, requests, c, t, pk, depth)
  {
    forall k, i | 0 <= k < |requests| && Standing(requests, k) && 0 <= i < |requests[k].entry.ms|
      ensures Meet(t, Jump(Ports(digest, requests[k].entry)[i], c), pk, depth) == Decision(requests[k].entry, i, c, pk)
    {
      JumpDecides(family, digest, requests[k].entry, i, c, t, pk, depth);
    }
  }

  lemma {:induction false} StandingWalk(digest: Digest, requests: seq<Request>, c: Chain, t: Table, pk: Packet, depth: nat, k: int, i: int)
    requires AllDecide(digest, requests, c, t, pk, depth) && Newest(requests, c, pk, k, i)
    ensures Walk(t, LiveJumps(Joined(StandingPods(digest, requests)), c), pk, depth) == if k >= 0 then Decision(requests[k].entry, i, c, pk) else Passed
  {
    var each := StandingPods(digest, requests);
    forall m | 0 <= m && k < m < |requests|
      ensures Walk(t, LiveJumps(each[m], c), pk, depth).Passed?
    {
      OneWalk(digest, requests, c, t, pk, depth, m, -1);
    }
    if k >= 0 {
      OneWalk(digest, requests, c, t, pk, depth, k, i);
    }
    WalkJoined(each, c, t, pk, depth, k);
  }
}
