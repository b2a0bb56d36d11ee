/** The rules as the hostport manager writes them, and the form in which iptables keeps them
    (internal/hostport/hostport_manager.go, fake_iptables.go). */
module HostportWords {
  import opened Text
  import opened Iptables
  import opened Hostport
  import opened HostportManager
  import opened RuleSyntax

  // ---- the written rules that differ from the kept ones ----

  function WrittenHost(pm: PortMapping): seq<string> {
    if Restricted(pm) then ["-d", pm.hostIP] else []
  }

  function DnatStart(pod: PodPortMapping, pm: PortMapping): seq<string> {
    CommentWords(pod, pm) + MatchWords(pm) + WrittenHost(pm) + ["-j", "DNAT"]
  }

  function WrittenDnat(pod: PodPortMapping, pm: PortMapping): string {
    Join(DnatStart(pod, pm) + [DESTINATION + Binding(pod.ip, pm.containerPort)])
  }

  function SnatStart(pod: PodPortMapping, pm: PortMapping): seq<string> {
    CommentWords(pod, pm) + ["-m", "conntrack", "--ctorigdstport", Itoa(pm.hostPort)] + MatchWords(pm)
      + ["--dport", Itoa(pm.containerPort)]
  }

  function WrittenSnat(pod: PodPortMapping, pm: PortMapping): string {
    Join(SnatStart(pod, pm) + ["-s", IPText(pod.ip), "-d", IPText(pod.ip), "-j", "MASQUERADE"])
  }

  // ---- words ----

  predicate AddressChar(c: char) {
    '0' <= c <= '9' || 'a' <= c <= 'f' || 'A' <= c <= 'F' || c == '.' || c == ':'
  }

  /** What is used of the address parser: an address has a dot or a colon and no characters but
      theirs and hexadecimal digits, and an IPv4 address in dotted form with a port is none. */
  ghost predicate Sensible(family: string -> Family) {
    && (forall w :: !family(w).NotIP? ==> ('.' in w || ':' in w) && forall c :: c in w ==> AddressChar(c))
    && (forall a, n :: family(a).IPv4? && ':' !in a ==> family(a + ":" + Itoa(n)).NotIP?)
  }

  /** The text does not end in, or have before a space, the option that deletes a chain. */
  ghost predicate Quiet(s: string) {
    !Contains(s + " ", "-X ")
  }

  ghost predicate Legible(w: string) {
    IsWord(w) && '\n' !in w && !HasPrefix(w, DESTINATION) && Quiet(w)
  }

  /** The written word is kept as `s`, and `s` as itself. */
  ghost predicate Shows(family: string -> Family, w: string, s: string) {
    Legible(w) && Legible(s) && s == Prefixed(w, family(w)) && family(s).NotIP?
  }

  ghost predicate Plain(family: string -> Family, w: string) {
    Legible(w) && family(w).NotIP?
  }

  ghost predicate ShowsAll(family: string -> Family, ws: seq<string>, ss: seq<string>) {
    |ws| == |ss| && forall k :: 0 <= k < |ws| ==> Shows(family, ws[k], ss[k])
  }

  lemma ShowsConcat(family: string -> Family, a: seq<string>, x: seq<string>, b: seq<string>, y: seq<string>)
    requires ShowsAll(family, a, x) && ShowsAll(family, b, y)
    ensures ShowsAll(family, a + b, x + y)
  {
  }

  lemma {:induction false} ShownAllAre(family: string -> Family, ws: seq<string>, ss: seq<string>)
    requires ShowsAll(family, ws, ss)
    ensures ShownAll(family, ws) == ss && ShownAll(family, ss) == ss
    ensures AllWords(ws) && NoDestination(ws) && AllWords(ss) && NoDestination(ss)
    decreases |ws|
  {
    if ws != [] {
      assert Shows(family, ws[0], ss[0]);
      ShownWord(family, ws[0]);
      ShownWord(family, ss[0]);
      ShownAllAre(family, ws[1..], ss[1..]);
    }
  }

  lemma {:induction false} ShownLast(family: string -> Family, ws: seq<string>, w: string, ss: seq<string>, v: string)
    requires ws != [] && ShowsAll(family, ws, ss) && Shows(family, w, v)
    ensures Normalized(family, Join(ws + [w])) == Normal(Join(ss + [v]))
  {
    ShownAllAre(family, ws, ss);
    ShownWord(family, w);
    NormalizedRule(family, ws, w);
  }

  /** A rule of such words is kept as the shown words. */
  lemma {:induction false} ShownRule(family: string -> Family, ws: seq<string>, ss: seq<string>)
    requires ShowsAll(family, ws, ss) && |ws| >= 2
    ensures Normalized(family, Join(ws)) == Normal(Join(ss))
  {
    var n := |ws| - 1;
    assert Shows(family, ws[n], ss[n]);
    ShownLast(family, ws[..n], ws[n], ss[..n], ss[n]);
    assert ws[..n] + [ws[n]] == ws && ss[..n] + [ss[n]] == ss;
  }

  lemma ShowsSelf(family: string -> Family, ws: seq<string>, ss: seq<string>)
    requires ShowsAll(family, ws, ss)
    ensures ShowsAll(family, ss, ss)
  {
    forall k | 0 <= k < |ss|
      ensures Shows(family, ss[k], ss[k])
    {
      assert Shows(family, ws[k], ss[k]);
    }
  }

  // ---- texts without a deletion ----

  lemma QuietWithout(s: string)
    requires 'X' !in s
    ensures Quiet(s)
  {
    if Contains(s + " ", "-X ") {
      var i: nat :| OccursAt(s + " ", "-X ", i);
      OccurrenceAt(s + " ", "-X ", i, 1);
    }
  }

  lemma QuietAcross(a: string, b: string)
    requires Quiet(a) && Quiet(b)
    ensures Quiet(a + " " + b)
  {
    var s, x := a + " " + b + " ", "-X ";
    assert s[|a|] == ' ';
    if Contains(s, x) {
      var i: nat :| OccursAt(s, x, i);
      OccurrenceAt(s, x, i, 0);
      OccurrenceAt(s, x, i, 1);
      if i + 3 <= |a| + 1 {
        assert (a + " ")[i..i + 3] == s[i..i + 3];
        assert OccursAt(a + " ", x, i);
      } else if i > |a| {
        var j := i - |a| - 1;
        assert (b + " ")[j..j + 3] == s[i..i + 3];
        assert OccursAt(b + " ", x, j);
      }
    }
  }

  /** Text without the option in front changes nothing. */
  lemma QuietAfter(a: string, b: string)
    requires 'X' !in a && (a == "" || a[|a| - 1] != '-') && Quiet(b)
    ensures Quiet(a + b)
  {
    var s, x := a + b + " ", "-X ";
    if Contains(s, x) {
      var i: nat :| OccursAt(s, x, i);
      OccurrenceAt(s, x, i, 0);
      OccurrenceAt(s, x, i, 1);
      assert i >= |a|;
      assert (b + " ")[i - |a|..i - |a| + 3] == s[i..i + 3];
      assert OccursAt(b + " ", x, i - |a|);
    }
  }

  lemma {:induction false} QuietJoin(words: seq<string>)
    requires forall k :: 0 <= k < |words| ==> Quiet(words[k])
    ensures Quiet(Join(words))
  {
    if words == [] {
      QuietWithout("");
    } else if |words| > 1 {
      QuietJoin(words[1..]);
      QuietAcross(words[0], Join(words[1..]));
    }
  }

  lemma {:induction false} JoinOneLine(words: seq<string>)
    requires forall k :: 0 <= k < |words| ==> '\n' !in words[k]
    ensures '\n' !in Join(words)
  {
    if |words| > 1 {
      JoinOneLine(words[1..]);
    }
  }

  ghost predicate Tidy(s: string) {
    '\n' !in s && Quiet(s)
  }

  lemma {:induction false} TidyJoin(words: seq<string>)
    requires forall k :: 0 <= k < |words| ==> Tidy(words[k])
    ensures Tidy(Join(words))
  {
    QuietJoin(words);
    JoinOneLine(words);
  }

  lemma {:induction false} TidyShown(family: string -> Family, ws: seq<string>, ss: seq<string>)
    requires ShowsAll(family, ws, ss)
    ensures Tidy(Join(ws)) && Tidy(Join(ss))
  {
    forall k | 0 <= k < |ws|
      ensures Tidy(ws[k]) && Tidy(ss[k])
    {
      assert Shows(family, ws[k], ss[k]);
    }
    TidyJoin(ws);
    TidyJoin(ss);
  }

  // ---- the words of the manager's rules ----

  /** A word that cannot be an address. */
  lemma PlainWord(family: string -> Family, w: string)
    requires Sensible(family) && IsWord(w) && '\n' !in w && '.' !in w && ':' !in w
    requires !HasPrefix(w, DESTINATION) && Quiet(w)
    ensures Plain(family, w) && Shows(family, w, w)
  {
  }

  lemma Literal(family: string -> Family, w: string)
    requires Sensible(family) && w != "" && (|w| < 17 || w[0] != '-')
    requires w[0] != '"' && ' ' !in w && '\n' !in w && '.' !in w && ':' !in w && 'X' !in w
    ensures Shows(family, w, w)
  {
    QuietWithout(w);
    if |w| >= 17 {
      NotADestination(w);
    }
    PlainWord(family, w);
  }

  lemma {:induction false} NumberShown(family: string -> Family, n: int)
    requires Sensible(family)
    ensures Shows(family, Itoa(n), Itoa(n))
  {
    var w := Itoa(n);
    forall c | c in w
      ensures '0' <= c <= '9' || c == '-'
    {
      ItoaPlain(n, c);
    }
    assert w != "" && w[0] in w;
    assert |w| >= 17 ==> w[..17][2] == w[2] && w[2] in w;
    QuietWithout(w);
    PlainWord(family, w);
  }

  lemma AddressShown(family: string -> Family, a: string)
    requires Sensible(family) && !family(a).NotIP?
    ensures Shows(family, a, Prefixed(a, family(a)))
  {
    var s := Prefixed(a, family(a));
    assert a != "";
    assert forall c :: c in a ==> AddressChar(c);
    assert a[0] in a && s[0] == a[0];
    assert s[|a|] == '/' && s[|a|] in s;
    QuietWithout(a);
    QuietWithout(s);
  }

  lemma QuotedShown(family: string -> Family, pod: PodPortMapping, pm: PortMapping)
    requires Sensible(family) && '"' !in FullName(pod) && Tidy(FullName(pod))
    ensures Shows(family, Quoted(pod, pm), Quoted(pod, pm))
  {
    var name, n, w := FullName(pod), Itoa(pm.hostPort), Quoted(pod, pm);
    forall c | c in n
      ensures '0' <= c <= '9' || c == '-'
    {
      ItoaPlain(pm.hostPort, c);
    }
    assert w[1..|w| - 1] == name + " hostport " + n;
    assert w[0] == '"' && w[0] in w;
    NotADestination(w);
    QuietQuoted(name, n);
  }

  lemma QuietQuoted(name: string, n: string)
    requires Quiet(name) && 'X' !in n
    ensures Quiet("\"" + name + " hostport " + n + "\"")
  {
    QuietAfter("\"", name);
    QuietWithout("hostport");
    QuietWithout(n + "\"");
    QuietAcross("\"" + name, "hostport");
    QuietAcross("\"" + name + " " + "hostport", n + "\"");
    assert "\"" + name + " hostport " + n + "\"" == "\"" + name + " " + "hostport" + " " + (n + "\"");
  }

  /** The text of a pod's address, which net.IP.String prints in dotted form for IPv4. */
  ghost predicate Printed(family: string -> Family, ip: PodIP) {
    !ip.Invalid? && family(ip.text) == IPFamily(ip) && (ip.V4? ==> ':' !in ip.text)
  }

  /** net.JoinHostPort is no address. */
  lemma BindingShown(family: string -> Family, ip: PodIP, port: int)
    requires Sensible(family) && Printed(family, ip)
    ensures Shows(family, Binding(ip, port), Binding(ip, port)) && Binding(ip, port)[0] != '"'
  {
    var w, n := Binding(ip, port), Itoa(port);
    forall c | c in n
      ensures '0' <= c <= '9' || c == '-'
    {
      ItoaPlain(port, c);
    }
    assert ip.text != "" && ip.text[0] in ip.text;
    assert forall c :: c in ip.text ==> AddressChar(c);
    if ip.V6? {
      assert w[0] == '[' && w[0] in w;
    } else {
      assert w == ip.text + ":" + Itoa(port);
      assert w[0] == ip.text[0];
    }
    QuietWithout(w);
  }

  // ---- the rules ----

  /** The pod can be named in a comment, and its addresses are what the parser says they are. */
  ghost predicate Readable(family: string -> Family, pod: PodPortMapping, pm: PortMapping) {
    && '"' !in FullName(pod) && Tidy(FullName(pod))
    && Plain(family, Lower(pm.protocol))
    && (Restricted(pm) ==> Legible(pm.hostIP) && family(pm.hostIP) == pm.hostFamily)
    && Printed(family, pod.ip)
  }

  lemma CommonShown(family: string -> Family, pod: PodPortMapping, pm: PortMapping)
    requires Sensible(family) && Readable(family, pod, pm)
    ensures ShowsAll(family, CommentWords(pod, pm), CommentWords(pod, pm))
    ensures ShowsAll(family, MatchWords(pm), MatchWords(pm))
  {
    QuotedShown(family, pod, pm);
    Literal(family, "-m");
    Literal(family, "comment");
    Literal(family, "--comment");
    Literal(family, "-p");
  }

  lemma HostShown(family: string -> Family, pod: PodPortMapping, pm: PortMapping)
    requires Sensible(family) && Readable(family, pod, pm)
    ensures ShowsAll(family, WrittenHost(pm), HostWords(pm))
  {
    Literal(family, "-d");
    if Restricted(pm) && !pm.hostFamily.NotIP? {
      AddressShown(family, pm.hostIP);
    }
  }

  /** A chain whose name ends in sixteen characters of a base32 text. */
  ghost predicate Base32(digest: Digest) {
    forall k :: |digest(k)| == 16 && forall c :: c in digest(k) ==> 'A' <= c <= 'Z' || '2' <= c <= '7'
  }

  lemma ChainShown(family: string -> Family, digest: Digest, key: string, prefix: string)
    requires Sensible(family) && Base32(digest) && (prefix == KUBE_HP_PREFIX || prefix == CRIO_MASQ_PREFIX)
    ensures Shows(family, prefix + digest(key), prefix + digest(key))
  {
    var w, d := prefix + digest(key), digest(key);
    assert forall c :: c in d ==> 'A' <= c <= 'Z' || '2' <= c <= '7';
    assert ' ' !in prefix && 'X' !in prefix && '\n' !in prefix && '.' !in prefix && ':' !in prefix;
    QuietChain(prefix, d);
    NotADestination(w);
    PlainWord(family, w);
  }

  lemma NotADestination(w: string)
    requires w != "" && w[0] != '-'
    ensures !HasPrefix(w, DESTINATION)
  {
    assert |w| >= 17 ==> w[..17][0] == w[0];
  }

  lemma QuietChain(prefix: string, d: string)
    requires 'X' !in prefix && |d| >= 2 && '-' !in d && ' ' !in prefix && ' ' !in d
    ensures Quiet(prefix + d)
  {
    var s := prefix + d + " ";
    if Contains(s, "-X ") {
      var i: nat :| OccursAt(s, "-X ", i);
      OccurrenceAt(s, "-X ", i, 0);
      OccurrenceAt(s, "-X ", i, 2);
    }
  }

  lemma JumpShown(family: string -> Family, digest: Digest, id: string, pod: PodPortMapping, pm: PortMapping)
    requires Sensible(family) && Base32(digest) && Readable(family, pod, pm)
    ensures var ws := JumpWords(pod, pm) + [HpChain(digest, id, pm)]; ShowsAll(family, ws, ws)
    ensures var ws := MasqJumpWords(pod, pm) + [MasqChain(digest, id, pm)]; ShowsAll(family, ws, ws)
  {
    var comment, match_ := CommentWords(pod, pm), MatchWords(pm);
    CommonShown(family, pod, pm);
    NumberShown(family, pm.hostPort);
    Literal(family, "--dport");
    Literal(family, "-j");
    ChainShown(family, digest, Key(id, pm), KUBE_HP_PREFIX);
    ChainShown(family, digest, Key(id, pm), CRIO_MASQ_PREFIX);
    var port := ["--dport", Itoa(pm.hostPort), "-j"];
    ShowsConcat(family, comment, comment, match_, match_);
    ShowsConcat(family, comment + match_, comment + match_, port, port);
    var hp, masq := [HpChain(digest, id, pm)], [MasqChain(digest, id, pm)];
    ShowsConcat(family, JumpWords(pod, pm), JumpWords(pod, pm), hp, hp);
    ShowsConcat(family, comment, comment, ["-j"], ["-j"]);
    ShowsConcat(family, MasqJumpWords(pod, pm), MasqJumpWords(pod, pm), masq, masq);
  }

  function DnatShown(pod: PodPortMapping, pm: PortMapping): seq<string> {
    CommentWords(pod, pm) + MatchWords(pm) + HostWords(pm) + ["-j", "DNAT"]
  }

  lemma DnatStartShown(family: string -> Family, pod: PodPortMapping, pm: PortMapping)
    requires Sensible(family) && Readable(family, pod, pm)
    ensures ShowsAll(family, DnatStart(pod, pm), DnatShown(pod, pm))
  {
    var comment, match_ := CommentWords(pod, pm), MatchWords(pm);
    CommonShown(family, pod, pm);
    HostShown(family, pod, pm);
    Literal(family, "-j");
    Literal(family, "DNAT");
    ShowsConcat(family, comment, comment, match_, match_);
    ShowsConcat(family, comment + match_, comment + match_, WrittenHost(pm), HostWords(pm));
    ShowsConcat(family, comment + match_ + WrittenHost(pm), comment + match_ + HostWords(pm), ["-j", "DNAT"], ["-j", "DNAT"]);
  }

  lemma {:induction false} TrackShown(family: string -> Family, n: int)
    requires Sensible(family)
    ensures var ws := ["-m", "conntrack", "--ctorigdstport", Itoa(n)]; ShowsAll(family, ws, ws)
  {
    NumberShown(family, n);
    Literal(family, "-m");
    Literal(family, "conntrack");
    Literal(family, "--ctorigdstport");
  }

  lemma SnatStartShown(family: string -> Family, pod: PodPortMapping, pm: PortMapping)
    requires Sensible(family) && Readable(family, pod, pm)
    ensures ShowsAll(family, SnatStart(pod, pm), SnatStart(pod, pm))
  {
    var comment, match_ := CommentWords(pod, pm), MatchWords(pm);
    CommonShown(family, pod, pm);
    TrackShown(family, pm.hostPort);
    NumberShown(family, pm.containerPort);
    Literal(family, "--dport");
    var track, port := ["-m", "conntrack", "--ctorigdstport", Itoa(pm.hostPort)], ["--dport", Itoa(pm.containerPort)];
    ShowsConcat(family, comment, comment, track, track);
    ShowsConcat(family, comment + track, comment + track, match_, match_);
    ShowsConcat(family, comment + track + match_, comment + track + match_, port, port);
  }

  lemma SnatLiterals(family: string -> Family)
    requires Sensible(family)
    ensures Shows(family, "-s", "-s") && Shows(family, "-d", "-d") && Shows(family, "-j", "-j") && Shows(family, "MASQUERADE", "MASQUERADE")
  {
    Literal(family, "-s");
    Literal(family, "-d");
    Literal(family, "-j");
    Literal(family, "MASQUERADE");
  }

  lemma ShowsSix(family: string -> Family, a: string, b: string, c: string, d: string, x: string, y: string)
    requires Shows(family, a, a) && Shows(family, b, b) && Shows(family, c, c) && Shows(family, d, d) && Shows(family, x, y)
    ensures ShowsAll(family, [a, x, b, x, c, d], [a, y, b, y, c, d])
  {
  }

  lemma SnatEndShown(family: string -> Family, ip: PodIP)
    requires Sensible(family) && Printed(family, ip)
    ensures var a := Prefixed(ip.text, IPFamily(ip));
            ShowsAll(family, ["-s", ip.text, "-d", ip.text, "-j", "MASQUERADE"], ["-s", a, "-d", a, "-j", "MASQUERADE"])
  {
    AddressShown(family, ip.text);
    SnatLiterals(family);
    ShowsSix(family, "-s", "-d", "-j", "MASQUERADE", ip.text, Prefixed(ip.text, IPFamily(ip)));
  }

  /** The rule is kept as `kept`, which a later restore keeps as it is; neither breaks a line or
      reads as a deletion. */
  ghost predicate Keeps(family: string -> Family, written: string, kept: Rule) {
    && Normalized(family, written) == Normal(kept) && Normalized(family, kept) == Normal(kept)
    && Tidy(written) && Tidy(kept)
  }

  lemma {:induction false} WordsKept(family: string -> Family, ws: seq<string>, ss: seq<string>)
    requires ShowsAll(family, ws, ss) && |ws| >= 2
    ensures Keeps(family, Join(ws), Join(ss))
  {
    ShowsSelf(family, ws, ss);
    ShownRule(family, ws, ss);
    ShownRule(family, ss, ss);
    TidyShown(family, ws, ss);
  }

  lemma {:induction false} JumpsKept(family: string -> Family, digest: Digest, id: string, pod: PodPortMapping, pm: PortMapping)
    requires Sensible(family) && Base32(digest) && Readable(family, pod, pm)
    ensures var p := PortOf(digest, id, pod, pm);
            Keeps(family, p.jump, p.jump) && Keeps(family, p.masqJump, p.masqJump)
  {
    JumpShown(family, digest, id, pod, pm);
    var jump, masqJump := JumpWords(pod, pm) + [HpChain(digest, id, pm)], MasqJumpWords(pod, pm) + [MasqChain(digest, id, pm)];
    WordsKept(family, jump, jump);
    WordsKept(family, masqJump, masqJump);
  }

  lemma {:induction false} SnatKept(family: string -> Family, pod: PodPortMapping, pm: PortMapping)
    requires Sensible(family) && Readable(family, pod, pm)
    ensures Keeps(family, WrittenSnat(pod, pm), Join(SnatWords(pod, pm)))
  {
    var ip, start := pod.ip.text, SnatStart(pod, pm);
    var a := Prefixed(ip, IPFamily(pod.ip));
    var end, shown := ["-s", ip, "-d", ip, "-j", "MASQUERADE"], ["-s", a, "-d", a, "-j", "MASQUERADE"];
    SnatStartShown(family, pod, pm);
    SnatEndShown(family, pod.ip);
    ShowsConcat(family, start, start, end, shown);
    WordsKept(family, start + end, start + shown);
    SnatTail(pod, pm, a);
  }

  lemma SnatTail(pod: PodPortMapping, pm: PortMapping, a: string)
    requires a == Prefixed(IPText(pod.ip), IPFamily(pod.ip))
    ensures SnatWords(pod, pm) == SnatStart(pod, pm) + ["-s", a, "-d", a, "-j", "MASQUERADE"]
  {
    var port, end := ["--dport", Itoa(pm.containerPort)], ["-s", a, "-d", a, "-j", "MASQUERADE"];
    assert port + end == ["--dport", Itoa(pm.containerPort), "-s", a, "-d", a, "-j", "MASQUERADE"];
  }

  /** The destination is written after an equals sign and kept after a space. */
  lemma {:induction false} DnatKept(family: string -> Family, pod: PodPortMapping, pm: PortMapping)
    requires Sensible(family) && Readable(family, pod, pm)
    ensures Keeps(family, WrittenDnat(pod, pm), Join(DnatWords(pod, pm)))
  {
    var start, shown, x := DnatStart(pod, pm), DnatShown(pod, pm), Binding(pod.ip, pm.containerPort);
    DnatStartShown(family, pod, pm);
    BindingShown(family, pod.ip, pm.containerPort);
    DestinationKept(family, start, shown, x);
    assert shown + ["--to-destination", x] == DnatWords(pod, pm);
  }

  lemma {:induction false} DestinationKept(family: string -> Family, start: seq<string>, shown: seq<string>, x: string)
    requires Sensible(family) && start != [] && ShowsAll(family, start, shown) && Shows(family, x, x) && x[0] != '"'
    ensures Keeps(family, Join(start + [DESTINATION + x]), Join(shown + ["--to-destination", x]))
  {
    Literal(family, "--to-destination");
    ShownAllAre(family, start, shown);
    ShownWord(family, x);
    NormalizedDestination(family, start, x);
    ShowsSelf(family, start, shown);
    var end := ["--to-destination", x];
    ShowsConcat(family, shown, shown, end, end);
    WordsKept(family, shown + end, shown + end);
    TidyDestination(family, start, shown, x);
  }

  lemma {:induction false} TidyDestination(family: string -> Family, start: seq<string>, shown: seq<string>, x: string)
    requires ShowsAll(family, start, shown) && Legible(x)
    ensures Tidy(Join(start + [DESTINATION + x]))
  {
    var ws := start + [DESTINATION + x];
    QuietAfter(DESTINATION, x);
    forall k | 0 <= k < |ws|
      ensures Tidy(ws[k])
    {
      assert k < |start| ==> Shows(family, start[k], shown[k]);
    }
    TidyJoin(ws);
  }
}
