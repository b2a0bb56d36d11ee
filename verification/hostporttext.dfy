/** Add and Remove on text from end to end: the saved table is read, filtered and written out again
    with the pod's lines, and restoring that text gives the table the operation promises
    (internal/hostport/hostport_manager.go, fake_iptables.go). */
module HostportText {
  import opened Sequences
  import opened Text
  import opened Iptables
  import opened IptablesText
  import opened IptablesRestore
  import opened Hostport
  import opened HostportProof
  import opened HostportRemove
  import opened HostportManager
  import opened HostportWords
  import opened RuleSyntax

  // ---- tables that survive the way through text ----

  ghost predicate SettledChain(c: Chain) {
    PlainChain(c) && Quiet(c)
  }

  /** Every rule is kept as it is, and no name or rule breaks a line or reads as a deletion. */
  ghost predicate Settled(family: string -> Family, t: Table) {
    forall c :: c in t ==> SettledChain(c) && forall r :: r in t[c] ==> Keeps(family, r, r)
  }

  ghost predicate SettledLine(family: string -> Family, l: Line) {
    match l
    case TableLine | Commit => true
    case ChainLine(c) => SettledChain(c)
    case Delete(c) => SettledChain(c)
    case Append(c, r) => SettledChain(c) && Keeps(family, r, r)
    case Insert(c, r) => SettledChain(c) && Keeps(family, r, r)
  }

  lemma RestoreLineSettled(family: string -> Family, t: Table, l: Line, all: seq<Line>)
    requires Settled(family, t) && SettledLine(family, l)
    ensures Settled(family, RestoreLine(t, l, all).0)
  {
  }

  /** Settled lines leave a settled table settled, also when the restore fails. */
  lemma {:induction false} RestoreSettled(family: string -> Family, t: Table, lines: seq<Line>, all: seq<Line>)
    requires Settled(family, t) && forall l :: l in lines ==> SettledLine(family, l)
    ensures Settled(family, RestoreLines(t, lines, all).0)
    decreases |lines|
  {
    if lines != [] {
      assert lines[0] in lines;
      RestoreLineSettled(family, t, lines[0], all);
      RestoreSettled(family, RestoreLine(t, lines[0], all).0, lines[1..], all);
    }
  }

  // ---- texts that say what their lines say ----

  ghost predicate SaysLine(family: string -> Family, text: string, l: Line) {
    && Writes(family, text, l) && '\n' !in text && (Quiet(text) || l.Delete?)
    && SettledLine(family, l) && !l.TableLine? && !l.Commit?
  }

  ghost predicate Says(family: string -> Family, texts: seq<string>, lines: seq<Line>) {
    |texts| == |lines| && forall k :: 0 <= k < |lines| ==> SaysLine(family, texts[k], lines[k])
  }

  lemma SaysConcat(family: string -> Family, a: seq<string>, x: seq<Line>, b: seq<string>, y: seq<Line>)
    requires Says(family, a, x) && Says(family, b, y)
    ensures Says(family, a + b, x + y)
  {
  }

  lemma ChainSays(family: string -> Family, c: Chain)
    requires SettledChain(c)
    ensures SaysLine(family, ChainText(c), ChainLine(c))
  {
    QuietAfter(":", c);
    QuietWithout("-");
    QuietWithout("[0:0]");
    QuietAcross(":" + c, "-");
    QuietAcross(":" + c + " " + "-", "[0:0]");
    assert ChainText(c) == ":" + c + " " + "-" + " " + "[0:0]";
  }

  lemma ChainsSay(family: string -> Family, chains: seq<Chain>)
    requires forall c :: c in chains ==> SettledChain(c)
    ensures Says(family, ChainTexts(chains), ChainLines(chains))
  {
    forall k | 0 <= k < |chains|
      ensures SaysLine(family, ChainTexts(chains)[k], ChainLines(chains)[k])
    {
      assert chains[k] in chains;
      ChainSays(family, chains[k]);
    }
  }

  lemma {:induction false} RuleTidy(flag: string, c: Chain, w: string)
    requires SettledChain(c) && Tidy(w) && (flag == "-A" || flag == "-I")
    ensures Tidy(flag + " " + c + " " + w)
  {
    QuietWithout(flag);
    QuietAcross(flag, c);
    QuietAcross(flag + " " + c, w);
  }

  lemma AppendSays(family: string -> Family, c: Chain, w: string, r: Rule)
    requires SettledChain(c) && Keeps(family, w, r)
    ensures SaysLine(family, RuleText(c, w), Append(c, r))
  {
    RuleTidy("-A", c, w);
    assert "-A " == "-A" + " ";
    assert Keeps(family, r, r);
  }

  lemma InsertSays(family: string -> Family, c: Chain, w: string, r: Rule)
    requires SettledChain(c) && Keeps(family, w, r)
    ensures SaysLine(family, "-I " + c + " " + w, Insert(c, r))
  {
    RuleTidy("-I", c, w);
    assert "-I " == "-I" + " ";
    assert Keeps(family, r, r);
  }

  function DeleteTexts(chains: seq<Chain>): (r: seq<string>)
    ensures |r| == |chains| && forall k :: 0 <= k < |r| ==> r[k] == "-X " + chains[k]
  {
    seq(|chains|, k requires 0 <= k < |chains| => "-X " + chains[k])
  }

  lemma DeletesSay(family: string -> Family, chains: seq<Chain>)
    requires forall c :: c in chains ==> SettledChain(c)
    ensures Says(family, DeleteTexts(chains), DeleteLines(chains))
  {
    forall k | 0 <= k < |chains|
      ensures SaysLine(family, DeleteTexts(chains)[k], DeleteLines(chains)[k])
    {
      assert chains[k] in chains;
    }
  }

  // ---- restoring such a text ----

  /** A deletion whose name starts with that of a declared chain deletes that chain. */
  ghost predicate Separate(body: seq<Line>) {
    forall l, m :: l in body && m in body && l.ChainLine? && m.Delete? && HasPrefix(m.chain, l.chain) ==> m.chain == l.chain
  }

  lemma QuietDeletesNothing(text: string, c: Chain)
    requires Quiet(text)
    ensures !Contains(text, "-X " + c)
  {
    if Contains(text, "-X " + c) {
      assert ("-X " + c)[..3] == "-X ";
      ContainsPrefix(text, "-X " + c, "-X ");
      var i: nat :| OccursAt(text, "-X ", i);
      assert (text + " ")[i..i + 3] == text[i..i + 3];
      assert OccursAt(text + " ", "-X ", i);
    }
  }

  lemma DeletionFound(d: Chain, c: Chain)
    requires ' ' !in d && Contains("-X " + d, "-X " + c)
    ensures HasPrefix(d, c)
  {
    var text, x := "-X " + d, "-X " + c;
    var i: nat :| OccursAt(text, x, i);
    OccurrenceAt(text, x, i, 2);
    assert i == 0;
    assert text[0..|x|][3..] == c && text[0..|x|][3..] == d[..|c|];
  }

  lemma UndisturbedIf(family: string -> Family, texts: seq<string>, body: seq<Line>, c: Chain)
    requires Says(family, texts, body) && Separate(body) && ChainLine(c) in body
    ensures Undisturbed(texts, body, c)
  {
    forall k | 0 <= k < |texts| && Contains(texts[k], "-X " + c)
      ensures body[k] == Delete(c)
    {
      assert SaysLine(family, texts[k], body[k]) && body[k] in body;
      if Quiet(texts[k]) {
        QuietDeletesNothing(texts[k], c);
      } else {
        DeletionFound(body[k].chain, c);
        assert ChainLine(c).ChainLine? && HasPrefix(body[k].chain, ChainLine(c).chain);
      }
    }
  }

  function Framed(texts: seq<string>): string {
    Unlines(["*nat"] + texts + ["COMMIT"])
  }

  /** A text that says its lines restores what they restore. */
  lemma {:induction false} SaidRestores(family: string -> Family, tables: Tables, texts: seq<string>, body: seq<Line>)
    requires "nat" in tables && Says(family, texts, body) && Separate(body)
    ensures var lines := [TableLine] + body + [Commit];
            var (t, ok) := RestoreLines(tables["nat"], lines, lines);
            var r := RestoreText(family, tables, Framed(texts));
            r.tables == tables["nat" := t] && r.status == Outcome(ok)
    ensures Settled(family, tables["nat"]) ==>
              var lines := [TableLine] + body + [Commit]; Settled(family, RestoreLines(tables["nat"], lines, lines).0)
  {
    var lines, all := [TableLine] + body + [Commit], Framed(texts);
    assert WritesAll(family, texts, body) && OneLine(texts) && IsBody(body);
    forall l | l in body && l.ChainLine?
      ensures Seen(all, l.chain, lines)
    {
      var k :| 0 <= k < |body| && body[k] == l;
      assert SaysLine(family, texts[k], body[k]);
      UndisturbedIf(family, texts, body, l.chain);
      SeenIf(family, texts, body, l.chain);
    }
    TextRestores(family, tables, texts, body);
    if Settled(family, tables["nat"]) {
      SaidSettled(family, texts, body);
      RestoreSettled(family, tables["nat"], lines, lines);
    }
  }

  lemma SaidSettled(family: string -> Family, texts: seq<string>, body: seq<Line>)
    requires Says(family, texts, body)
    ensures forall l :: l in [TableLine] + body + [Commit] ==> SettledLine(family, l)
  {
    forall l | l in body
      ensures SettledLine(family, l)
    {
      var k :| 0 <= k < |body| && body[k] == l;
      assert SaysLine(family, texts[k], body[k]);
    }
  }

  // ---- what is read from the save ----

  ghost predicate Names(text: string, filters: seq<Chain>) {
    exists f :: f in filters && Contains(text, f)
  }

  /** filterRules on the lines of the save. */
  ghost function KeptTexts(texts: seq<string>, filters: seq<Chain>): seq<string> {
    if texts == [] then [] else (if Names(texts[0], filters) then [] else [texts[0]]) + KeptTexts(texts[1..], filters)
  }

  ghost predicate Appends(lines: seq<Line>) {
    forall k :: 0 <= k < |lines| ==> lines[k].Append?
  }

  lemma NamesMentions(c: Chain, r: Rule, filters: seq<Chain>)
    ensures Names(RuleText(c, r), filters) <==> Mentions(c, r, filters)
  {
  }

  lemma {:induction false} KeptTextsAre(lines: seq<Line>, filters: seq<Chain>)
    requires Appends(lines)
    ensures Appends(KeptLines(lines, filters)) && KeptTexts(Rendered(lines), filters) == Rendered(KeptLines(lines, filters))
  {
    if lines != [] {
      var l, tail := lines[0], lines[1..];
      KeptTextsAre(tail, filters);
      NamesMentions(l.chain, l.rule, filters);
      assert Rendered(lines)[1..] == Rendered(tail);
      var head := if Mentions(l.chain, l.rule, filters) then [] else [l];
      RenderedConcat(head, KeptLines(tail, filters));
      assert KeptLines(lines, filters) == head + KeptLines(tail, filters);
    }
  }

  /** The rules read from the save and filtered, as lines of text. */
  ghost function ReadKeptTexts(save: string, filters: seq<Chain>): seq<string> {
    KeptTexts(HostportRules(Split(save, '\n')), filters)
  }

  lemma SettledIsPlain(family: string -> Family, t: Table)
    requires Settled(family, t)
    ensures PlainTable(t)
  {
    forall c, r | c in t && r in t[c]
      ensures '\n' !in r
    {
      assert Keeps(family, r, r);
    }
  }

  lemma {:induction false} ExistingFrom(t: Table, order: seq<Chain>, l: Line)
    requires (forall c :: c in order ==> c in t) && l in Existing(t, order)
    ensures l.Append? && l.chain in t && l.rule in t[l.chain]
  {
    var c := order[0];
    var head := if IsHostport(c) then Block(c, RulesAt(t, c)) else [];
    assert c in order;
    if l in head {
      var k :| 0 <= k < |head| && head[k] == l;
      assert l == Append(c, t[c][k]);
    } else {
      ExistingFrom(t, order[1..], l);
    }
  }

  lemma {:induction false} KeptSay(family: string -> Family, t: Table, order: seq<Chain>, filters: seq<Chain>)
    requires Settled(family, t) && Enumerates(order, t.Keys)
    ensures Says(family, ReadKeptTexts(Unlines(SaveLines(t, order)), filters), KeptLines(Existing(t, order), filters))
  {
    var existing := Existing(t, order);
    SettledIsPlain(family, t);
    ReadRulesAreSaved(t, order);
    ExistingAreAppends(t, order);
    KeptTextsAre(existing, filters);
    var kept := KeptLines(existing, filters);
    forall k | 0 <= k < |kept|
      ensures SaysLine(family, Rendered(kept)[k], kept[k])
    {
      KeptAreExisting(existing, filters, kept[k]);
      ExistingFrom(t, order, kept[k]);
      AppendSays(family, kept[k].chain, kept[k].rule, kept[k].rule);
    }
  }

  /** The chains read from the save; the parser does not panic on a saved table. */
  function Found(save: string): map<Chain, string> {
    var found := ChainsIn("nat", save);
    if found.Some? then found.value else map[]
  }

  /** Their lines as they were read. */
  function Looked(found: map<Chain, string>, chains: seq<Chain>): (r: seq<string>)
    ensures |r| == |chains| && forall k :: 0 <= k < |r| && chains[k] in found ==> r[k] == found[chains[k]]
  {
    seq(|chains|, k requires 0 <= k < |chains| => if chains[k] in found then found[chains[k]] else "")
  }

  lemma {:induction false} LookedSay(family: string -> Family, t: Table, order: seq<Chain>, rest: seq<Chain>)
    requires Settled(family, t) && Enumerates(order, t.Keys) && forall c :: c in rest ==> c in t
    ensures var save := Unlines(SaveLines(t, order));
            ChainsIn("nat", save).Some? && Found(save).Keys == t.Keys && Looked(Found(save), rest) == ChainTexts(rest)
    ensures Says(family, ChainTexts(rest), ChainLines(rest))
  {
    SettledIsPlain(family, t);
    ParsedChainsAreSaved(t, order);
    ChainsSay(family, rest);
  }

  // ---- the lines of a pod ----

  function WrittenPort(digest: Digest, id: string, pod: PodPortMapping, pm: PortMapping): seq<string> {
    var p := PortOf(digest, id, pod, pm);
    ["-I " + KUBE_HOSTPORTS + " " + p.jump, "-I " + CRIO_HOSTPORTS_MASQ + " " + p.masqJump,
     RuleText(p.hp, WrittenDnat(pod, pm)), RuleText(p.masq, WrittenSnat(pod, pm))]
  }

  function WrittenPod(digest: Digest, id: string, pod: PodPortMapping, ms: seq<PortMapping>): seq<string> {
    if ms == [] then [] else WrittenPort(digest, id, pod, ms[0]) + WrittenPod(digest, id, pod, ms[1..])
  }

  lemma DispatchSettled()
    ensures SettledChain(KUBE_HOSTPORTS) && SettledChain(CRIO_HOSTPORTS_MASQ)
  {
    QuietWithout(KUBE_HOSTPORTS);
    QuietWithout(CRIO_HOSTPORTS_MASQ);
  }

  lemma PortChainsSettled(family: string -> Family, digest: Digest, id: string, pm: PortMapping)
    requires Sensible(family) && Base32(digest)
    ensures SettledChain(HpChain(digest, id, pm)) && SettledChain(MasqChain(digest, id, pm))
  {
    ChainShown(family, digest, Key(id, pm), KUBE_HP_PREFIX);
    ChainShown(family, digest, Key(id, pm), CRIO_MASQ_PREFIX);
  }

  lemma {:induction false} JumpsSay(family: string -> Family, digest: Digest, id: string, pod: PodPortMapping, pm: PortMapping)
    requires Sensible(family) && Base32(digest) && Readable(family, pod, pm)
    ensures var p := PortOf(digest, id, pod, pm);
            Says(family, ["-I " + KUBE_HOSTPORTS + " " + p.jump, "-I " + CRIO_HOSTPORTS_MASQ + " " + p.masqJump],
                 [Insert(KUBE_HOSTPORTS, p.jump), Insert(CRIO_HOSTPORTS_MASQ, p.masqJump)])
  {
    var p := PortOf(digest, id, pod, pm);
    DispatchSettled();
    JumpsKept(family, digest, id, pod, pm);
    InsertSays(family, KUBE_HOSTPORTS, p.jump, p.jump);
    InsertSays(family, CRIO_HOSTPORTS_MASQ, p.masqJump, p.masqJump);
  }

  lemma {:induction false} TargetsSay(family: string -> Family, digest: Digest, id: string, pod: PodPortMapping, pm: PortMapping)
    requires Sensible(family) && Base32(digest) && Readable(family, pod, pm)
    ensures var p := PortOf(digest, id, pod, pm);
            Says(family, [RuleText(p.hp, WrittenDnat(pod, pm)), RuleText(p.masq, WrittenSnat(pod, pm))],
                 [Append(p.hp, p.dnat), Append(p.masq, p.snat)])
  {
    var p := PortOf(digest, id, pod, pm);
    PortChainsSettled(family, digest, id, pm);
    DnatKept(family, pod, pm);
    SnatKept(family, pod, pm);
    AppendSays(family, p.hp, WrittenDnat(pod, pm), p.dnat);
    AppendSays(family, p.masq, WrittenSnat(pod, pm), p.snat);
  }

  lemma {:induction false} PortSays(family: string -> Family, digest: Digest, id: string, pod: PodPortMapping, pm: PortMapping)
    requires Sensible(family) && Base32(digest) && Readable(family, pod, pm)
    ensures Says(family, WrittenPort(digest, id, pod, pm), PortLines(PortOf(digest, id, pod, pm)))
  {
    var p := PortOf(digest, id, pod, pm);
    JumpsSay(family, digest, id, pod, pm);
    TargetsSay(family, digest, id, pod, pm);
    var a, x := ["-I " + KUBE_HOSTPORTS + " " + p.jump, "-I " + CRIO_HOSTPORTS_MASQ + " " + p.masqJump],
                [Insert(KUBE_HOSTPORTS, p.jump), Insert(CRIO_HOSTPORTS_MASQ, p.masqJump)];
    var b, y := [RuleText(p.hp, WrittenDnat(pod, pm)), RuleText(p.masq, WrittenSnat(pod, pm))],
                [Append(p.hp, p.dnat), Append(p.masq, p.snat)];
    SaysConcat(family, a, x, b, y);
    assert WrittenPort(digest, id, pod, pm) == a + b && PortLines(p) == x + y;
  }

  lemma {:induction false} PodSays(family: string -> Family, digest: Digest, id: string, pod: PodPortMapping, ms: seq<PortMapping>)
    requires Sensible(family) && Base32(digest) && forall pm :: pm in ms ==> Readable(family, pod, pm)
    ensures Says(family, WrittenPod(digest, id, pod, ms), LinesOf(PortsOf(digest, id, pod, ms)))
    ensures forall c :: c in ChainsOf(PortsOf(digest, id, pod, ms)) ==> SettledChain(c)
  {
    var ports := PortsOf(digest, id, pod, ms);
    if ms != [] {
      assert ms[0] in ms && ports[1..] == PortsOf(digest, id, pod, ms[1..]);
      PortSays(family, digest, id, pod, ms[0]);
      PortChainsSettled(family, digest, id, ms[0]);
      PodSays(family, digest, id, pod, ms[1..]);
      SaysConcat(family, WrittenPort(digest, id, pod, ms[0]), PortLines(ports[0]), WrittenPod(digest, id, pod, ms[1..]), LinesOf(ports[1..]));
    }
  }

  // ---- Add ----

  /** What Add hands to iptables-restore between the opening of the table and its commit, made
      from the text of the save. */
  ghost function AddTexts(digest: Digest, id: string, pod: PodPortMapping, ms: seq<PortMapping>, save: string, rest: seq<Chain>): seq<string> {
    var chains := ChainsOf(PortsOf(digest, id, pod, ms));
    ChainTexts(chains) + Looked(Found(save), rest) + WrittenPod(digest, id, pod, ms) + ReadKeptTexts(save, chains)
  }

  ghost function AddBody(t: Table, ports: seq<Port>, order: seq<Chain>, rest: seq<Chain>): seq<Line> {
    ChainLines(ChainsOf(ports)) + ChainLines(rest) + LinesOf(ports) + KeptLines(Existing(t, order), ChainsOf(ports))
  }

  lemma AddSays(family: string -> Family, digest: Digest, id: string, pod: PodPortMapping, ms: seq<PortMapping>, t: Table, order: seq<Chain>, rest: seq<Chain>)
    requires Sensible(family) && Base32(digest) && forall pm :: pm in ms ==> Readable(family, pod, pm)
    requires Settled(family, t) && Enumerates(order, t.Keys) && forall c :: c in rest ==> c in t
    ensures ChainsIn("nat", Unlines(SaveLines(t, order))).Some?
    ensures Says(family, AddTexts(digest, id, pod, ms, Unlines(SaveLines(t, order)), rest), AddBody(t, PortsOf(digest, id, pod, ms), order, rest))
  {
    var ports := PortsOf(digest, id, pod, ms);
    var chains, save := ChainsOf(ports), Unlines(SaveLines(t, order));
    PodSays(family, digest, id, pod, ms);
    ChainsSay(family, chains);
    LookedSay(family, t, order, rest);
    KeptSay(family, t, order, chains);
    var a, x := ChainTexts(chains), ChainLines(chains);
    var b, y := Looked(Found(save), rest), ChainLines(rest);
    var c, z := WrittenPod(digest, id, pod, ms), LinesOf(ports);
    SaysConcat(family, a, x, b, y);
    SaysConcat(family, a + b, x + y, c, z);
    SaysConcat(family, a + b + c, x + y + z, ReadKeptTexts(save, chains), KeptLines(Existing(t, order), chains));
  }

  lemma {:induction false} NoDeletionInAdd(t: Table, ports: seq<Port>, order: seq<Chain>, rest: seq<Chain>, l: Line)
    requires l in AddBody(t, ports, order, rest)
    ensures !l.Delete?
  {
    if l in KeptLines(Existing(t, order), ChainsOf(ports)) {
      KeptAreExisting(Existing(t, order), ChainsOf(ports), l);
      ExistingAppends(t, order, l);
    } else if l in LinesOf(ports) {
      PodLinesWrite(ports, l);
    }
  }

  lemma {:induction false} PodLinesWrite(ports: seq<Port>, l: Line)
    requires l in LinesOf(ports)
    ensures !l.Delete?
  {
    if l !in PortLines(ports[0]) {
      PodLinesWrite(ports[1..], l);
    }
  }

  lemma {:induction false} AddRestores(family: string -> Family, tables: Tables, texts: seq<string>, ports: seq<Port>, order: seq<Chain>, rest: seq<Chain>)
    requires "nat" in tables && Settled(family, tables["nat"]) && Says(family, texts, AddBody(tables["nat"], ports, order, rest))
    requires var t := tables["nat"];
             && KUBE_HOSTPORTS in t && CRIO_HOSTPORTS_MASQ in t && Enumerates(order, t.Keys)
             && Enumerates(rest, HostportChains(t) - set c | c in ChainsOf(ports))
    requires forall p :: p in ports ==> GoodPort(p)
    ensures var r := RestoreText(family, tables, Framed(texts));
            r.tables == tables["nat" := AddedTable(tables["nat"], ports)] && r.status == Going
    ensures Settled(family, AddedTable(tables["nat"], ports))
  {
    var t := tables["nat"];
    var body := AddBody(t, ports, order, rest);
    forall l | l in body
      ensures !l.Delete?
    {
      NoDeletionInAdd(t, ports, order, rest, l);
    }
    SaidRestores(family, tables, texts, body);
    AddProducesTable(t, ports, order, rest);
    AddLinesAre(t, ports, order, rest);
  }

  lemma AddLinesAre(t: Table, ports: seq<Port>, order: seq<Chain>, rest: seq<Chain>)
    ensures [TableLine] + AddBody(t, ports, order, rest) + [Commit] == AddLines(t, ports, order, rest)
  {
  }

  /** On text, Add gives the table it promises, whatever the orders of the save and of the chain
      lines; the new table can be handled in the same way again. */
  lemma {:induction false} AddTextRestores(family: string -> Family, tables: Tables, digest: Digest, id: string, pod: PodPortMapping, ms: seq<PortMapping>, order: seq<Chain>, rest: seq<Chain>)
    requires Sensible(family) && Base32(digest) && forall pm :: pm in ms ==> Readable(family, pod, pm)
    requires "nat" in tables && Settled(family, tables["nat"])
    requires var t, ports := tables["nat"], PortsOf(digest, id, pod, ms);
             && KUBE_HOSTPORTS in t && CRIO_HOSTPORTS_MASQ in t && Enumerates(order, t.Keys)
             && Enumerates(rest, HostportChains(t) - set c | c in ChainsOf(ports))
    ensures var t, ports := tables["nat"], PortsOf(digest, id, pod, ms);
            var save := Unlines(SaveLines(t, order));
            var r := RestoreText(family, tables, Framed(AddTexts(digest, id, pod, ms, save, rest)));
            ChainsIn("nat", save).Some? && r.tables == tables["nat" := AddedTable(t, ports)] && r.status == Going
    ensures Settled(family, AddedTable(tables["nat"], PortsOf(digest, id, pod, ms)))
  {
    var t, ports := tables["nat"], PortsOf(digest, id, pod, ms);
    AddSays(family, digest, id, pod, ms, t, order, rest);
    PortsAreGood(digest, id, pod, ms);
    AddRestores(family, tables, AddTexts(digest, id, pod, ms, Unlines(SaveLines(t, order)), rest), ports, order, rest);
  }

  // ---- Remove ----

  ghost function RemoveTexts(ports: seq<Port>, save: string, rest: seq<Chain>): seq<string> {
    var found, chains := Found(save), ChainsOf(ports);
    Looked(found, rest) + ReadKeptTexts(save, chains) + DeleteTexts(PresentIn(chains, found.Keys))
  }

  ghost function RemoveBody(t: Table, ports: seq<Port>, order: seq<Chain>, rest: seq<Chain>): seq<Line> {
    ChainLines(rest) + KeptLines(Existing(t, order), ChainsOf(ports)) + DeleteLines(Present(ChainsOf(ports), t))
  }

  function PresentIn(chains: seq<Chain>, found: set<Chain>): seq<Chain> {
    if chains == [] then [] else (if chains[0] in found then [chains[0]] else []) + PresentIn(chains[1..], found)
  }

  lemma {:induction false} PresentInTable(chains: seq<Chain>, t: Table)
    ensures PresentIn(chains, t.Keys) == Present(chains, t)
  {
    if chains != [] {
      PresentInTable(chains[1..], t);
    }
  }

  /** No hostport chain has a name that begins the name of a chain of the pod. */
  ghost predicate NoPrefixes(t: Table, ports: seq<Port>) {
    forall c, d :: c in t && IsHostport(c) && d in ChainsOf(ports) && HasPrefix(d, c) ==> c == d
  }

  lemma {:induction false} RemoveSays(family: string -> Family, t: Table, ports: seq<Port>, order: seq<Chain>, rest: seq<Chain>)
    requires Settled(family, t) && Enumerates(order, t.Keys) && forall c :: c in rest ==> c in t
    ensures ChainsIn("nat", Unlines(SaveLines(t, order))).Some?
    ensures Says(family, RemoveTexts(ports, Unlines(SaveLines(t, order)), rest), RemoveBody(t, ports, order, rest))
  {
    var chains, save := ChainsOf(ports), Unlines(SaveLines(t, order));
    var gone, read, kept := Present(chains, t), ReadKeptTexts(save, chains), KeptLines(Existing(t, order), chains);
    LookedSay(family, t, order, rest);
    PresentInTable(chains, t);
    KeptSay(family, t, order, chains);
    PresentAre(chains, t);
    DeletesSay(family, gone);
    SaysConcat(family, ChainTexts(rest), ChainLines(rest), read, kept);
    SaysConcat(family, ChainTexts(rest) + read, ChainLines(rest) + kept, DeleteTexts(gone), DeleteLines(gone));
  }

  lemma {:induction false} RemoveSeparate(t: Table, ports: seq<Port>, order: seq<Chain>, rest: seq<Chain>)
    requires NoPrefixes(t, ports) && Enumerates(rest, HostportChains(t))
    ensures Separate(RemoveBody(t, ports, order, rest))
  {
    var gone, kept := Present(ChainsOf(ports), t), KeptLines(Existing(t, order), ChainsOf(ports));
    var body := RemoveBody(t, ports, order, rest);
    forall l | l in kept
      ensures l.Append?
    {
      KeptAreExisting(Existing(t, order), ChainsOf(ports), l);
      ExistingAppends(t, order, l);
    }
    PresentAre(ChainsOf(ports), t);
    forall l, m | l in body && m in body && l.ChainLine? && m.Delete? && HasPrefix(m.chain, l.chain)
      ensures m.chain == l.chain
    {
      assert l in ChainLines(rest) && m in DeleteLines(gone);
      assert l.chain in rest && m.chain in gone;
    }
  }

  /** On text, Remove leaves the table it promises, and fails exactly when an existing chain of the
      pod is listed twice. */
  lemma {:induction false} RemoveTextRestores(family: string -> Family, tables: Tables, ports: seq<Port>, order: seq<Chain>, rest: seq<Chain>)
    requires "nat" in tables && Settled(family, tables["nat"]) && NoPrefixes(tables["nat"], ports)
    requires Enumerates(order, tables["nat"].Keys) && Enumerates(rest, HostportChains(tables["nat"]))
    requires Present(ChainsOf(ports), tables["nat"]) != []
    ensures var t := tables["nat"];
            var save := Unlines(SaveLines(t, order));
            var r := RestoreText(family, tables, Framed(RemoveTexts(ports, save, rest)));
            ChainsIn("nat", save).Some? && r.tables == tables["nat" := RemoveLeaves(t, ports)] && r.status == Outcome(NoDuplicates(Present(ChainsOf(ports), t)))
    ensures Settled(family, RemoveLeaves(tables["nat"], ports))
  {
    var t := tables["nat"];
    RemoveSays(family, t, ports, order, rest);
    RemoveSeparate(t, ports, order, rest);
    SaidRestores(family, tables, RemoveTexts(ports, Unlines(SaveLines(t, order)), rest), RemoveBody(t, ports, order, rest));
    RemoveLinesAre(t, ports, order, rest);
    RemoveProducesTable(t, ports, order, rest);
    RemoveLeavesTable(t, ports, order, rest);
  }

  lemma {:induction false} RemoveLinesAre(t: Table, ports: seq<Port>, order: seq<Chain>, rest: seq<Chain>)
    ensures [TableLine] + RemoveBody(t, ports, order, rest) + [Commit] == RemoveLines(t, ports, order, rest, Present(ChainsOf(ports), t))
  {
  }

  // ---- the base set-up ----

  lemma CommentShown(family: string -> Family)
    requires Sensible(family)
    ensures Shows(family, "-m", "-m") && Shows(family, "comment", "comment") && Shows(family, "--comment", "--comment") && Shows(family, "-j", "-j")
  {
    Literal(family, "-m");
    Literal(family, "comment");
    Literal(family, "--comment");
    Literal(family, "-j");
  }

  lemma QuotedLiteral(family: string -> Family, w: string)
    requires Sensible(family) && IsQuoted(w) && '\n' !in w && 'X' !in w
    ensures Shows(family, w, w)
  {
    QuietWithout(w);
    NotADestination(w);
    assert w[0] in w;
  }

  lemma ShowsTen(family: string -> Family, a: string, b: string, c: string, d: string, e: string, f: string, g: string, h: string, i: string)
    requires Shows(family, a, a) && Shows(family, b, b) && Shows(family, c, c) && Shows(family, d, d) && Shows(family, e, e)
    requires Shows(family, f, f) && Shows(family, g, g) && Shows(family, h, h) && Shows(family, i, i)
    ensures ShowsAll(family, [a, b, c, d, a, e, f, g, h, i], [a, b, c, d, a, e, f, g, h, i])
  {
  }

  lemma BaseQuotes(family: string -> Family)
    requires Sensible(family)
    ensures Shows(family, "\"kube hostport portals\"", "\"kube hostport portals\"")
    ensures Shows(family, "\"kube hostport masquerading\"", "\"kube hostport masquerading\"")
  {
    QuotedLiteral(family, "\"kube hostport portals\"");
    QuotedLiteral(family, "\"kube hostport masquerading\"");
  }

  lemma PortalsLiterals(family: string -> Family)
    requires Sensible(family)
    ensures Shows(family, "addrtype", "addrtype") && Shows(family, "--dst-type", "--dst-type") && Shows(family, "LOCAL", "LOCAL")
    ensures Shows(family, KUBE_HOSTPORTS, KUBE_HOSTPORTS)
  {
    Literal(family, "addrtype");
    Literal(family, "--dst-type");
    Literal(family, "LOCAL");
    Literal(family, KUBE_HOSTPORTS);
  }

  lemma MasqueradingLiterals(family: string -> Family)
    requires Sensible(family)
    ensures Shows(family, "conntrack", "conntrack") && Shows(family, "--ctstate", "--ctstate") && Shows(family, "DNAT", "DNAT")
    ensures Shows(family, CRIO_HOSTPORTS_MASQ, CRIO_HOSTPORTS_MASQ)
  {
    Literal(family, "conntrack");
    Literal(family, "--ctstate");
    Literal(family, "DNAT");
    Literal(family, CRIO_HOSTPORTS_MASQ);
  }

  lemma {:induction false} BaseKept(family: string -> Family)
    requires Sensible(family)
    ensures Keeps(family, PORTALS_JUMP, PORTALS_JUMP) && Keeps(family, MASQ_JUMP, MASQ_JUMP)
  {
    CommentShown(family);
    BaseQuotes(family);
    PortalsLiterals(family);
    MasqueradingLiterals(family);
    ShowsTen(family, "-m", "comment", "--comment", "\"kube hostport portals\"", "addrtype", "--dst-type", "LOCAL", "-j", KUBE_HOSTPORTS);
    WordsKept(family, PORTALS_WORDS, PORTALS_WORDS);
    ShowsTen(family, "-m", "comment", "--comment", "\"kube hostport masquerading\"", "conntrack", "--ctstate", "DNAT", "-j", CRIO_HOSTPORTS_MASQ);
    WordsKept(family, MASQ_WORDS, MASQ_WORDS);
  }

  lemma WithSettled(family: string -> Family, t: Table, c: Chain, r: Rule)
    requires Settled(family, t) && SettledChain(c)
    ensures Settled(family, WithChain(t, c)) && (Keeps(family, r, r) ==> Settled(family, WithRule(t, c, r)))
  {
  }

  lemma BuiltinSettled()
    ensures SettledChain("OUTPUT") && SettledChain("PREROUTING") && SettledChain("POSTROUTING")
  {
    QuietWithout("OUTPUT");
    QuietWithout("PREROUTING");
    QuietWithout("POSTROUTING");
  }

  /** The base rules are written as they are kept, so setting them up keeps a table settled. */
  lemma {:induction false} BaseSettled(family: string -> Family, t: Table)
    requires Sensible(family) && Settled(family, t)
    ensures Settled(family, EnsureBase(t))
  {
    BaseKept(family);
    DispatchSettled();
    BuiltinSettled();
    var a := WithChain(t, KUBE_HOSTPORTS);
    var b := WithRule(a, "OUTPUT", PORTALS_JUMP);
    var c := WithRule(b, "PREROUTING", PORTALS_JUMP);
    var d := WithChain(c, CRIO_HOSTPORTS_MASQ);
    WithSettled(family, t, KUBE_HOSTPORTS, PORTALS_JUMP);
    WithSettled(family, a, "OUTPUT", PORTALS_JUMP);
    WithSettled(family, b, "PREROUTING", PORTALS_JUMP);
    WithSettled(family, c, CRIO_HOSTPORTS_MASQ, PORTALS_JUMP);
    WithSettled(family, d, "POSTROUTING", MASQ_JUMP);
  }
}
