/** The text side of the hostport manager: the hand-written line reader and chain parser
    (internal/hostport/hostport_manager.go), the printer and the line interpreter of
    internal/hostport/fake_iptables.go. What the parser reads is what the printer wrote. */
module IptablesText {
  import opened Options
  import opened Text
  import opened Iptables
  import opened Hostport

  // ---- lines and trimming ----

  /** The next newline at or after `i`, or the end of the buffer. */
  function LineEnd(buf: string, i: nat): (e: nat)
    requires i <= |buf|
    ensures i <= e <= |buf| && '\n' !in buf[i..e] && (e < |buf| ==> buf[e] == '\n')
    decreases |buf| - i
  {
    if i == |buf| || buf[i] == '\n' then i
    else
      var e := LineEnd(buf, i + 1);
      assert buf[i..e] == [buf[i]] + buf[i + 1..e];
      e
  }

  /** What is read from a last line that lacks its newline. */
  function TailRead(u: string): string {
    TailOf(TrimLeft(u))
  }

  function TailOf(t: string): string {
    if |t| <= 1 || t[|t| - 1] == ' ' then ""
    else if t[|t| - 2] == ' ' then TrimRight(t[..|t| - 1])
    else t
  }

  lemma {:induction false} TrimLeftAt(s: string, k: nat)
    requires k <= |s| && (forall i :: 0 <= i < k ==> s[i] == ' ') && (k < |s| ==> s[k] != ' ')
    ensures TrimLeft(s) == s[k..]
  {
    if k > 0 {
      TrimLeftAt(s[1..], k - 1);
      assert s[1..][k - 1..] == s[k..];
    }
  }

  lemma {:induction false} TrimRightAt(s: string, k: nat)
    requires k <= |s| && (forall i :: k <= i < |s| ==> s[i] == ' ') && (k > 0 ==> s[k - 1] != ' ')
    ensures TrimRight(s) == s[..k]
    decreases |s|
  {
    if k < |s| {
      TrimRightAt(s[..|s| - 1], k);
      assert s[..|s| - 1][..k] == s[..k];
    }
  }

  /** The line at `i`: cut at its newline and trimmed, or TailRead when there is none. */
  function LineRead(buf: string, i: nat): string
    requires i <= |buf|
  {
    var e := LineEnd(buf, i);
    if e < |buf| then Trim(buf[i..e]) else TailRead(buf[i..])
  }

  function LineNext(buf: string, i: nat): nat
    requires i <= |buf|
  {
    var e := LineEnd(buf, i);
    if e < |buf| then e + 1 else e
  }

  ghost predicate Indented(buf: string, i: nat, left: nat)
    requires i <= |buf|
  {
    i <= left <= LineEnd(buf, i) && (forall k :: i <= k < left ==> buf[k] == ' ') && (left < |buf| ==> buf[left] != ' ')
  }

  lemma {:induction false} IndentTrimmed(buf: string, i: nat, left: nat)
    requires i <= |buf| && Indented(buf, i, left)
    ensures TrimLeft(buf[i..LineEnd(buf, i)]) == buf[left..LineEnd(buf, i)]
  {
    var e := LineEnd(buf, i);
    TrimLeftAt(buf[i..e], left - i);
    assert buf[i..e][left - i..] == buf[left..e];
  }

  lemma {:induction false} FinishLine(buf: string, i: nat, left: nat, right: nat)
    requires i <= |buf| && Indented(buf, i, left)
    requires var e := LineEnd(buf, i);
             left < right <= e < |buf| && buf[right - 1] != ' ' && forall k :: right <= k < e ==> buf[k] == ' '
    ensures buf[left..right] == LineRead(buf, i)
  {
    var e := LineEnd(buf, i);
    IndentTrimmed(buf, i, left);
    TrimRightAt(buf[left..e], right - left);
    assert buf[left..e][..right - left] == buf[left..right];
  }

  lemma {:induction false} TailTrimmed(buf: string, i: nat, left: nat)
    requires i <= |buf| && Indented(buf, i, left) && LineEnd(buf, i) == |buf|
    ensures TrimLeft(buf[i..]) == buf[left..]
  {
    IndentTrimmed(buf, i, left);
    assert buf[i..|buf|] == buf[i..] && buf[left..|buf|] == buf[left..];
  }

  /** The last character of an unterminated line is kept only if no space precedes it. */
  lemma {:induction false} FinishTail(buf: string, i: nat, left: nat, right: nat)
    requires i <= |buf| && Indented(buf, i, left) && LineEnd(buf, i) == |buf|
    requires left < right <= |buf| && left + 2 <= |buf| && buf[|buf| - 1] != ' '
    requires right == |buf| ==> buf[|buf| - 2] != ' '
    requires right < |buf| ==> right < |buf| - 1 && buf[right - 1] != ' ' && forall k :: right <= k < |buf| - 1 ==> buf[k] == ' '
    ensures buf[left..right] == LineRead(buf, i)
  {
    var t := buf[left..];
    TailTrimmed(buf, i, left);
    assert t[|t| - 1] == buf[|buf| - 1] && t[|t| - 2] == buf[|buf| - 2];
    if right < |buf| {
      var h := t[..|t| - 1];
      assert h == buf[left..|buf| - 1];
      TrimRightAt(h, right - left);
      assert h[..right - left] == buf[left..right];
    }
  }

  /** A line of spaces, or a single character without a newline, reads as nothing. */
  lemma {:induction false} ShortLine(buf: string, i: nat, left: nat)
    requires i <= |buf| && Indented(buf, i, left)
    requires var e := LineEnd(buf, i);
             left == e || (e == |buf| && (left == e - 1 || buf[e - 1] == ' '))
    ensures LineRead(buf, i) == ""
  {
    IndentTrimmed(buf, i, left);
    if LineEnd(buf, i) == |buf| {
      TailTrimmed(buf, i, left);
    }
  }

  /** On a line that ends in a newline the reader cuts at the newline and trims spaces; in every
      case it advances. */
  method ReadLine(readIndex: nat, buf: string) returns (line: string, n: nat)
    requires readIndex <= |buf|
    ensures readIndex < |buf| ==> readIndex < n <= |buf|
    ensures line == LineRead(buf, readIndex) && n == LineNext(buf, readIndex)
  {
    var current := readIndex;
    ghost var e := LineEnd(buf, readIndex);
    while current < |buf| && buf[current] == ' '
      invariant readIndex <= current <= e
      invariant forall i :: readIndex <= i < current ==> buf[i] == ' '
    {
      current := current + 1;
    }
    var left := current;
    var right := -1;
    while current < |buf|
      invariant left <= current <= e
      invariant right == -1 && left < current ==> buf[current - 1] != ' ' && current < |buf|
      invariant right != -1 ==> left < right < current && buf[right - 1] != ' ' && forall i :: right <= i < current ==> buf[i] == ' '
    {
      if buf[current] == ' ' {
        if right == -1 {
          right := current;
        }
      } else if buf[current] == '\n' || current == |buf| - 1 {
        if current <= left {
          ShortLine(buf, readIndex, left);
          return "", current + 1;
        }
        if right == -1 {
          right := current;
          if current == |buf| - 1 && buf[current] != '\n' {
            right := current + 1;
          }
        }
        if buf[current] == '\n' {
          FinishLine(buf, readIndex, left, right);
        } else {
          FinishTail(buf, readIndex, left, right);
        }
        return buf[left..right], current + 1;
      } else {
        right := -1;
      }
      current := current + 1;
    }
    ShortLine(buf, readIndex, left);
    return "", current;
  }

  /** Without its newline a line is still read whole exactly when it is blank, or its last two
      characters are both not spaces. */
  lemma {:induction false} TailReadExactly(u: string)
    ensures TailRead(u) == Trim(u) <==>
            Trim(u) == "" || (|TrimLeft(u)| >= 2 && u[|u| - 1] != ' ' && u[|u| - 2] != ' ')
  {
    TrimLeftSuffix(u);
    var t := TrimLeft(u);
    TailOfExactly(t);
    assert t != "" ==> t[|t| - 1] == u[|u| - 1];
    assert |t| >= 2 ==> t[|t| - 2] == u[|u| - 2];
  }

  /** A last field of one character is lost. */
  lemma {:induction false} TailLost()
    ensures TailRead("a b") == "a" && Trim("a b") == "a b"
  {
    var t := "a b";
    assert TrimLeft(t) == t && t[..2] == "a " && "a "[..1] == "a";
    assert TrimRight("a ") == TrimRight("a");
  }

  lemma {:induction false} TrimLeftSuffix(u: string)
    ensures var t := TrimLeft(u); |t| <= |u| && t == u[|u| - |t|..] && (t != "" ==> t[0] != ' ')
  {
    if u != "" && u[0] == ' ' {
      TrimLeftSuffix(u[1..]);
    }
  }

  lemma {:induction false} TailOfExactly(t: string)
    requires t == "" || t[0] != ' '
    ensures TailOf(t) == TrimRight(t) <==> TrimRight(t) == "" || (|t| >= 2 && t[|t| - 1] != ' ' && t[|t| - 2] != ' ')
  {
    TrimRightLength(t);
    if t != "" {
      TrimRightLength(t[..|t| - 1]);
    }
  }

  lemma {:induction false} TrimRightLength(s: string)
    ensures TrimRight(s) <= s && (TrimRight(s) == s <==> s == "" || s[|s| - 1] != ' ')
    ensures s != "" && s[0] != ' ' ==> TrimRight(s) != ""
    decreases |s|
  {
    if s != "" && s[|s| - 1] == ' ' {
      TrimRightLength(s[..|s| - 1]);
    }
  }

  // ---- the chain parser ----

  function Lines(buf: string, i: nat): seq<string>
    requires i <= |buf|
    decreases |buf| - i
  {
    if i == |buf| then [] else [LineRead(buf, i)] + Lines(buf, LineNext(buf, i))
  }

  /** What follows the line that opens the table. */
  function TableBody(lines: seq<string>, opening: string): seq<string> {
    if lines == [] then []
    else if HasPrefix(lines[0], opening) then lines[1..]
    else TableBody(lines[1..], opening)
  }

  predicate IsChainLine(line: string) {
    |line| > 1 && line[0] == ':'
  }

  predicate EndsTable(line: string) {
    HasPrefix(line, "COMMIT") || (line != "" && line[0] == '*')
  }

  /** The chains declared before the table ends, each with its line; None stands for the panic
      on a chain line without a space. */
  function Collect(found: map<Chain, string>, lines: seq<string>): Option<map<Chain, string>>
    decreases |lines|
  {
    if lines == [] || EndsTable(lines[0]) then Some(found)
    else if IsChainLine(lines[0]) then
      var k := Index(lines[0], ' ');
      if k == |lines[0]| then None else Collect(found[lines[0][1..k] := lines[0]], lines[1..])
    else Collect(found, lines[1..])
  }

  function ChainsIn(table: string, save: string): Option<map<Chain, string>> {
    Collect(map[], TableBody(Lines(save, 0), "*" + table))
  }

  method GetChainLines(table: string, save: string) returns (r: Option<map<Chain, string>>)
    ensures r == ChainsIn(table, save)
  {
    var chains: map<Chain, string> := map[];
    var readIndex := 0;
    var prefix := "*" + table;
    ghost var goal := TableBody(Lines(save, 0), prefix);
    while readIndex < |save|
      invariant 0 <= readIndex <= |save|
      invariant goal == TableBody(Lines(save, readIndex), prefix)
      decreases |save| - readIndex
    {
      var line, n := ReadLine(readIndex, save);
      assert Lines(save, readIndex)[1..] == Lines(save, n);
      readIndex := n;
      if HasPrefix(line, prefix) {
        assert goal == Lines(save, readIndex);
        break;
      }
    }
    assert goal == Lines(save, readIndex);
    while readIndex < |save|
      invariant 0 <= readIndex <= |save|
      invariant Collect(map[], goal) == Collect(chains, Lines(save, readIndex))
      decreases |save| - readIndex
    {
      var line, n := ReadLine(readIndex, save);
      assert Lines(save, readIndex)[1..] == Lines(save, n);
      readIndex := n;
      if |line| == 0 {
        continue;
      }
      if HasPrefix(line, "COMMIT") || line[0] == '*' {
        return Some(chains);
      } else if line[0] == '#' {
        continue;
      } else if line[0] == ':' && |line| > 1 {
        var spaceIndex := Index(line, ' ');
        if spaceIndex == |line| {
          return None;
        }
        chains := chains[line[1..spaceIndex] := line];
      }
    }
    return Some(chains);
  }

  // ---- the printer ----

  function ChainText(c: Chain): string {
    ":" + c + " - [0:0]"
  }

  function Unlines(lines: seq<string>): string {
    if lines == [] then "" else lines[0] + "\n" + Unlines(lines[1..])
  }

  function ChainTexts(order: seq<Chain>): (r: seq<string>)
    ensures |r| == |order| && forall i :: 0 <= i < |r| ==> r[i] == ChainText(order[i])
  {
    seq(|order|, i requires 0 <= i < |order| => ChainText(order[i]))
  }

  function RuleTexts(c: Chain, rules: seq<Rule>): (r: seq<string>)
    ensures |r| == |rules| && forall i :: 0 <= i < |r| ==> r[i] == RuleText(c, rules[i])
  {
    seq(|rules|, i requires 0 <= i < |rules| => RuleText(c, rules[i]))
  }

  function AllRuleTexts(t: Table, order: seq<Chain>): seq<string> {
    if order == [] then [] else RuleTexts(order[0], RulesAt(t, order[0])) + AllRuleTexts(t, order[1..])
  }

  function SaveLines(t: Table, order: seq<Chain>): seq<string> {
    ["*nat"] + ChainTexts(order) + AllRuleTexts(t, order) + ["COMMIT"]
  }

  lemma {:induction false} UnlinesConcat(a: seq<string>, b: seq<string>)
    ensures Unlines(a + b) == Unlines(a) + Unlines(b)
  {
    if a == [] {
      assert a + b == b;
    } else {
      assert (a + b)[1..] == a[1..] + b;
      UnlinesConcat(a[1..], b);
    }
  }

  lemma NextRule(c: Chain, rules: seq<Rule>, i: nat)
    requires i < |rules|
    ensures Unlines(RuleTexts(c, rules[..i + 1])) == Unlines(RuleTexts(c, rules[..i])) + "-A " + c + " " + rules[i] + "\n"
  {
    assert RuleTexts(c, rules[..i + 1]) == RuleTexts(c, rules[..i]) + [RuleText(c, rules[i])];
    UnlinesConcat(RuleTexts(c, rules[..i]), [RuleText(c, rules[i])]);
    assert Unlines([RuleText(c, rules[i])]) == RuleText(c, rules[i]) + "\n" + "";
  }

  method SaveChain(c: Chain, rules: seq<Rule>) returns (data: string)
    ensures data == Unlines(RuleTexts(c, rules))
  {
    data := "";
    var i := 0;
    while i < |rules|
      invariant 0 <= i <= |rules|
      invariant data == Unlines(RuleTexts(c, rules[..i]))
    {
      NextRule(c, rules, i);
      data := data + "-A " + c + " " + rules[i] + "\n";
      i := i + 1;
    }
    assert rules[..i] == rules;
  }

  /** The saved text, the chains in the given (arbitrary) order. */
  method SaveInto(t: Table, order: seq<Chain>) returns (buffer: string)
    ensures buffer == Unlines(SaveLines(t, order))
  {
    buffer := "*nat\n";
    var rules := "";
    var i := 0;
    while i < |order|
      invariant 0 <= i <= |order|
      invariant buffer == "*nat\n" + Unlines(ChainTexts(order[..i]))
      invariant rules == Unlines(AllRuleTexts(t, order[..i]))
    {
      SaveStep(t, order, i);
      buffer := buffer + ChainText(order[i]) + "\n";
      var more := SaveChain(order[i], RulesAt(t, order[i]));
      rules := rules + more;
      i := i + 1;
    }
    assert order[..i] == order;
    buffer := buffer + rules + "COMMIT\n";
    SavedText(t, order);
  }

  lemma {:induction false} SaveStep(t: Table, order: seq<Chain>, i: nat)
    requires i < |order|
    ensures Unlines(ChainTexts(order[..i + 1])) == Unlines(ChainTexts(order[..i])) + ChainText(order[i]) + "\n"
    ensures Unlines(AllRuleTexts(t, order[..i + 1])) == Unlines(AllRuleTexts(t, order[..i])) + Unlines(RuleTexts(order[i], RulesAt(t, order[i])))
  {
    var c := order[i];
    assert order[..i + 1] == order[..i] + [c];
    assert ChainTexts(order[..i + 1]) == ChainTexts(order[..i]) + [ChainText(c)];
    UnlinesConcat(ChainTexts(order[..i]), [ChainText(c)]);
    OneLineText(ChainText(c));
    AllRuleTextsConcat(t, order[..i], [c]);
    assert AllRuleTexts(t, [c]) == RuleTexts(c, RulesAt(t, c));
    UnlinesConcat(AllRuleTexts(t, order[..i]), AllRuleTexts(t, [c]));
  }

  lemma OneLineText(line: string)
    ensures Unlines([line]) == line + "\n"
  {
    assert Unlines([line][1..]) == "";
  }

  lemma {:induction false} SavedText(t: Table, order: seq<Chain>)
    ensures Unlines(SaveLines(t, order)) == "*nat\n" + Unlines(ChainTexts(order)) + Unlines(AllRuleTexts(t, order)) + "COMMIT\n"
  {
    FourTexts(["*nat"], ChainTexts(order), AllRuleTexts(t, order), ["COMMIT"]);
    OneLineText("*nat");
    OneLineText("COMMIT");
  }

  lemma {:induction false} FourTexts(a: seq<string>, b: seq<string>, c: seq<string>, d: seq<string>)
    ensures Unlines(a + b + c + d) == Unlines(a) + Unlines(b) + Unlines(c) + Unlines(d)
  {
    UnlinesConcat(a + b + c, d);
    UnlinesConcat(a + b, c);
    UnlinesConcat(a, b);
  }

  lemma {:induction false} AllRuleTextsConcat(t: Table, a: seq<Chain>, b: seq<Chain>)
    ensures AllRuleTexts(t, a + b) == AllRuleTexts(t, a) + AllRuleTexts(t, b)
  {
    if a == [] {
      assert a + b == b;
    } else {
      assert (a + b)[1..] == a[1..] + b;
      AllRuleTextsConcat(t, a[1..], b);
    }
  }

  // ---- what was printed is what is read ----

  /** A chain name without spaces and newlines, a rule without newlines. */
  predicate PlainChain(c: Chain) {
    ' ' !in c && '\n' !in c
  }

  ghost predicate PlainTable(t: Table) {
    forall c :: c in t ==> PlainChain(c) && forall r :: r in t[c] ==> '\n' !in r
  }

  function Trims(lines: seq<string>): (r: seq<string>)
    ensures |r| == |lines|
  {
    seq(|lines|, i requires 0 <= i < |lines| => Trim(lines[i]))
  }

  lemma {:induction false} LineEndIs(buf: string, i: nat, e: nat)
    requires i <= e < |buf| && '\n' !in buf[i..e] && buf[e] == '\n'
    ensures LineEnd(buf, i) == e
  {
  }

  lemma FirstLine(buf: string, i: nat, l: string, rest: string)
    requires i <= |buf| && buf[i..] == l + "\n" + rest
    ensures i + |l| < |buf| && buf[i..i + |l|] == l && buf[i + |l|] == '\n' && buf[i + |l| + 1..] == rest
  {
    assert buf[i..][..|l|] == l && buf[i..][|l|] == '\n' && buf[i..][|l| + 1..] == rest;
  }

  /** The text at i is read as these lines. */
  ghost predicate ReadAs(buf: string, i: nat, r: seq<string>)
    requires i <= |buf|
    decreases |r|
  {
    if r == [] then i == |buf|
    else i < |buf| && LineRead(buf, i) == r[0] && ReadAs(buf, LineNext(buf, i), r[1..])
  }

  lemma {:induction false} ReadAsLines(buf: string, i: nat, r: seq<string>)
    requires i <= |buf| && ReadAs(buf, i, r)
    ensures Lines(buf, i) == r
    decreases |r|
  {
    if r != [] {
      ReadAsLines(buf, LineNext(buf, i), r[1..]);
      assert r == [r[0]] + r[1..];
    }
  }

  lemma LineOf(buf: string, i: nat, l: string, rest: string)
    requires i <= |buf| && buf[i..] == l + "\n" + rest && '\n' !in l
    ensures i + |l| < |buf| && buf[i + |l| + 1..] == rest && LineRead(buf, i) == Trim(l) && LineNext(buf, i) == i + |l| + 1
  {
    FirstLine(buf, i, l, rest);
    LineEndIs(buf, i, i + |l|);
  }

  ghost predicate OneLine(lines: seq<string>) {
    forall k :: 0 <= k < |lines| ==> '\n' !in lines[k]
  }

  lemma {:induction false} FirstOfUnlines(buf: string, i: nat, lines: seq<string>)
    requires i <= |buf| && buf[i..] == Unlines(lines) && OneLine(lines) && lines != []
    ensures i < |buf| && LineRead(buf, i) == Trim(lines[0]) && LineNext(buf, i) <= |buf|
    ensures buf[LineNext(buf, i)..] == Unlines(lines[1..]) && OneLine(lines[1..])
  {
    LineOf(buf, i, lines[0], Unlines(lines[1..]));
  }

  /** Splitting newline-terminated lines gives each line back, trimmed. */
  lemma {:induction false} UnlinesReadAs(buf: string, i: nat, lines: seq<string>)
    requires i <= |buf| && buf[i..] == Unlines(lines) && OneLine(lines)
    ensures ReadAs(buf, i, Trims(lines))
    decreases |lines|
  {
    if lines != [] {
      FirstOfUnlines(buf, i, lines);
      UnlinesReadAs(buf, LineNext(buf, i), lines[1..]);
      ReadAsCons(buf, i, lines);
    }
  }

  lemma {:induction false} ReadAsCons(buf: string, i: nat, lines: seq<string>)
    requires i < |buf| && lines != [] && LineRead(buf, i) == Trim(lines[0])
    requires ReadAs(buf, LineNext(buf, i), Trims(lines[1..]))
    ensures ReadAs(buf, i, Trims(lines))
  {
    assert Trims(lines)[1..] == Trims(lines[1..]);
  }

  lemma {:induction false} LinesOfUnlines(buf: string, i: nat, lines: seq<string>)
    requires i <= |buf| && buf[i..] == Unlines(lines) && OneLine(lines)
    ensures Lines(buf, i) == Trims(lines)
  {
    UnlinesReadAs(buf, i, lines);
    ReadAsLines(buf, i, Trims(lines));
  }

  lemma TrimKeepsHead(s: string)
    requires s != "" && s[0] != ' '
    ensures Trim(s) != "" && Trim(s)[0] == s[0]
  {
    TrimRightLength(s);
  }

  lemma ChainLineParsed(c: Chain)
    requires PlainChain(c)
    ensures Trim(ChainText(c)) == ChainText(c) && IsChainLine(ChainText(c)) && !EndsTable(ChainText(c))
    ensures Index(ChainText(c), ' ') == 1 + |c| && ChainText(c)[1..1 + |c|] == c
  {
    var l := ChainText(c);
    assert l[0] == ':' && l[|l| - 1] == ']' && l[1 + |c|] == ' ';
    TrimSolid(l);
    forall k | 0 <= k < 1 + |c|
      ensures l[k] != ' '
    {
      assert k > 0 ==> l[k] == c[k - 1];
    }
    IndexIs(l, ' ', 1 + |c|);
  }

  ghost function ChainMap(order: seq<Chain>): map<Chain, string> {
    map c | c in order :: ChainText(c)
  }

  lemma ChainTextsCons(order: seq<Chain>, rest: seq<string>)
    requires order != []
    ensures ChainTexts(order) + rest == [ChainText(order[0])] + (ChainTexts(order[1..]) + rest)
  {
  }

  lemma ChainMapCons(found: map<Chain, string>, order: seq<Chain>)
    requires order != []
    ensures found[order[0] := ChainText(order[0])] + ChainMap(order[1..]) == found + ChainMap(order)
  {
    assert forall d :: d in order <==> d == order[0] || d in order[1..];
  }

  lemma {:induction false} CollectOne(found: map<Chain, string>, c: Chain, rest: seq<string>)
    requires PlainChain(c)
    ensures Collect(found, [ChainText(c)] + rest) == Collect(found[c := ChainText(c)], rest)
  {
    ChainLineParsed(c);
    assert ([ChainText(c)] + rest)[1..] == rest;
  }

  lemma {:induction false} CollectChains(found: map<Chain, string>, order: seq<Chain>, rest: seq<string>)
    requires forall c :: c in order ==> PlainChain(c)
    ensures Collect(found, ChainTexts(order) + rest) == Collect(found + ChainMap(order), rest)
    decreases |order|
  {
    if order == [] {
      assert ChainTexts(order) + rest == rest && found + ChainMap(order) == found;
    } else {
      var c := order[0];
      assert c in order && forall d :: d in order[1..] ==> d in order;
      CollectOne(found, c, ChainTexts(order[1..]) + rest);
      ChainTextsCons(order, rest);
      CollectChains(found[c := ChainText(c)], order[1..], rest);
      ChainMapCons(found, order);
    }
  }

  /** Rule lines are passed over, and COMMIT ends the table. */
  lemma {:induction false} CollectRules(found: map<Chain, string>, rules: seq<string>)
    requires forall l :: l in rules ==> l != "" && l[0] == '-'
    ensures Collect(found, rules + ["COMMIT"]) == Some(found)
    decreases |rules|
  {
    var all := rules + ["COMMIT"];
    if rules == [] {
      assert all[0] == "COMMIT";
    } else {
      assert rules[0] in rules && all[0] == rules[0] && all[1..] == rules[1..] + ["COMMIT"];
      assert forall l :: l in rules[1..] ==> l in rules;
      CollectRules(found, rules[1..]);
    }
  }

  lemma {:induction false} RuleLinesAre(t: Table, order: seq<Chain>, l: string)
    requires l in AllRuleTexts(t, order)
    ensures exists c, r :: c in order && r in RulesAt(t, c) && l == RuleText(c, r)
  {
    if l in RuleTexts(order[0], RulesAt(t, order[0])) {
      var i :| 0 <= i < |RulesAt(t, order[0])| && l == RuleText(order[0], RulesAt(t, order[0])[i]);
    } else {
      RuleLinesAre(t, order[1..], l);
    }
  }

  lemma RuleTextPlain(c: Chain, r: Rule)
    requires '\n' !in c && '\n' !in r
    ensures '\n' !in RuleText(c, r) && RuleText(c, r) != "" && RuleText(c, r)[0] == '-'
  {
  }

  lemma {:induction false} RuleLinesPlain(t: Table, order: seq<Chain>)
    requires PlainTable(t) && forall c :: c in order ==> c in t
    ensures forall l :: l in AllRuleTexts(t, order) ==> '\n' !in l && l != "" && l[0] == '-'
  {
    forall l | l in AllRuleTexts(t, order)
      ensures '\n' !in l && l != "" && l[0] == '-'
    {
      RuleLinesAre(t, order, l);
      var c, r :| c in order && r in RulesAt(t, c) && l == RuleText(c, r);
      RuleTextPlain(c, r);
    }
  }

  lemma ChainLinesPlain(order: seq<Chain>)
    requires forall c :: c in order ==> PlainChain(c)
    ensures forall l :: l in ChainTexts(order) ==> '\n' !in l
    ensures Trims(ChainTexts(order)) == ChainTexts(order)
  {
    forall i | 0 <= i < |order|
      ensures '\n' !in ChainText(order[i]) && Trim(ChainText(order[i])) == ChainText(order[i])
    {
      assert order[i] in order;
      ChainLineParsed(order[i]);
    }
  }

  lemma TrimsConcat(a: seq<string>, b: seq<string>)
    ensures Trims(a + b) == Trims(a) + Trims(b)
  {
  }

  lemma SavedPlain(t: Table, order: seq<Chain>)
    requires PlainTable(t) && forall c :: c in order ==> c in t
    ensures forall l :: l in SaveLines(t, order) ==> '\n' !in l
  {
    RuleLinesPlain(t, order);
    ChainLinesPlain(order);
  }

  lemma {:induction false} SavedTrims(t: Table, order: seq<Chain>)
    requires forall c :: c in order ==> PlainChain(c)
    ensures Trims(SaveLines(t, order)) == ["*nat"] + ChainTexts(order) + Trims(AllRuleTexts(t, order)) + ["COMMIT"]
  {
    ChainLinesPlain(order);
    TrimSolid("*nat");
    TrimSolid("COMMIT");
    TrimsConcat(["*nat"] + ChainTexts(order) + AllRuleTexts(t, order), ["COMMIT"]);
    TrimsConcat(["*nat"] + ChainTexts(order), AllRuleTexts(t, order));
    TrimsConcat(["*nat"], ChainTexts(order));
    assert Trims(["*nat"]) == ["*nat"] && Trims(["COMMIT"]) == ["COMMIT"];
  }

  lemma TrimmedRules(lines: seq<string>)
    requires forall l :: l in lines ==> l != "" && l[0] == '-'
    ensures forall l :: l in Trims(lines) ==> l != "" && l[0] == '-'
  {
    forall i | 0 <= i < |lines|
      ensures Trim(lines[i]) != "" && Trim(lines[i])[0] == '-'
    {
      assert lines[i] in lines;
      TrimKeepsHead(lines[i]);
    }
  }

  lemma {:induction false} OpeningLine(body: seq<string>)
    ensures TableBody(["*nat"] + body, "*nat") == body
  {
    assert (["*nat"] + body)[1..] == body;
  }

  lemma {:induction false} CollectSaved(order: seq<Chain>, rules: seq<string>)
    requires forall c :: c in order ==> PlainChain(c)
    requires forall l :: l in rules ==> l != "" && l[0] == '-'
    ensures Collect(map[], ChainTexts(order) + (rules + ["COMMIT"])) == Some(ChainMap(order))
  {
    CollectChains(map[], order, rules + ["COMMIT"]);
    CollectRules(map[] + ChainMap(order), rules);
    assert map[] + ChainMap(order) == ChainMap(order);
  }

  lemma {:induction false} LinesSaved(t: Table, order: seq<Chain>)
    requires PlainTable(t) && forall c :: c in order ==> c in t
    ensures Lines(Unlines(SaveLines(t, order)), 0) ==
            ["*nat"] + (ChainTexts(order) + (Trims(AllRuleTexts(t, order)) + ["COMMIT"]))
  {
    var save := Unlines(SaveLines(t, order));
    SavedPlain(t, order);
    SavedTrims(t, order);
    assert save[0..] == save;
    LinesOfUnlines(save, 0, SaveLines(t, order));
    Reassociate(["*nat"], ChainTexts(order), Trims(AllRuleTexts(t, order)), ["COMMIT"]);
  }

  lemma Reassociate<T>(a: seq<T>, b: seq<T>, c: seq<T>, d: seq<T>)
    ensures a + b + c + d == a + (b + (c + d))
  {
  }

  lemma {:induction false} SavedRulesPassedOver(t: Table, order: seq<Chain>)
    requires PlainTable(t) && forall c :: c in order ==> c in t
    ensures Collect(map[], ChainTexts(order) + (Trims(AllRuleTexts(t, order)) + ["COMMIT"])) == Some(ChainMap(order))
  {
    RuleLinesPlain(t, order);
    TrimmedRules(AllRuleTexts(t, order));
    CollectSaved(order, Trims(AllRuleTexts(t, order)));
  }

  /** Parsing a saved table finds exactly its chains, each with its own line. */
  lemma ParsedChainsAreSaved(t: Table, order: seq<Chain>)
    requires PlainTable(t) && Enumerates(order, t.Keys)
    ensures ChainsIn("nat", Unlines(SaveLines(t, order))) == Some(map c | c in t :: ChainText(c))
  {
    LinesSaved(t, order);
    SavedRulesPassedOver(t, order);
    OpeningLine(ChainTexts(order) + (Trims(AllRuleTexts(t, order)) + ["COMMIT"]));
    assert "*" + "nat" == "*nat";
    assert ChainMap(order) == (map c | c in t :: ChainText(c));
  }

  // ---- reading the hostport rules back ----

  /** strings.Split */
  function Split(s: string, c: char): seq<string>
    decreases |s|
  {
    var k := Index(s, c);
    if k == |s| then [s] else [s[..k]] + Split(s[k + 1..], c)
  }

  lemma {:induction false} IndexOfFirst(a: string, c: char, b: string)
    requires c !in a
    ensures Index(a + [c] + b, c) == |a|
  {
    assert (a + [c] + b)[|a|] == c;
    assert forall k :: 0 <= k < |a| ==> (a + [c] + b)[k] == a[k];
    IndexIs(a + [c] + b, c, |a|);
  }

  lemma {:induction false} SplitFirst(a: string, c: char, b: string)
    requires c !in a
    ensures Split(a + [c] + b, c) == [a] + Split(b, c)
  {
    var s := a + [c] + b;
    IndexOfFirst(a, c, b);
    assert s[..|a|] == a && s[|a| + 1..] == b;
  }

  lemma {:induction false} SplitOfUnlines(lines: seq<string>)
    requires forall k :: 0 <= k < |lines| ==> '\n' !in lines[k]
    ensures Split(Unlines(lines), '\n') == lines + [""]
  {
    if lines == [] {
      assert lines + [""] == [""];
    } else {
      var rest := Unlines(lines[1..]);
      SplitOfUnlines(lines[1..]);
      SplitFirst(lines[0], '\n', rest);
      assert Unlines(lines) == lines[0] + ['\n'] + rest;
      assert lines == [lines[0]] + lines[1..];
    }
  }

  predicate IsHostportRule(line: string) {
    || HasPrefix(line, "-A " + KUBE_HP_PREFIX)
    || HasPrefix(line, "-A " + CRIO_MASQ_PREFIX)
    || HasPrefix(line, "-A " + KUBE_HOSTPORTS + " ")
    || HasPrefix(line, "-A " + CRIO_HOSTPORTS_MASQ + " ")
  }

  function HostportRules(lines: seq<string>): seq<string> {
    if lines == [] then []
    else (if IsHostportRule(lines[0]) then [lines[0]] else []) + HostportRules(lines[1..])
  }

  /** A prefix without spaces of "chain rule" is a prefix of the chain. */
  lemma PrefixOfChain(c: Chain, r: Rule, prefix: string)
    requires ' ' !in prefix
    ensures HasPrefix(RuleText(c, r), "-A " + prefix) <==> HasPrefix(c, prefix)
  {
    var l, p := RuleText(c, r), "-A " + prefix;
    assert l[3..] == c + " " + r && l[..3] == "-A " && p[..3] == "-A " && p[3..] == prefix;
    var s := c + " " + r;
    if HasPrefix(l, p) {
      assert l[..|p|][3..] == s[..|prefix|] == prefix;
      assert s[|c|] == ' ';
      assert c[..|prefix|] == s[..|prefix|];
    }
    if HasPrefix(c, prefix) {
      assert s[..|prefix|] == c[..|prefix|];
      assert l[..|p|] == p;
    }
  }

  lemma WholeChain(c: Chain, r: Rule, d: Chain)
    requires ' ' !in c && ' ' !in d
    ensures HasPrefix(RuleText(c, r), "-A " + d + " ") <==> c == d
  {
    var l, p, s := RuleText(c, r), "-A " + d + " ", c + " " + r;
    assert l[3..] == s && l[..3] == "-A " && p[3..] == d + " " && |p| == |d| + 4;
    if HasPrefix(l, p) {
      assert l[..|p|][3..] == s[..|d| + 1] == d + " ";
      assert s[|d|] == ' ' && s[|c|] == ' ' && s[..|d|] == d;
      assert c == s[..|c|];
    }
    if c == d {
      assert l[..|p|] == p;
    }
  }

  lemma RuleRecognised(c: Chain, r: Rule)
    requires ' ' !in c
    ensures IsHostportRule(RuleText(c, r)) <==> IsHostport(c)
  {
    PrefixOfChain(c, r, KUBE_HP_PREFIX);
    PrefixOfChain(c, r, CRIO_MASQ_PREFIX);
    WholeChain(c, r, KUBE_HOSTPORTS);
    WholeChain(c, r, CRIO_HOSTPORTS_MASQ);
  }

  lemma {:induction false} HostportRulesConcat(a: seq<string>, b: seq<string>)
    ensures HostportRules(a + b) == HostportRules(a) + HostportRules(b)
  {
    if a == [] {
      assert a + b == b;
    } else {
      assert (a + b)[1..] == a[1..] + b;
      HostportRulesConcat(a[1..], b);
    }
  }

  lemma {:induction false} HostportRulesAll(lines: seq<string>, keep: bool)
    requires forall k :: 0 <= k < |lines| ==> IsHostportRule(lines[k]) == keep
    ensures HostportRules(lines) == if keep then lines else []
  {
    if lines != [] {
      HostportRulesAll(lines[1..], keep);
    }
  }

  function Rendered(lines: seq<Line>): (r: seq<string>)
    requires forall k :: 0 <= k < |lines| ==> lines[k].Append?
    ensures |r| == |lines| && forall k :: 0 <= k < |r| ==> r[k] == RuleText(lines[k].chain, lines[k].rule)
  {
    seq(|lines|, k requires 0 <= k < |lines| => RuleText(lines[k].chain, lines[k].rule))
  }

  lemma {:induction false} ExistingAreAppends(t: Table, order: seq<Chain>)
    ensures forall k :: 0 <= k < |Existing(t, order)| ==> Existing(t, order)[k].Append?
  {
    if order != [] {
      ExistingAreAppends(t, order[1..]);
    }
  }

  lemma BlockRecognised(c: Chain, rules: seq<Rule>)
    requires ' ' !in c
    ensures HostportRules(RuleTexts(c, rules)) == if IsHostport(c) then Rendered(Block(c, rules)) else []
  {
    forall k | 0 <= k < |rules|
      ensures IsHostportRule(RuleTexts(c, rules)[k]) == IsHostport(c)
    {
      RuleRecognised(c, rules[k]);
    }
    HostportRulesAll(RuleTexts(c, rules), IsHostport(c));
    assert IsHostport(c) ==> RuleTexts(c, rules) == Rendered(Block(c, rules));
  }

  lemma RenderedConcat(a: seq<Line>, b: seq<Line>)
    requires forall k :: 0 <= k < |a| ==> a[k].Append?
    requires forall k :: 0 <= k < |b| ==> b[k].Append?
    ensures Rendered(a + b) == Rendered(a) + Rendered(b)
  {
  }

  lemma {:induction false} RulesRecognised(t: Table, order: seq<Chain>)
    requires forall c :: c in order ==> ' ' !in c
    requires forall k :: 0 <= k < |Existing(t, order)| ==> Existing(t, order)[k].Append?
    ensures HostportRules(AllRuleTexts(t, order)) == Rendered(Existing(t, order))
  {
    if order != [] {
      var c := order[0];
      var head := if IsHostport(c) then Block(c, RulesAt(t, c)) else [];
      assert c in order && forall d :: d in order[1..] ==> d in order;
      ExistingAreAppends(t, order[1..]);
      RulesRecognised(t, order[1..]);
      HostportRulesConcat(RuleTexts(c, RulesAt(t, c)), AllRuleTexts(t, order[1..]));
      BlockRecognised(c, RulesAt(t, c));
      RenderedConcat(head, Existing(t, order[1..]));
    }
  }

  lemma NotRuleLines(order: seq<Chain>)
    ensures HostportRules(["*nat"] + ChainTexts(order)) == [] && HostportRules(["COMMIT"] + [""]) == []
  {
    var a := ["*nat"] + ChainTexts(order);
    forall k | 0 <= k < |a|
      ensures !IsHostportRule(a[k])
    {
      assert a[k][0] == '*' || a[k][0] == ':';
      NotARule(a[k]);
    }
    HostportRulesAll(a, false);
    NotARule("COMMIT");
    NotARule("");
    HostportRulesAll(["COMMIT"] + [""], false);
  }

  lemma OtherHead(line: string, p: string)
    requires p != "" && (line == "" || line[0] != p[0])
    ensures !HasPrefix(line, p)
  {
    if |p| <= |line| {
      assert line[..|p|][0] == line[0];
    }
  }

  lemma NotARule(line: string)
    requires line == "" || line[0] != '-'
    ensures !IsHostportRule(line)
  {
    OtherHead(line, "-A " + KUBE_HP_PREFIX);
    OtherHead(line, "-A " + CRIO_MASQ_PREFIX);
    OtherHead(line, "-A " + KUBE_HOSTPORTS + " ");
    OtherHead(line, "-A " + CRIO_HOSTPORTS_MASQ + " ");
  }

  /** The lines picked by prefix from the saved text are exactly the rules of the hostport
      chains, in the order of the save. */
  lemma {:induction false} ReadRulesAreSaved(t: Table, order: seq<Chain>)
    requires PlainTable(t) && Enumerates(order, t.Keys)
    ensures (ExistingAreAppends(t, order);
             HostportRules(Split(Unlines(SaveLines(t, order)), '\n')) == Rendered(Existing(t, order)))
  {
    ExistingAreAppends(t, order);
    var rules := AllRuleTexts(t, order);
    SavedPlain(t, order);
    SplitOfUnlines(SaveLines(t, order));
    Reassociate(["*nat"], ChainTexts(order), rules, ["COMMIT"]);
    assert SaveLines(t, order) + [""] == (["*nat"] + ChainTexts(order)) + (rules + (["COMMIT"] + [""]));
    HostportRulesConcat(["*nat"] + ChainTexts(order), rules + (["COMMIT"] + [""]));
    HostportRulesConcat(rules, ["COMMIT"] + [""]);
    NotRuleLines(order);
    RulesRecognised(t, order);
  }

  // ---- the line interpreter of iptables-restore ----

  datatype Parsed = Parsed(line: Line) | Ignored | Invalid

  function TrimPrefix(s: string, prefix: string): string {
    if HasPrefix(s, prefix) then s[|prefix|..] else s
  }

  /** A rule to append or insert: a flag, a chain and the rest of the line. */
  function RuleLine(line: string, flag: string, inserts: bool): Parsed {
    var parts := Split(line, ' ');
    if |parts| < 3 then Invalid
    else
      var rule := TrimPrefix(line, flag + " " + parts[1] + " ");
      Parsed(if inserts then Insert(parts[1], rule) else Append(parts[1], rule))
  }

  function ParseLine(line: string): Parsed {
    if HasPrefix(line, "*") then Parsed(TableLine)
    else if HasPrefix(line, ":") then Parsed(ChainLine(Split(line[1..], ' ')[0]))
    else if HasPrefix(line, "-A") then
      RuleLine(line, "-A", false)
    else if HasPrefix(line, "-I") then
      RuleLine(line, "-I", true)
    else if HasPrefix(line, "-X") then
      var parts := Split(line, ' ');
      if |parts| < 2 then Invalid else Parsed(Delete(parts[1]))
    else if line == "COMMIT" then Parsed(Commit) else Ignored
  }

  function Render(l: Line): string {
    match l
    case TableLine => "*nat"
    case ChainLine(c) => ChainText(c)
    case Append(c, r) => RuleText(c, r)
    case Insert(c, r) => "-I " + c + " " + r
    case Delete(c) => "-X " + c
    case Commit => "COMMIT"
  }

  lemma Spaced(a: string, c: string, r: string)
    ensures a + " " + c + " " + r == a + [' '] + (c + [' '] + r)
  {
  }

  /** Two leading fields without spaces are split off one by one. */
  lemma {:induction false} TwoFields(a: string, c: string, r: string)
    requires ' ' !in a && ' ' !in c
    ensures Split(a + " " + c + " " + r, ' ') == [a] + ([c] + Split(r, ' '))
    ensures |Split(r, ' ')| >= 1
  {
    Spaced(a, c, r);
    SplitFirst(a, ' ', c + [' '] + r);
    SplitFirst(c, ' ', r);
  }

  lemma LeadingPart(a: string, r: string)
    ensures TrimPrefix(a + r, a) == r
  {
    assert (a + r)[..|a|] == a;
  }

  lemma RuleLineIs(flag: string, c: Chain, r: Rule, inserts: bool)
    requires ' ' !in flag && ' ' !in c
    ensures RuleLine(flag + " " + c + " " + r, flag, inserts) == Parsed(if inserts then Insert(c, r) else Append(c, r))
  {
    TwoFields(flag, c, r);
    LeadingPart(flag + " " + c + " ", r);
  }

  lemma AppendInterpreted(c: Chain, r: Rule)
    requires ' ' !in c
    ensures ParseLine(RuleText(c, r)) == Parsed(Append(c, r))
  {
    RuleLineIs("-A", c, r, false);
    assert "-A " == "-A" + " ";
    AppendHead(RuleText(c, r), " " + c + " " + r);
  }

  lemma AppendHead(l: string, rest: string)
    requires l == "-A" + rest
    ensures !HasPrefix(l, "*") && !HasPrefix(l, ":") && HasPrefix(l, "-A")
  {
    assert l[..1] == "-" && l[..2] == "-A";
  }

  lemma InsertInterpreted(c: Chain, r: Rule)
    requires ' ' !in c
    ensures ParseLine("-I " + c + " " + r) == Parsed(Insert(c, r))
  {
    RuleLineIs("-I", c, r, true);
    assert "-I " == "-I" + " ";
    InsertHead("-I " + c + " " + r, " " + c + " " + r);
  }

  lemma InsertHead(l: string, rest: string)
    requires l == "-I" + rest
    ensures !HasPrefix(l, "*") && !HasPrefix(l, ":") && !HasPrefix(l, "-A") && HasPrefix(l, "-I")
  {
    assert l[..1] == "-" && l[..2] == "-I";
  }

  lemma ChainLineInterpreted(c: Chain)
    requires ' ' !in c
    ensures ParseLine(ChainText(c)) == Parsed(ChainLine(c))
  {
    var l := ChainText(c);
    assert l[..1] == ":" && l[1..] == c + [' '] + "- [0:0]";
    SplitFirst(c, ' ', "- [0:0]");
  }

  lemma DeleteLineInterpreted(c: Chain)
    requires ' ' !in c
    ensures ParseLine("-X " + c) == Parsed(Delete(c))
  {
    var l := "-X " + c;
    assert l == "-X" + [' '] + c;
    SplitFirst("-X", ' ', c);
    assert Split(c, ' ')[0] == c by {
      IndexFirst(c, ' ');
      assert Index(c, ' ') == |c|;
    }
    assert l[..1] == "-" && l[..2] == "-X";
  }

  lemma FixedLinesInterpreted(l: string)
    requires l == "*nat" || l == "COMMIT"
    ensures ParseLine(l) == Parsed(if l == "*nat" then TableLine else Commit)
  {
    assert l == "COMMIT" ==> l[0] == 'C';
    assert l[..1] == [l[0]] && l[..2][0] == l[0];
  }

  /** Every line the manager writes means to iptables-restore what it was written for. */
  lemma ParseRendered(l: Line)
    requires l.ChainLine? || l.Append? || l.Insert? || l.Delete? ==> ' ' !in l.chain
    ensures ParseLine(Render(l)) == Parsed(l)
  {
    match l
    case TableLine => FixedLinesInterpreted(Render(l));
    case Commit => FixedLinesInterpreted(Render(l));
    case ChainLine(c) => ChainLineInterpreted(c);
    case Append(c, r) => AppendInterpreted(c, r);
    case Insert(c, r) => InsertInterpreted(c, r);
    case Delete(c) => DeleteLineInterpreted(c);
  }
}
