/** iptables-restore on the text it is given (internal/hostport/fake_iptables.go, restore): the
    lines are read one by one, rules are normalised, and a chain is left unflushed when the input
    anywhere asks to delete it. */
module IptablesRestore {
  import opened Text
  import opened Iptables
  import opened Hostport
  import opened IptablesText
  import opened RuleSyntax

  type Tables = map<string, Table>

  function Builtin(name: string): set<Chain> {
    if name == "nat" then BUILTIN
    else if name == "filter" then {"INPUT", "FORWARD", "OUTPUT"}
    else if name == "mangle" then {"PREROUTING", "INPUT", "FORWARD", "OUTPUT", "POSTROUTING"}
    else {}
  }

  datatype Status = Going | Failed | Panicked

  /** The tables, the table the next line is about ("" for none), and whether to go on. */
  datatype Progress = Progress(tables: Tables, name: string, status: Status)

  function TableAt(tables: Tables, name: string): Table {
    if name in tables then tables[name] else map[]
  }

  /** ensureRule: the chain is made even when the rule is refused. */
  function WithRuleText(family: string -> Family, t: Table, c: Chain, rule: string, inserts: bool): (Table, Status) {
    match Normalized(family, rule)
    case Normal(r) => (t[c := if inserts then Prepended(RulesAt(t, c), r) else Appended(RulesAt(t, c), r)], Going)
    case Invalid => (t[c := RulesAt(t, c)], Failed)
    case Panics => (t[c := RulesAt(t, c)], Panicked)
  }

  ghost function LineDone(family: string -> Family, tables: Tables, name: string, line: string, all: string): Progress {
    match ParseLine(line)
    case Ignored => Progress(tables, name, Going)
    case Invalid => Progress(tables, name, Failed)
    case Parsed(TableLine) => Progress(tables, name, Going)
    case Parsed(Commit) => Progress(tables, "", Going)
    case Parsed(ChainLine(c)) =>
      var t := TableAt(tables, name);
      var flushes := c !in Builtin(name) && !Contains(all, "-X " + c);
      Progress(tables[name := t[c := if flushes then [] else RulesAt(t, c)]], name, Going)
    case Parsed(Append(c, r)) =>
      var (t, status) := WithRuleText(family, TableAt(tables, name), c, r, false);
      Progress(tables[name := t], name, status)
    case Parsed(Insert(c, r)) =>
      var (t, status) := WithRuleText(family, TableAt(tables, name), c, r, true);
      Progress(tables[name := t], name, status)
    case Parsed(Delete(c)) =>
      if c in TableAt(tables, name) then Progress(tables[name := TableAt(tables, name) - {c}], name, Going)
      else Progress(tables, name, Failed)
  }

  ghost function TextLine(family: string -> Family, tables: Tables, name: string, line: string, all: string): Progress {
    if line != "" && line[0] == '#' then Progress(tables, name, Going)
    else
      var named := if HasPrefix(line, "*") then line[1..] else name;
      if named == "" then Progress(tables, named, Going) else LineDone(family, tables, named, line, all)
  }

  ghost function TextLines(family: string -> Family, p: Progress, lines: seq<string>, all: string): Progress
    decreases |lines|
  {
    if lines == [] || p.status != Going then p
    else TextLines(family, TextLine(family, p.tables, p.name, lines[0], all), lines[1..], all)
  }

  /** The lines that end in a newline. */
  function Terminated(data: string): seq<string> {
    var parts := Split(data, '\n');
    if |parts| == 0 then [] else parts[..|parts| - 1]
  }

  ghost function RestoreText(family: string -> Family, tables: Tables, data: string): Progress {
    TextLines(family, Progress(tables, "", Going), Terminated(data), data)
  }

  class FakeTables {
    var tables: Tables

    constructor (initial: Tables)
      ensures tables == initial
    {
      tables := initial;
    }

    /** One line of the input under the table it belongs to. */
    method RestoreLineText(family: string -> Family, name: string, line: string, all: string) returns (next: string, status: Status)
      modifies this
      ensures Progress(tables, next, status) == LineDone(family, old(tables), name, line, all)
    {
      next, status := name, Going;
      var t := TableAt(tables, name);
      match ParseLine(line)
      case Ignored =>
      case Invalid => status := Failed;
      case Parsed(TableLine) =>
      case Parsed(Commit) => next := "";
      case Parsed(ChainLine(c)) =>
        var deleted := Search(all, "-X " + c);
        var keeps := c in Builtin(name) || deleted;
        tables := tables[name := t[c := if keeps then RulesAt(t, c) else []]];
      case Parsed(Append(c, r)) =>
        var changed := PutRule(family, t, c, r, false);
        tables, status := tables[name := changed.0], changed.1;
      case Parsed(Insert(c, r)) =>
        var changed := PutRule(family, t, c, r, true);
        tables, status := tables[name := changed.0], changed.1;
      case Parsed(Delete(c)) =>
        if c !in t {
          status := Failed;
        } else {
          tables := tables[name := t - {c}];
        }
    }

    method Restore(family: string -> Family, data: string) returns (status: Status)
      modifies this
      ensures var r := RestoreText(family, old(tables), data); tables == r.tables && status == r.status
    {
      var lines := Terminated(data);
      var name := "";
      status := Going;
      var i := 0;
      while i < |lines|
        invariant 0 <= i <= |lines| && status == Going
        invariant RestoreText(family, old(tables), data) == TextLines(family, Progress(tables, name, status), lines[i..], data)
      {
        var line := lines[i];
        assert lines[i..][1..] == lines[i + 1..];
        i := i + 1;
        if line != "" && line[0] == '#' {
          continue;
        }
        if HasPrefix(line, "*") {
          name := line[1..];
        }
        if name != "" {
          name, status := RestoreLineText(family, name, line, data);
          if status != Going {
            return;
          }
        }
      }
    }
  }

  method PutRule(family: string -> Family, t: Table, c: Chain, rule: string, inserts: bool) returns (changed: (Table, Status))
    ensures changed == WithRuleText(family, t, c, rule, inserts)
  {
    var rules := RulesAt(t, c);
    var normal := NormalizeRule(family, rule);
    match normal
    case Invalid => return (t[c := rules], Failed);
    case Panics => return (t[c := rules], Panicked);
    case Normal(r) =>
      var at := FindRule(rules, r);
      if at >= 0 {
        return (t[c := rules], Going);
      }
      return (t[c := if inserts then [r] + rules else rules + [r]], Going);
  }

  // ---- the text of a list of lines restores what the lines say ----

  /** The text stands for the line; a rule may be written in any way that is kept as the line's. */
  ghost predicate Writes(family: string -> Family, text: string, l: Line) {
    match l
    case TableLine => text == "*nat"
    case Commit => text == "COMMIT"
    case ChainLine(c) => ' ' !in c && text == ChainText(c)
    case Delete(c) => ' ' !in c && text == "-X " + c
    case Append(c, r) => ' ' !in c && exists w :: text == RuleText(c, w) && Normalized(family, w) == Normal(r)
    case Insert(c, r) => ' ' !in c && exists w :: text == "-I " + c + " " + w && Normalized(family, w) == Normal(r)
  }

  ghost predicate WritesAll(family: string -> Family, texts: seq<string>, lines: seq<Line>) {
    |texts| == |lines| && forall k :: 0 <= k < |lines| ==> Writes(family, texts[k], lines[k])
  }

  ghost predicate IsBody(lines: seq<Line>) {
    forall l :: l in lines ==> !l.TableLine? && !l.Commit?
  }

  ghost predicate Seen(all: string, c: Chain, lines: seq<Line>) {
    Contains(all, "-X " + c) <==> Delete(c) in lines
  }

  /** Searching the input for a deletion finds one exactly where there is one. */
  ghost predicate DeletesSeen(all: string, body: seq<Line>, lines: seq<Line>) {
    forall l :: l in body && l.ChainLine? ==> Seen(all, l.chain, lines)
  }

  lemma {:induction false} ParsedWritten(family: string -> Family, text: string, l: Line)
    requires Writes(family, text, l) && !l.TableLine? && !l.Commit?
    ensures text != "" && text[0] != '#' && !HasPrefix(text, "*")
    ensures l.ChainLine? || l.Delete? ==> ParseLine(text) == Parsed(l)
    ensures l.Append? ==> exists w :: ParseLine(text) == Parsed(Append(l.chain, w)) && Normalized(family, w) == Normal(l.rule)
    ensures l.Insert? ==> exists w :: ParseLine(text) == Parsed(Insert(l.chain, w)) && Normalized(family, w) == Normal(l.rule)
  {
    match l
    case ChainLine(c) => ChainLineInterpreted(c);
    case Delete(c) => DeleteLineInterpreted(c);
    case Append(c, r) =>
      var w :| text == RuleText(c, w) && Normalized(family, w) == Normal(r);
      AppendInterpreted(c, w);
    case Insert(c, r) =>
      var w :| text == "-I " + c + " " + w && Normalized(family, w) == Normal(r);
      InsertInterpreted(c, w);
  }

  function Outcome(ok: bool): Status {
    if ok then Going else Failed
  }

  lemma {:induction false} LineWritten(family: string -> Family, tables: Tables, text: string, l: Line, all: string, lines: seq<Line>)
    requires "nat" in tables && Writes(family, text, l) && !l.TableLine? && !l.Commit?
    requires l.ChainLine? ==> Seen(all, l.chain, lines)
    ensures var (t, ok) := RestoreLine(tables["nat"], l, lines);
            TextLine(family, tables, "nat", text, all) == Progress(tables["nat" := t], "nat", Outcome(ok))
  {
    ParsedWritten(family, text, l);
    if l.Append? {
      var w :| ParseLine(text) == Parsed(Append(l.chain, w)) && Normalized(family, w) == Normal(l.rule);
    } else if l.Insert? {
      var w :| ParseLine(text) == Parsed(Insert(l.chain, w)) && Normalized(family, w) == Normal(l.rule);
    } else if l.Delete? {
      assert tables["nat" := tables["nat"]] == tables;
    }
  }

  lemma {:induction false} CommitWritten(family: string -> Family, tables: Tables, all: string)
    ensures TextLines(family, Progress(tables, "nat", Going), ["COMMIT"], all) == Progress(tables, "", Going)
  {
    FixedLinesInterpreted("COMMIT");
    assert ["COMMIT"][1..] == [];
    assert TextLine(family, tables, "nat", "COMMIT", all) == Progress(tables, "", Going);
  }

  lemma {:induction false} BodyWritten(family: string -> Family, tables: Tables, texts: seq<string>, body: seq<Line>, all: string, lines: seq<Line>)
    requires "nat" in tables && WritesAll(family, texts, body) && IsBody(body) && DeletesSeen(all, body, lines)
    ensures var (t, ok) := RestoreLines(tables["nat"], body, lines);
            TextLines(family, Progress(tables, "nat", Going), texts + ["COMMIT"], all)
            == Progress(tables["nat" := t], if ok then "" else "nat", Outcome(ok))
    decreases |body|
  {
    var whole := texts + ["COMMIT"];
    if body == [] {
      assert whole == ["COMMIT"] && tables["nat" := tables["nat"]] == tables;
      CommitWritten(family, tables, all);
    } else {
      var l := body[0];
      assert l in body && Writes(family, texts[0], l);
      LineWritten(family, tables, texts[0], l, all, lines);
      var (t, ok) := RestoreLine(tables["nat"], l, lines);
      assert whole[0] == texts[0] && whole[1..] == texts[1..] + ["COMMIT"];
      if ok {
        var next := tables["nat" := t];
        BodyWritten(family, next, texts[1..], body[1..], all, lines);
        var u := RestoreLines(t, body[1..], lines).0;
        assert next["nat" := u] == tables["nat" := u];
      }
    }
  }

  /** What is restored from the text is what the lines restore, and it fails where they fail. */
  lemma {:induction false} TextRestores(family: string -> Family, tables: Tables, texts: seq<string>, body: seq<Line>)
    requires "nat" in tables && WritesAll(family, texts, body) && IsBody(body) && OneLine(texts)
    requires var all := Unlines(["*nat"] + texts + ["COMMIT"]); DeletesSeen(all, body, [TableLine] + body + [Commit])
    ensures var lines := [TableLine] + body + [Commit];
            var (t, ok) := RestoreLines(tables["nat"], lines, lines);
            var r := RestoreText(family, tables, Unlines(["*nat"] + texts + ["COMMIT"]));
            r.tables == tables["nat" := t] && r.status == Outcome(ok)
  {
    var whole := ["*nat"] + texts + ["COMMIT"];
    var all, lines := Unlines(whole), [TableLine] + body + [Commit];
    SplitOfUnlines(whole);
    assert Terminated(all) == whole;
    assert whole[0] == "*nat" && whole[1..] == texts + ["COMMIT"];
    OpenTable(family, tables, all);
    BodyWritten(family, tables, texts, body, all, lines);
    FramedLines(tables["nat"], body, lines);
  }

  lemma {:induction false} OpenTable(family: string -> Family, tables: Tables, all: string)
    ensures TextLine(family, tables, "", "*nat", all) == Progress(tables, "nat", Going)
  {
    FixedLinesInterpreted("*nat");
    assert "*nat"[..1] == "*" && "*nat"[1..] == "nat";
  }

  lemma {:induction false} FramedLines(t: Table, body: seq<Line>, all: seq<Line>)
    ensures RestoreLines(t, [TableLine] + body + [Commit], all) == RestoreLines(t, body, all)
  {
    var framed := [TableLine] + body + [Commit];
    assert framed[1..] == body + [Commit];
    CommitLast(t, body, all);
  }

  lemma {:induction false} CommitLast(t: Table, body: seq<Line>, all: seq<Line>)
    ensures RestoreLines(t, body + [Commit], all) == RestoreLines(t, body, all)
    decreases |body|
  {
    var longer := body + [Commit];
    if body == [] {
      assert longer == [Commit] && longer[1..] == [];
    } else {
      assert longer[0] == body[0] && longer[1..] == body[1..] + [Commit];
      CommitLast(RestoreLine(t, body[0], all).0, body[1..], all);
    }
  }

  // ---- when the search for deletions is right ----

  lemma {:induction false} UnlinesContains(texts: seq<string>, x: string)
    requires x != "" && '\n' !in x && Contains(Unlines(texts), x)
    ensures exists k :: 0 <= k < |texts| && Contains(texts[k], x)
  {
    if texts == [] {
      AbsentStart("", x);
    } else {
      var rest := Unlines(texts[1..]);
      assert Unlines(texts) == texts[0] + ['\n'] + rest;
      ContainsAcross(texts[0], '\n', rest, x);
      if !Contains(texts[0], x) {
        UnlinesContains(texts[1..], x);
        var k :| 0 <= k < |texts[1..]| && Contains(texts[1..][k], x);
        assert Contains(texts[k + 1], x);
      }
    }
  }

  lemma {:induction false} LineInUnlines(texts: seq<string>, k: nat)
    requires k < |texts|
    ensures Contains(Unlines(texts), texts[k])
  {
    if k == 0 {
      ContainsInfix("", texts[0], "\n" + Unlines(texts[1..]));
      assert "" + texts[0] + ("\n" + Unlines(texts[1..])) == Unlines(texts);
    } else {
      LineInUnlines(texts[1..], k - 1);
      ContainsSuffix(texts[0] + "\n", Unlines(texts[1..]), texts[k]);
    }
  }

  /** No line but its deletion reads as if it deleted the chain. */
  ghost predicate Undisturbed(texts: seq<string>, body: seq<Line>, c: Chain)
    requires |texts| == |body|
  {
    forall k :: 0 <= k < |texts| && Contains(texts[k], "-X " + c) ==> body[k] == Delete(c)
  }

  lemma {:induction false} SeenIf(family: string -> Family, texts: seq<string>, body: seq<Line>, c: Chain)
    requires WritesAll(family, texts, body) && '\n' !in c && Undisturbed(texts, body, c)
    ensures Seen(Unlines(["*nat"] + texts + ["COMMIT"]), c, [TableLine] + body + [Commit])
  {
    var whole, lines, x := ["*nat"] + texts + ["COMMIT"], [TableLine] + body + [Commit], "-X " + c;
    if Contains(Unlines(whole), x) {
      UnlinesContains(whole, x);
      var k :| 0 <= k < |whole| && Contains(whole[k], x);
      AbsentStart("*nat", x);
      AbsentStart("COMMIT", x);
      assert whole[k] == texts[k - 1];
      assert lines[k] == body[k - 1] == Delete(c);
    }
    if Delete(c) in lines {
      var k :| 0 <= k < |lines| && lines[k] == Delete(c);
      assert lines[k] == body[k - 1] && Writes(family, texts[k - 1], body[k - 1]);
      assert whole[k] == x;
      LineInUnlines(whole, k);
    }
  }
}
