/** Demultiplexing a container log (internal/oci/runtime_oci.go, parseLog). Bytes are characters. */
module ParseLog {
  import opened Text

  datatype Output = Output(stdout: string, stderr: string)

  const Nothing: Output := Output("", "")

  function Then(a: Output, b: Output): Output {
    Output(a.stdout + b.stdout, a.stderr + b.stderr)
  }

  /** bytes.SplitAfter at newlines. */
  function SplitAfter(l: string): (r: seq<string>)
    ensures r != []
  {
    var i := Index(l, '\n');
    if i == |l| then [l] else [l[..i + 1]] + SplitAfter(l[i + 1..])
  }

  /** A line cut at its first three spaces. */
  datatype Fields = Malformed | Fields(date: string, pipe: string, tag: string, content: string)

  function Cut(line: string): Fields {
    var i := Index(line, ' ');
    if i == |line| then Malformed
    else
      var afterDate := line[i + 1..];
      var j := Index(afterDate, ' ');
      if j == |afterDate| then Malformed
      else
        var afterPipe := afterDate[j + 1..];
        var k := Index(afterPipe, ' ');
        if k == |afterPipe| then Malformed
        else Fields(line[..i], afterDate[..j], afterPipe[..k], afterPipe[k + 1..])
  }

  /** The content without the newline that a partial line was given. */
  function Content(tag: string, content: string): string {
    if tag == "P" && content != "" && content[|content| - 1] == '\n' then content[..|content| - 1] else content
  }

  /** What one line adds to the two streams. */
  function Effect(line: string): Output {
    Added(Cut(line))
  }

  function Added(fields: Fields): Output {
    match fields
    case Malformed => Nothing
    case Fields(_, pipe, tag, content) =>
      if pipe == "stdout" then Output(Content(tag, content), "")
      else if pipe == "stderr" then Output("", Content(tag, content))
      else Nothing
  }

  /** What lines add one after the other, each what f says. */
  function Effects(f: string -> Output, lines: seq<string>): Output {
    if lines == [] then Nothing
    else Then(Effects(f, lines[..|lines| - 1]), f(lines[|lines| - 1]))
  }

  function ParsedBy(f: string -> Output, l: string): Output {
    Effects(f, SplitAfter(l))
  }

  function Parsed(l: string): Output {
    ParsedBy(Effect, l)
  }

  /** The loop's body. */
  method ParseLine(line: string) returns (o: Output)
    ensures o == Effect(line)
  {
    if |line| == 0 {
      return Nothing;
    }
    var parts := Cut(line);
    if parts.Malformed? {
      return Nothing;
    }
    var content := parts.content;
    if parts.tag == "P" {
      if |content| > 0 && content[|content| - 1] == '\n' {
        content := content[..|content| - 1];
      }
    }
    match parts.pipe
    case "stdout" => return Output(content, "");
    case "stderr" => return Output("", content);
    case _ => return Nothing;
  }

  method Parse(l: string) returns (stdout: string, stderr: string)
    ensures Output(stdout, stderr) == Parsed(l)
  {
    stdout, stderr := "", "";
    var lines := SplitAfter(l);
    for i := 0 to |lines|
      invariant Output(stdout, stderr) == Effects(Effect, lines[..i])
    {
      assert lines[..i + 1][..i] == lines[..i];
      var o := ParseLine(lines[i]);
      stdout, stderr := stdout + o.stdout, stderr + o.stderr;
    }
    assert lines[..|lines|] == lines;
  }

  // ---- parsing line by line ----

  lemma ThenNothing(a: Output)
    ensures Then(Nothing, a) == a && Then(a, Nothing) == a
  {
  }

  lemma ThenAssociates(a: Output, b: Output, c: Output)
    ensures Then(Then(a, b), c) == Then(a, Then(b, c))
  {
    assert a.stdout + b.stdout + c.stdout == a.stdout + (b.stdout + c.stdout);
    assert a.stderr + b.stderr + c.stderr == a.stderr + (b.stderr + c.stderr);
  }

  lemma {:induction false} EffectsCons(f: string -> Output, first: string, rest: seq<string>)
    ensures Effects(f, [first] + rest) == Then(f(first), Effects(f, rest))
    decreases |rest|
  {
    var all := [first] + rest;
    if rest == [] {
      assert all[..0] == [];
      ThenNothing(f(first));
    } else {
      var shorter, last := rest[..|rest| - 1], rest[|rest| - 1];
      assert all[..|all| - 1] == [first] + shorter && all[|all| - 1] == last;
      EffectsCons(f, first, shorter);
      ThenAssociates(f(first), Effects(f, shorter), f(last));
    }
  }

  lemma {:induction false} ParsedEmpty(f: string -> Output)
    requires f("") == Nothing
    ensures ParsedBy(f, "") == Nothing
  {
    assert SplitAfter("") == [""] + [];
    EffectsCons(f, "", []);
    ThenNothing(Nothing);
  }

  ghost predicate AtLineEnd(l: string) {
    l == "" || l[|l| - 1] == '\n'
  }

  lemma {:induction false} FirstLine(a: string, b: string)
    requires a != "" && AtLineEnd(a)
    ensures var i := Index(a, '\n');
            i < |a| && Index(a + b, '\n') == i && (a + b)[..i + 1] == a[..i + 1] && (a + b)[i + 1..] == a[i + 1..] + b
  {
    var i := Index(a, '\n');
    IndexFirst(a, '\n');
    assert forall k :: 0 <= k < |a| ==> (a + b)[k] == a[k];
    IndexIs(a + b, '\n', i);
  }

  lemma {:induction false} ParsedFirst(f: string -> Output, l: string)
    requires Index(l, '\n') < |l|
    ensures var i := Index(l, '\n'); ParsedBy(f, l) == Then(f(l[..i + 1]), ParsedBy(f, l[i + 1..]))
  {
    var i := Index(l, '\n');
    EffectsCons(f, l[..i + 1], SplitAfter(l[i + 1..]));
  }

  /** Parsing distributes over concatenation at a line's end, whatever a line may mean. */
  lemma {:induction false} ParsedByConcat(f: string -> Output, a: string, b: string)
    requires AtLineEnd(a) && f("") == Nothing
    ensures ParsedBy(f, a + b) == Then(ParsedBy(f, a), ParsedBy(f, b))
    decreases |a|
  {
    if a == "" {
      assert a + b == b;
      ParsedEmpty(f);
      ThenNothing(ParsedBy(f, b));
    } else {
      FirstLine(a, b);
      var i := Index(a, '\n');
      var line, rest := a[..i + 1], a[i + 1..];
      assert rest != "" ==> rest[|rest| - 1] == a[|a| - 1];
      ParsedByConcat(f, rest, b);
      ParsedFirst(f, a);
      ParsedFirst(f, a + b);
      ThenAssociates(f(line), ParsedBy(f, rest), ParsedBy(f, b));
    }
  }

  lemma {:induction false} ParsedConcat(a: string, b: string)
    requires AtLineEnd(a)
    ensures Parsed(a + b) == Then(Parsed(a), Parsed(b))
  {
    ParsedByConcat(Effect, a, b);
  }

  lemma {:induction false} ParsedByLine(f: string -> Output, line: string)
    requires line != "" && line[|line| - 1] == '\n' && '\n' !in line[..|line| - 1] && f("") == Nothing
    ensures ParsedBy(f, line) == f(line)
  {
    assert forall k :: 0 <= k < |line| - 1 ==> line[k] == line[..|line| - 1][k];
    IndexIs(line, '\n', |line| - 1);
    assert line[..|line| - 1 + 1] == line && line[|line| - 1 + 1..] == "";
    ParsedFirst(f, line);
    ParsedEmpty(f);
    ThenNothing(f(line));
  }

  // ---- rendering ----

  datatype Stream = Stdout | Stderr

  /** A piece of output: a full one is a line with its newline, a partial one has none. */
  datatype Entry = Entry(date: string, stream: Stream, full: bool, text: string)

  ghost predicate Good(e: Entry) {
    ' ' !in e.date && '\n' !in e.date && '\n' !in e.text
  }

  function Pipe(s: Stream): string {
    if s == Stdout then "stdout" else "stderr"
  }

  function Tag(full: bool): string {
    if full then "F" else "P"
  }

  function Rendered(e: Entry): string {
    e.date + " " + (Pipe(e.stream) + " " + (Tag(e.full) + " " + (e.text + "\n")))
  }

  /** What was written to the stream. */
  function Written(e: Entry): string {
    if e.full then e.text + "\n" else e.text
  }

  function OutputOf(e: Entry): Output {
    if e.stream == Stdout then Output(Written(e), "") else Output("", Written(e))
  }

  lemma {:induction false} FieldEnds(field: string, rest: string)
    requires ' ' !in field
    ensures Index(field + " " + rest, ' ') == |field|
    ensures (field + " " + rest)[..|field|] == field && (field + " " + rest)[|field| + 1..] == rest
  {
    assert forall k :: 0 <= k < |field| ==> (field + " " + rest)[k] == field[k];
    IndexIs(field + " " + rest, ' ', |field|);
  }

  lemma CutFields(date: string, pipe: string, tag: string, content: string)
    requires ' ' !in date && ' ' !in pipe && ' ' !in tag
    ensures Cut(date + " " + (pipe + " " + (tag + " " + content))) == Fields(date, pipe, tag, content)
  {
    var afterPipe := tag + " " + content;
    var afterDate := pipe + " " + afterPipe;
    FieldEnds(date, afterDate);
    FieldEnds(pipe, afterPipe);
    FieldEnds(tag, content);
    var line := date + " " + afterDate;
    assert line[|date| + 1..] == afterDate && line[..|date|] == date;
    assert afterDate[|pipe| + 1..] == afterPipe && afterDate[..|pipe|] == pipe;
  }

  lemma EffectRendered(e: Entry)
    requires Good(e)
    ensures Effect(Rendered(e)) == OutputOf(e)
  {
    CutFields(e.date, Pipe(e.stream), Tag(e.full), e.text + "\n");
    AddedRendered(e);
  }

  lemma AddedRendered(e: Entry)
    ensures Added(Fields(e.date, Pipe(e.stream), Tag(e.full), e.text + "\n")) == OutputOf(e)
  {
    assert (e.text + "\n")[..|e.text|] == e.text;
  }

  lemma RenderedLine(e: Entry)
    requires Good(e)
    ensures var line := Rendered(e); line != "" && line[|line| - 1] == '\n' && '\n' !in line[..|line| - 1]
  {
    var line := Rendered(e);
    var head := e.date + " " + (Pipe(e.stream) + " " + (Tag(e.full) + " " + e.text));
    assert line == head + "\n";
    assert '\n' !in Pipe(e.stream) && '\n' !in Tag(e.full);
    assert line[..|line| - 1] == head;
  }

  function RenderedAll(entries: seq<Entry>): string {
    if entries == [] then "" else Rendered(entries[0]) + RenderedAll(entries[1..])
  }

  function OutputOfAll(entries: seq<Entry>): Output {
    if entries == [] then Nothing else Then(OutputOf(entries[0]), OutputOfAll(entries[1..]))
  }

  /** Any interleaving of the two streams, in any pieces, parses back to each stream exactly. */
  lemma {:induction false} ParseInvertsRender(entries: seq<Entry>)
    requires forall k :: 0 <= k < |entries| ==> Good(entries[k])
    ensures Parsed(RenderedAll(entries)) == OutputOfAll(entries)
    decreases |entries|
  {
    if entries == [] {
      ParsedEmpty(Effect);
    } else {
      var line := Rendered(entries[0]);
      RenderedLine(entries[0]);
      EffectRendered(entries[0]);
      ParsedByLine(Effect, line);
      ParsedConcat(line, RenderedAll(entries[1..]));
      ParseInvertsRender(entries[1..]);
    }
  }

  // ---- whole writes ----

  /** Bytes a container writes to one of its streams at one time. */
  datatype Write = Write(date: string, stream: Stream, data: string)

  /** The log entries of a write: its lines, and what follows the last newline as a partial one. */
  function EntriesOf(date: string, stream: Stream, data: string): seq<Entry> {
    var i := Index(data, '\n');
    if data == "" then []
    else if i == |data| then [Entry(date, stream, false, data)]
    else [Entry(date, stream, true, data[..i])] + EntriesOf(date, stream, data[i + 1..])
  }

  function EntriesOfAll(writes: seq<Write>): seq<Entry> {
    if writes == [] then []
    else EntriesOf(writes[0].date, writes[0].stream, writes[0].data) + EntriesOfAll(writes[1..])
  }

  /** What was written to one stream, in order. */
  function Stored(writes: seq<Write>, stream: Stream): string {
    if writes == [] then ""
    else (if writes[0].stream == stream then writes[0].data else "") + Stored(writes[1..], stream)
  }

  function Only(stream: Stream, data: string): Output {
    if stream == Stdout then Output(data, "") else Output("", data)
  }

  lemma {:induction false} EntriesAreGood(date: string, stream: Stream, data: string)
    requires ' ' !in date && '\n' !in date
    ensures forall k :: 0 <= k < |EntriesOf(date, stream, data)| ==> Good(EntriesOf(date, stream, data)[k])
    decreases |data|
  {
    if data != "" {
      var i := Index(data, '\n');
      IndexFirst(data, '\n');
      if i < |data| {
        EntriesAreGood(date, stream, data[i + 1..]);
      }
    }
  }

  lemma WholeLine(data: string, i: nat)
    requires i < |data| && data[i] == '\n'
    ensures data[..i] + "\n" + data[i + 1..] == data
  {
  }

  lemma {:induction false} EntriesOfWrite(date: string, stream: Stream, data: string)
    ensures OutputOfAll(EntriesOf(date, stream, data)) == Only(stream, data)
    decreases |data|
  {
    if data != "" {
      var i := Index(data, '\n');
      IndexFirst(data, '\n');
      if i == |data| {
        OutputCons(Entry(date, stream, false, data), []);
      } else {
        var rest := data[i + 1..];
        WholeLine(data, i);
        EntriesOfWrite(date, stream, rest);
        OutputCons(Entry(date, stream, true, data[..i]), EntriesOf(date, stream, rest));
      }
    }
  }

  lemma {:induction false} OutputCons(e: Entry, rest: seq<Entry>)
    ensures OutputOfAll([e] + rest) == Then(OutputOf(e), OutputOfAll(rest))
  {
    assert ([e] + rest)[1..] == rest;
  }

  lemma {:induction false} OutputConcat(a: seq<Entry>, b: seq<Entry>)
    ensures OutputOfAll(a + b) == Then(OutputOfAll(a), OutputOfAll(b))
    decreases |a|
  {
    if a == [] {
      assert a + b == b;
      ThenNothing(OutputOfAll(b));
    } else {
      assert (a + b)[1..] == a[1..] + b;
      OutputConcat(a[1..], b);
      ThenAssociates(OutputOf(a[0]), OutputOfAll(a[1..]), OutputOfAll(b));
    }
  }

  lemma {:induction false} EntriesOfWrites(writes: seq<Write>)
    requires forall k :: 0 <= k < |writes| ==> ' ' !in writes[k].date && '\n' !in writes[k].date
    ensures forall k :: 0 <= k < |EntriesOfAll(writes)| ==> Good(EntriesOfAll(writes)[k])
    ensures OutputOfAll(EntriesOfAll(writes)) == Output(Stored(writes, Stdout), Stored(writes, Stderr))
    decreases |writes|
  {
    if writes != [] {
      var w := writes[0];
      EntriesAreGood(w.date, w.stream, w.data);
      EntriesOfWrite(w.date, w.stream, w.data);
      EntriesOfWrites(writes[1..]);
      OutputConcat(EntriesOf(w.date, w.stream, w.data), EntriesOfAll(writes[1..]));
    }
  }

  /** Any interleaving of writes to the two streams, with newlines anywhere, is read back from the
      log as the exact bytes of each stream. */
  lemma {:induction false} LogReadsBackWrites(writes: seq<Write>)
    requires forall k :: 0 <= k < |writes| ==> ' ' !in writes[k].date && '\n' !in writes[k].date
    ensures Parsed(RenderedAll(EntriesOfAll(writes))) == Output(Stored(writes, Stdout), Stored(writes, Stderr))
  {
    EntriesOfWrites(writes);
    ParseInvertsRender(EntriesOfAll(writes));
  }
}
