/** The form in which iptables keeps a rule (internal/hostport/fake_iptables.go, normalizeRule). */
module RuleSyntax {
  import opened Text

  /** The verdict of utilnet.IPFamilyOfString. */
  datatype Family = NotIP | IPv4 | IPv6

  /** An address the way iptables shows it. */
  function Prefixed(text: string, family: Family): string {
    match family
    case NotIP => text
    case IPv4 => text + "/32"
    case IPv6 => text + "/128"
  }

  /** The source indexes past the end of a rule that is blank or has text right after a quote. */
  datatype Normal = Normal(rule: string) | Invalid | Panics

  const DESTINATION := "--to-destination="

  /** An equals sign after the option is read as a space. */
  function Opened(s: string): (r: string)
    ensures |r| == |s|
  {
    if HasPrefix(s, DESTINATION) then "--to-destination " + s[17..] else s
  }

  /** Where the first argument ends: after its closing quote, at a space or at the end. None when
      the quote is not closed. */
  function ArgumentEnd(s: string): (end: int)
    requires s != ""
    ensures -1 <= end <= |s|
  {
    if s[0] == '"' then
      var k := Index(s[1..], '"');
      if k == |s| - 1 then -1 else k + 2
    else Index(s, ' ')
  }

  function Shown(family: string -> Family, arg: string): string {
    Trim(Prefixed(arg, family(arg)))
  }

  function NormalizedFrom(family: string -> Family, remaining: string, normalized: string): Normal
    decreases |remaining|
  {
    var s := Opened(remaining);
    if s == "" then Panics
    else
      var end := ArgumentEnd(s);
      if end < 0 then Invalid
      else
        var arg := Shown(family, s[..end]);
        var longer := if normalized == "" then arg else normalized + " " + arg;
        if end == |s| then Normal(longer) else NormalizedFrom(family, s[end + 1..], longer)
  }

  function Normalized(family: string -> Family, rule: string): Normal {
    NormalizedFrom(family, Trim(rule), "")
  }

  method NormalizeRule(family: string -> Family, rule: string) returns (r: Normal)
    ensures r == Normalized(family, rule)
  {
    var normalized := "";
    var remaining := Trim(rule);
    while true
      invariant Normalized(family, rule) == NormalizedFrom(family, remaining, normalized)
      decreases |remaining|
    {
      var s := if HasPrefix(remaining, DESTINATION) then "--to-destination " + remaining[17..] else remaining;
      if |s| == 0 {
        return Panics;
      }
      var end := ArgumentEnd(s);
      if end < 0 {
        return Invalid;
      }
      var arg := Shown(family, s[..end]);
      normalized := if normalized != "" then normalized + " " + arg else arg;
      if end == |s| {
        return Normal(normalized);
      }
      remaining := s[end + 1..];
    }
  }

  // ---- rules made of words ----

  predicate IsQuoted(w: string) {
    |w| >= 2 && w[0] == '"' && w[|w| - 1] == '"' && '"' !in w[1..|w| - 1]
  }

  /** A quoted text, or a word without spaces. */
  predicate IsWord(w: string) {
    IsQuoted(w) || (w != "" && ' ' !in w && w[0] != '"')
  }

  lemma {:induction false} QuotedEnds(w: string, rest: string)
    requires IsQuoted(w)
    ensures ArgumentEnd(w + rest) == |w|
  {
    var s := w + rest;
    assert s[1..][|w| - 2] == '"';
    forall k | 0 <= k < |w| - 2
      ensures s[1..][k] != '"'
    {
      assert s[1..][k] == w[1..|w| - 1][k];
    }
    IndexIs(s[1..], '"', |w| - 2);
  }

  lemma {:induction false} WordEnds(w: string, rest: string)
    requires IsWord(w) && (rest == "" || rest[0] == ' ')
    ensures ArgumentEnd(w + rest) == |w|
  {
    if IsQuoted(w) {
      QuotedEnds(w, rest);
    } else {
      var s := w + rest;
      IndexFirst(s, ' ');
      assert forall k :: 0 <= k < |w| ==> s[k] == w[k];
      if rest != "" {
        IndexIs(s, ' ', |w|);
      }
    }
  }

  ghost predicate AllWords(words: seq<string>) {
    forall k :: 0 <= k < |words| ==> IsWord(words[k])
  }

  /** No word asks for an equals sign to be replaced. */
  ghost predicate NoDestination(words: seq<string>) {
    forall k :: 0 <= k < |words| ==> !HasPrefix(words[k], DESTINATION)
  }

  function ShownAll(family: string -> Family, words: seq<string>): (r: seq<string>)
    ensures |r| == |words|
  {
    if words == [] then [] else [Shown(family, words[0])] + ShownAll(family, words[1..])
  }

  function Longer(normalized: string, more: string): string {
    if normalized == "" then more else normalized + " " + more
  }

  lemma PrefixOfWord(w: string, rest: string)
    requires !HasPrefix(w, DESTINATION) && IsWord(w) && (rest == "" || rest[0] == ' ')
    ensures !HasPrefix(w + rest, DESTINATION)
  {
    if |w| >= 17 {
      assert (w + rest)[..17] == w[..17];
    } else if |w + rest| >= 17 {
      assert (w + rest)[..17][|w|] == rest[0];
    }
  }

  /** One word of a rule is taken off and shown. */
  lemma {:induction false} NormalizedWord(family: string -> Family, w: string, rest: string, normalized: string)
    requires IsWord(w) && !HasPrefix(w, DESTINATION) && (rest == "" || rest[0] == ' ')
    ensures NormalizedFrom(family, w + rest, normalized) ==
            if rest == "" then Normal(Longer(normalized, Shown(family, w)))
            else NormalizedFrom(family, rest[1..], Longer(normalized, Shown(family, w)))
  {
    PrefixOfWord(w, rest);
    WordEnds(w, rest);
    assert (w + rest)[..|w|] == w;
    assert rest != "" ==> (w + rest)[|w| + 1..] == rest[1..];
  }

  lemma ShownWord(family: string -> Family, w: string)
    requires IsWord(w)
    ensures Shown(family, w) == Prefixed(w, family(w)) && Shown(family, w) != ""
  {
    var p := Prefixed(w, family(w));
    assert p[0] == w[0] != ' ';
    assert p[|p| - 1] != ' ';
    TrimSolid(p);
  }

  /** Words in front of a text are shown one by one. */
  lemma {:induction false} NormalizedWords(family: string -> Family, words: seq<string>, tail: string, normalized: string)
    requires words != [] && AllWords(words) && NoDestination(words)
    ensures NormalizedFrom(family, Join(words) + " " + tail, normalized) ==
            NormalizedFrom(family, tail, Longer(normalized, Join(ShownAll(family, words))))
    decreases |words|
  {
    var w, rest := words[0], words[1..];
    ShownWord(family, w);
    if rest == [] {
      NormalizedWord(family, w, " " + tail, normalized);
      assert w + (" " + tail) == Join(words) + " " + tail && (" " + tail)[1..] == tail;
      assert ShownAll(family, words) == [Shown(family, w)];
    } else {
      var after := Join(rest) + " " + tail;
      assert Join(words) + " " + tail == w + (" " + after);
      NormalizedWord(family, w, " " + after, normalized);
      assert (" " + after)[1..] == after;
      NormalizedWords(family, rest, tail, Longer(normalized, Shown(family, w)));
      ShownCons(family, w, rest, normalized);
      assert words == [w] + rest;
    }
  }

  lemma {:induction false} ShownCons(family: string -> Family, w: string, rest: seq<string>, normalized: string)
    requires rest != [] && Shown(family, w) != ""
    ensures Longer(Longer(normalized, Shown(family, w)), Join(ShownAll(family, rest))) ==
            Longer(normalized, Join(ShownAll(family, [w] + rest)))
  {
    var a, b := Shown(family, w), ShownAll(family, rest);
    assert ([w] + rest)[1..] == rest;
    assert ([a] + b)[1..] == b;
    assert normalized + " " + (a + " " + Join(b)) == normalized + " " + a + " " + Join(b);
  }

  lemma {:induction false} TrimmedJoin(words: seq<string>)
    requires words != [] && AllWords(words)
    ensures Trim(Join(words)) == Join(words)
  {
    JoinSolid(words);
    TrimSolid(Join(words));
  }

  lemma {:induction false} JoinSolid(words: seq<string>)
    requires words != [] && AllWords(words)
    ensures Join(words) != "" && Join(words)[0] != ' ' && Join(words)[|Join(words)| - 1] != ' '
  {
    var w := words[0];
    assert w[0] != ' ' && w[|w| - 1] != ' ';
    if |words| > 1 {
      JoinSolid(words[1..]);
    }
  }

  /** A rule of plain words is kept with its addresses shown. */
  lemma {:induction false} NormalizedRule(family: string -> Family, words: seq<string>, last: string)
    requires words != [] && AllWords(words) && NoDestination(words) && IsWord(last) && !HasPrefix(last, DESTINATION)
    ensures Normalized(family, Join(words + [last])) == Normal(Join(ShownAll(family, words) + [Shown(family, last)]))
  {
    TrimmedJoin(words + [last]);
    JoinConcat(words, [last]);
    NormalizedWords(family, words, last, "");
    var shown := Join(ShownAll(family, words));
    NormalizedWord(family, last, "", shown);
    assert last + "" == last;
    ShownJoin(family, words, Shown(family, last));
  }

  lemma {:induction false} ShownJoin(family: string -> Family, words: seq<string>, last: string)
    requires words != [] && AllWords(words)
    ensures Join(ShownAll(family, words)) != ""
    ensures Join(ShownAll(family, words) + [last]) == Join(ShownAll(family, words)) + " " + last
  {
    ShownWord(family, words[0]);
    JoinConcat(ShownAll(family, words), [last]);
  }

  /** The same where the last word gives a destination after an equals sign. */
  lemma {:induction false} NormalizedDestination(family: string -> Family, words: seq<string>, x: string)
    requires words != [] && AllWords(words) && NoDestination(words)
    requires IsWord(x) && !IsQuoted(x) && !HasPrefix(x, DESTINATION) && family("--to-destination") == NotIP
    ensures Normalized(family, Join(words + [DESTINATION + x])) ==
            Normal(Join(ShownAll(family, words) + ["--to-destination", Shown(family, x)]))
  {
    var last := DESTINATION + x;
    assert IsWord(last);
    TrimmedJoin(words + [last]);
    JoinConcat(words, [last]);
    NormalizedWords(family, words, last, "");
    var shown := Join(ShownAll(family, words));
    ShownJoin(family, words, "--to-destination");
    DestinationSplit(family, x, shown);
    DestinationJoin(ShownAll(family, words), Shown(family, x));
  }

  lemma {:induction false} DestinationJoin(shown: seq<string>, x: string)
    requires shown != []
    ensures Join(shown + ["--to-destination", x]) == Join(shown) + " " + "--to-destination" + " " + x
  {
    JoinConcat(shown, ["--to-destination", x]);
    assert ["--to-destination", x][1..] == [x];
    assert Join(["--to-destination", x]) == "--to-destination" + " " + x;
  }

  lemma {:induction false} DestinationSplit(family: string -> Family, x: string, normalized: string)
    requires normalized != "" && IsWord(x) && !IsQuoted(x) && !HasPrefix(x, DESTINATION) && family("--to-destination") == NotIP
    ensures NormalizedFrom(family, DESTINATION + x, normalized) ==
            Normal(normalized + " " + "--to-destination" + " " + Shown(family, x))
  {
    var s := "--to-destination " + x;
    assert (DESTINATION + x)[..17] == DESTINATION && (DESTINATION + x)[17..] == x;
    assert Opened(DESTINATION + x) == s;
    assert s == "--to-destination" + (" " + x) && (" " + x)[1..] == x;
    WordEnds("--to-destination", " " + x);
    ShownWord(family, "--to-destination");
    assert s[..16] == "--to-destination" && s[17..] == x;
    NormalizedWord(family, x, "", normalized + " " + "--to-destination");
    assert x + "" == x;
  }
}
