/** String operations the sources use, and the facts about them the proofs need. */
module Text {

  ghost predicate OccursAt(hay: string, needle: string, i: nat) {
    i + |needle| <= |hay| && hay[i..i + |needle|] == needle
  }

  /** strings.Contains */
  ghost predicate Contains(hay: string, needle: string) {
    exists i: nat :: OccursAt(hay, needle, i)
  }

  predicate HasPrefix(s: string, prefix: string) {
    |prefix| <= |s| && s[..|prefix|] == prefix
  }

  lemma ContainsInfix(a: string, needle: string, b: string)
    ensures Contains(a + needle + b, needle)
  {
    assert OccursAt(a + needle + b, needle, |a|);
  }

  lemma ContainsSuffix(a: string, hay: string, needle: string)
    requires Contains(hay, needle)
    ensures Contains(a + hay, needle)
  {
    var i: nat :| OccursAt(hay, needle, i);
    assert (a + hay)[|a| + i..|a| + i + |needle|] == hay[i..i + |needle|];
    assert OccursAt(a + hay, needle, |a| + i);
  }

  /** strings.Contains as a search. */
  method Search(hay: string, needle: string) returns (found: bool)
    ensures found <==> Contains(hay, needle)
  {
    var i := 0;
    while i + |needle| <= |hay|
      invariant forall j: nat :: j < i ==> !OccursAt(hay, needle, j)
    {
      if hay[i..i + |needle|] == needle {
        assert OccursAt(hay, needle, i);
        return true;
      }
      i := i + 1;
    }
    return false;
  }

  /** Strings of equal length that end two equal strings are equal. */
  lemma SameEnd(a: string, x: string, b: string, y: string)
    requires a + x == b + y && |x| == |y|
    ensures x == y
  {
    assert (a + x)[|a + x| - |x|..] == x;
    assert (b + y)[|b + y| - |y|..] == y;
  }

  function Digit(d: nat): char
    requires d < 10
  {
    "0123456789"[d]
  }

  /** strconv.Itoa */
  function Itoa(n: int): string
    decreases n < 0, if n < 0 then -n else n
  {
    if n < 0 then "-" + Itoa(-n)
    else if n < 10 then [Digit(n)]
    else Itoa(n / 10) + [Digit(n % 10)]
  }

  function LowerChar(c: char): char {
    if 'A' <= c <= 'Z' then (c as int + 32) as char else c
  }

  /** strings.ToLower on ASCII */
  function Lower(s: string): string {
    seq(|s|, i requires 0 <= i < |s| => LowerChar(s[i]))
  }

  lemma {:induction false} ItoaPlain(n: int, c: char)
    requires c in Itoa(n)
    ensures '0' <= c <= '9' || c == '-'
    decreases n < 0, if n < 0 then -n else n
  {
    if n < 0 {
      if c != '-' {
        ItoaPlain(-n, c);
      }
    } else if n >= 10 && c in Itoa(n / 10) {
      ItoaPlain(n / 10, c);
    }
  }

  lemma LowerPlain(s: string, c: char)
    requires c in Lower(s)
    ensures !('A' <= c <= 'Z')
  {
    var i :| 0 <= i < |s| && Lower(s)[i] == c;
  }

  // ---- where a substring can stand ----

  lemma ContainsPrefix(hay: string, needle: string, prefix: string)
    requires Contains(hay, needle) && HasPrefix(needle, prefix)
    ensures Contains(hay, prefix)
  {
    var i: nat :| OccursAt(hay, needle, i);
    assert hay[i..i + |prefix|] == hay[i..i + |needle|][..|prefix|];
    assert OccursAt(hay, prefix, i);
  }

  lemma AbsentStart(hay: string, needle: string)
    requires needle != "" && needle[0] !in hay
    ensures !Contains(hay, needle)
  {
    forall i: nat | i + |needle| <= |hay|
      ensures !OccursAt(hay, needle, i)
    {
      assert hay[i..i + |needle|][0] == hay[i];
    }
  }

  lemma OccurrenceAt(hay: string, x: string, i: nat, k: nat)
    requires OccursAt(hay, x, i) && k < |x|
    ensures hay[i + k] == x[k]
  {
    assert hay[i..i + |x|][k] == x[k];
  }

  /** A substring without the separator stands wholly on one side of it. */
  lemma ContainsAcross(a: string, sep: char, b: string, x: string)
    requires x != "" && sep !in x && Contains(a + [sep] + b, x)
    ensures Contains(a, x) || Contains(b, x)
  {
    var hay := a + [sep] + b;
    var i: nat :| OccursAt(hay, x, i);
    if i <= |a| < i + |x| {
      OccurrenceAt(hay, x, i, |a| - i);
    } else if i < |a| {
      assert a[i..i + |x|] == hay[i..i + |x|];
      assert OccursAt(a, x, i);
    } else {
      var j := i - |a| - 1;
      assert b[j..j + |x|] == hay[i..i + |x|];
      assert OccursAt(b, x, j);
    }
  }

  lemma ContainsWhole(a: string, x: string)
    requires |a| == |x| && Contains(a, x)
    ensures a == x
  {
    var i: nat :| OccursAt(a, x, i);
    assert a[0..|a|] == a;
  }

  // ---- words ----

  /** strings.Join with spaces */
  function Join(words: seq<string>): string {
    if words == [] then "" else if |words| == 1 then words[0] else words[0] + " " + Join(words[1..])
  }

  lemma {:induction false} JoinConcat(a: seq<string>, b: seq<string>)
    requires a != [] && b != []
    ensures Join(a + b) == Join(a) + " " + Join(b)
  {
    if |a| == 1 {
      assert (a + b)[1..] == b;
    } else {
      assert (a + b)[1..] == a[1..] + b;
      JoinConcat(a[1..], b);
      assert a[0] + " " + (Join(a[1..]) + " " + Join(b)) == (a[0] + " " + Join(a[1..])) + " " + Join(b);
    }
  }

  lemma {:induction false} ContainsWord(words: seq<string>, x: string)
    requires x != "" && ' ' !in x && Contains(Join(words), x)
    ensures exists k :: 0 <= k < |words| && Contains(words[k], x)
  {
    if words == [] {
      AbsentStart("", x);
    } else if |words| == 1 {
      assert Contains(words[0], x);
    } else {
      assert words[0] + " " + Join(words[1..]) == words[0] + [' '] + Join(words[1..]);
      ContainsAcross(words[0], ' ', Join(words[1..]), x);
      if !Contains(words[0], x) {
        ContainsWord(words[1..], x);
        var k :| 0 <= k < |words[1..]| && Contains(words[1..][k], x);
        assert Contains(words[k + 1], x);
      }
    }
  }

  // ---- searching and trimming ----

  /** Where c first occurs, or the length. */
  function Index(s: string, c: char): (i: nat)
    ensures i <= |s|
  {
    if s == "" || s[0] == c then 0 else 1 + Index(s[1..], c)
  }

  lemma {:induction false} IndexFirst(s: string, c: char)
    ensures (forall k :: 0 <= k < Index(s, c) ==> s[k] != c) && (Index(s, c) < |s| ==> s[Index(s, c)] == c)
  {
    if s != "" && s[0] != c {
      IndexFirst(s[1..], c);
      forall k | 0 <= k < Index(s, c)
        ensures s[k] != c
      {
        assert k > 0 ==> s[k] == s[1..][k - 1];
      }
    }
  }

  lemma {:induction false} IndexIs(s: string, c: char, i: nat)
    requires i < |s| && (forall k :: 0 <= k < i ==> s[k] != c) && s[i] == c
    ensures Index(s, c) == i
  {
    IndexFirst(s, c);
  }

  function TrimLeft(s: string): string {
    if s != "" && s[0] == ' ' then TrimLeft(s[1..]) else s
  }

  function TrimRight(s: string): string {
    if s != "" && s[|s| - 1] == ' ' then TrimRight(s[..|s| - 1]) else s
  }

  function Trim(s: string): string {
    TrimRight(TrimLeft(s))
  }

  lemma TrimSolid(s: string)
    requires s != "" && s[0] != ' ' && s[|s| - 1] != ' '
    ensures Trim(s) == s
  {
  }
}
