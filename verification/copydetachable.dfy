/** Copying a stream until the detach keys are typed (utils/utils.go). */
module CopyDetachable {
  newtype Byte = x: int | 0 <= x < 256

  datatype ReadError = NoError | EndOfFile | ReadFailure

  /** What one call of Read returns: data may come together with an error. */
  datatype ReadResult = ReadResult(data: seq<Byte>, err: ReadError)

  /** What a write that is not simply complete does: at most so many bytes, perhaps an error. */
  datatype WriteLimit = WriteLimit(bytes: nat, fails: bool)

  datatype CopyResult = Copied | Detached | ReaderFailed | WriterFailed | ShortWrite | MissingStream

  const DefaultKeys: seq<Byte> := [16, 17]

  /** After the listed results, Read returns the end of the file. */
  function ReadAt(input: seq<ReadResult>, k: nat): ReadResult {
    if k < |input| then input[k] else ReadResult([], EndOfFile)
  }

  function Rest(input: seq<ReadResult>, k: nat): seq<ReadResult> {
    if k <= |input| then input[k..] else []
  }

  class Reader {
    var pending: seq<ReadResult>
    var consumed: seq<Byte>

    constructor (results: seq<ReadResult>)
      ensures pending == results && consumed == []
    {
      pending, consumed := results, [];
    }

    method Read() returns (data: seq<Byte>, err: ReadError)
      modifies this
      ensures ReadResult(data, err) == ReadAt(old(pending), 0) && pending == Rest(old(pending), 1)
      ensures consumed == old(consumed) + data
    {
      if pending == [] {
        return [], EndOfFile;
      }
      data, err := pending[0].data, pending[0].err;
      pending, consumed := pending[1..], consumed + data;
    }
  }

  /** After the listed limits, writes are complete. */
  class Writer {
    var limits: seq<WriteLimit>
    var output: seq<Byte>

    constructor (l: seq<WriteLimit>)
      ensures limits == l && output == []
    {
      limits, output := l, [];
    }

    method Write(data: seq<Byte>) returns (n: nat, failed: bool)
      modifies this
      ensures n <= |data| && output == old(output) + data[..n]
      ensures old(limits) == [] ==> n == |data| && !failed && limits == []
    {
      n, failed := |data|, false;
      if limits != [] {
        n, failed := if limits[0].bytes < |data| then limits[0].bytes else |data|, limits[0].fails;
        limits := limits[1..];
      }
      output := output + data[..n];
    }
  }

  function KeysOf(keys: seq<Byte>): (r: seq<Byte>)
    ensures r != []
  {
    if keys == [] then DefaultKeys else keys
  }

  // ---- when the keys are recognised ----

  /** How many of the next reads are single bytes that spell the keys from their start. */
  function Matches(input: seq<ReadResult>, keys: seq<Byte>): (m: nat)
    ensures m <= |keys| && m <= |input|
  {
    if input == [] || keys == [] || input[0].data != [keys[0]] then 0
    else 1 + Matches(input[1..], keys[1..])
  }

  /** Whether copying comes to the keys: each round begins with the next read; a partial match
      that is abandoned takes the read that broke it along. */
  predicate Detaches(input: seq<ReadResult>, keys: seq<Byte>)
    requires keys != []
    decreases |input|
  {
    if input == [] then false
    else if input[0].data == [] then input[0].err == NoError && Detaches(input[1..], keys)
    else
      var m := Matches(input, keys);
      m == |keys| || (m < |input| && input[m].err == NoError && Detaches(input[m + 1..], keys))
  }

  /** The keys are recognised at a round's start exactly when each arrives as a read of its own. */
  lemma {:induction false} MatchesAll(input: seq<ReadResult>, keys: seq<Byte>)
    ensures Matches(input, keys) == |keys| <==>
              |keys| <= |input| && forall k :: 0 <= k < |keys| ==> input[k].data == [keys[k]]
    decreases |keys|
  {
    if input != [] && keys != [] {
      MatchesAll(input[1..], keys[1..]);
      if input[0].data == [keys[0]] && Matches(input, keys) == |keys| {
        forall k | 0 <= k < |keys|
          ensures input[k].data == [keys[k]]
        {
          if k > 0 {
            assert input[k] == input[1..][k - 1] && keys[k] == keys[1..][k - 1];
          }
        }
      }
    }
  }

  /** Typed one after the other the default keys detach; but not after a lone first key, whose
      abandoned match swallows the next one. */
  lemma DefaultKeysTyped()
    ensures var p, q := ReadResult([16], NoError), ReadResult([17], NoError);
            Detaches([p, q], DefaultKeys) && !Detaches([p, p, q], DefaultKeys)
  {
    var p, q := ReadResult([16], NoError), ReadResult([17], NoError);
    assert [p, q][1..] == [q] && [q][1..] == [] && DefaultKeys[1..] == [17] && [17 as Byte][1..] == [];
    assert [p, p, q][1..] == [p, q] && [p, p, q][2..] == [q];
    assert Matches([q], [17 as Byte]) == 1;
    assert Matches([p, q], DefaultKeys) == 2;
    assert Matches([p, q], [17 as Byte]) == 0;
    assert Matches([p, p, q], DefaultKeys) == 1;
    assert Matches([q], DefaultKeys) == 0;
    assert [q][1..] == [] && !Detaches([], DefaultKeys);
    assert !Detaches([q], DefaultKeys);
  }

  // ---- where the keys are recognised, in terms of the reads alone ----

  /** The keys stand at k, each as a read of its own. */
  ghost predicate KeysAt(input: seq<ReadResult>, keys: seq<Byte>, k: nat) {
    k + |keys| <= |input| && forall i :: 0 <= i < |keys| ==> input[k + i].data == [keys[i]]
  }

  /** A read whose error does not end the copy: it had none, or is a lone key the next read follows. */
  ghost predicate PassedOver(r: ReadResult, keys: seq<Byte>) {
    r.err == NoError || exists i :: 0 <= i < |keys| - 1 && r.data == [keys[i]]
  }

  lemma {:induction false} MatchedAre(input: seq<ReadResult>, keys: seq<Byte>, j: nat)
    requires j < Matches(input, keys)
    ensures input[j].data == [keys[j]]
  {
    if j > 0 {
      MatchedAre(input[1..], keys[1..], j - 1);
    }
  }

  lemma KeysShift(input: seq<ReadResult>, keys: seq<Byte>, gap: nat, k: nat)
    requires gap + k + |keys| <= |input|
    ensures KeysAt(input[gap..], keys, k) <==> KeysAt(input, keys, gap + k)
  {
    forall i | 0 <= i < |keys|
      ensures input[gap..][k + i].data == [keys[i]] <==> input[gap + k + i].data == [keys[i]]
    {
    }
  }

  /** Whatever the keys, a detach means that they stand somewhere as reads of their own, and that
      every read before passed without an error that ends the copy. */
  lemma {:induction false} DetachNeedsKeys(input: seq<ReadResult>, keys: seq<Byte>) returns (k: nat)
    requires keys != [] && Detaches(input, keys)
    ensures KeysAt(input, keys, k) && forall j :: 0 <= j < k ==> PassedOver(input[j], keys)
    decreases |input|
  {
    var m := Matches(input, keys);
    if input[0].data != [] && m == |keys| {
      MatchesAll(input, keys);
      k := 0;
    } else {
      var step := if input[0].data == [] then 1 else m + 1;
      var rest := DetachNeedsKeys(input[step..], keys);
      KeysShift(input, keys, step, rest);
      k := step + rest;
      forall j | 0 <= j < k
        ensures PassedOver(input[j], keys)
      {
        if j >= step {
          assert input[step..][j - step] == input[j];
        } else if j < m {
          MatchedAre(input, keys, j);
        }
      }
    }
  }

  /** Keys that stand somewhere with no error and no lone first key before them detach. */
  lemma {:induction false} FreshKeysDetach(input: seq<ReadResult>, keys: seq<Byte>, k: nat)
    requires keys != [] && KeysAt(input, keys, k)
    requires forall j :: 0 <= j < k ==> input[j].err == NoError && input[j].data != [keys[0]]
    ensures Detaches(input, keys)
    decreases k
  {
    if k == 0 {
      MatchesAll(input, keys);
      assert input[0].data == [keys[0]];
    } else {
      forall i | 0 <= i < |keys|
        ensures input[1..][k - 1 + i].data == [keys[i]]
      {
        assert input[1..][k - 1 + i] == input[k + i];
      }
      FreshKeysDetach(input[1..], keys, k - 1);
    }
  }

  // ---- the exact condition for any keys ----

  /** No attempt that began earlier is still under way at k: each spelled fewer keys than it takes to
      reach k, and the read that broke it came before. */
  ghost predicate Begins(input: seq<ReadResult>, keys: seq<Byte>, k: nat)
    requires k <= |input|
    decreases k
  {
    forall i: nat :: i < k && Begins(input, keys, i) ==> i + Matches(input[i..], keys) < k
  }

  /** The read ends no attempt, or does so without an error. */
  ghost predicate Unbroken(input: seq<ReadResult>, keys: seq<Byte>, j: nat)
    requires j < |input|
  {
    Begins(input, keys, j + 1) ==> input[j].err == NoError
  }

  /** The keys stand at k where no earlier attempt is under way, and no attempt was broken by a read
      with an error before. */
  ghost predicate RecognisedAt(input: seq<ReadResult>, keys: seq<Byte>, k: nat) {
    KeysAt(input, keys, k) && Begins(input, keys, k) && forall j: nat :: j < k ==> Unbroken(input, keys, j)
  }

  /** Within the first attempt none begins. */
  lemma {:induction false} NoneWithin(input: seq<ReadResult>, keys: seq<Byte>, k: nat)
    requires 0 < k <= |input| && k <= Matches(input, keys)
    ensures !Begins(input, keys, k)
  {
    assert input[0..] == input;
    assert Begins(input, keys, 0);
  }

  /** After the first attempt others begin where they do without it. */
  lemma {:induction false} BeginsLater(input: seq<ReadResult>, keys: seq<Byte>, gap: nat, k: nat)
    requires gap == Matches(input, keys) + 1 && gap + k <= |input|
    ensures Begins(input, keys, gap + k) <==> Begins(input[gap..], keys, k)
    decreases k
  {
    assert input[0..] == input;
    assert Begins(input, keys, 0);
    forall i: nat | i < k
      ensures Begins(input, keys, gap + i) <==> Begins(input[gap..], keys, i)
      ensures input[gap..][i..] == input[gap + i..]
    {
      BeginsLater(input, keys, gap, i);
    }
    if Begins(input[gap..], keys, k) {
      forall i: nat | i < gap + k && Begins(input, keys, i)
        ensures i + Matches(input[i..], keys) < gap + k
      {
        if i >= gap {
          assert Begins(input[gap..], keys, i - gap);
        } else if i > 0 {
          NoneWithin(input, keys, i);
        }
      }
    }
    if Begins(input, keys, gap + k) {
      forall i: nat | i < k && Begins(input[gap..], keys, i)
        ensures i + Matches(input[gap..][i..], keys) < k
      {
        assert gap + i + Matches(input[gap + i..], keys) < gap + k;
      }
    }
  }

  lemma {:induction false} UnbrokenLater(input: seq<ReadResult>, keys: seq<Byte>, gap: nat, j: nat)
    requires gap == Matches(input, keys) + 1 && gap + j < |input|
    ensures Unbroken(input[gap..], keys, j) <==> Unbroken(input, keys, gap + j)
  {
    BeginsLater(input, keys, gap, j + 1);
    assert gap + (j + 1) == gap + j + 1 && input[gap..][j] == input[gap + j];
  }

  lemma {:induction false} AllUnbrokenLater(input: seq<ReadResult>, keys: seq<Byte>, gap: nat, k: nat)
    requires gap == Matches(input, keys) + 1 && gap + k <= |input| && input[gap - 1].err == NoError
    ensures (forall j: nat :: j < k ==> Unbroken(input[gap..], keys, j)) <==> (forall j: nat :: j < gap + k ==> Unbroken(input, keys, j))
  {
    forall j: nat | j < k
      ensures Unbroken(input[gap..], keys, j) <==> Unbroken(input, keys, gap + j)
    {
      UnbrokenLater(input, keys, gap, j);
    }
    if forall j: nat :: j < k ==> Unbroken(input[gap..], keys, j) {
      forall j: nat | j < gap + k
        ensures Unbroken(input, keys, j)
      {
        if j >= gap {
          assert Unbroken(input[gap..], keys, j - gap);
        } else if j < gap - 1 {
          NoneWithin(input, keys, j + 1);
        }
      }
    }
  }

  lemma {:induction false} RecognisedLater(input: seq<ReadResult>, keys: seq<Byte>, gap: nat, k: nat)
    requires gap == Matches(input, keys) + 1 && gap <= |input| && input[gap - 1].err == NoError
    ensures RecognisedAt(input[gap..], keys, k) <==> RecognisedAt(input, keys, gap + k)
  {
    if gap + k + |keys| <= |input| {
      BeginsLater(input, keys, gap, k);
      KeysShift(input, keys, gap, k);
      AllUnbrokenLater(input, keys, gap, k);
    }
  }

  /** Whatever the keys, the copy detaches if and only if they stand somewhere as reads of their own
      where no earlier attempt is under way, none having been broken by a read with an error. */
  lemma {:induction false} KeysDetach(input: seq<ReadResult>, keys: seq<Byte>)
    requires keys != []
    ensures Detaches(input, keys) <==> exists k: nat :: RecognisedAt(input, keys, k)
    decreases |input|
  {
    if input != [] {
      var m := Matches(input, keys);
      MatchesAll(input, keys);
      if m == |keys| {
        assert RecognisedAt(input, keys, 0);
      } else {
        AttemptPasses(input, keys);
      }
    }
  }

  lemma {:induction false} AttemptPasses(input: seq<ReadResult>, keys: seq<Byte>)
    requires keys != [] && input != [] && Matches(input, keys) < |keys|
    ensures Detaches(input, keys) <==> exists k: nat :: RecognisedAt(input, keys, k)
    decreases |input|, 0
  {
    var gap := Matches(input, keys) + 1;
    MatchesAll(input, keys);
    if k: nat :| RecognisedAt(input, keys, k) {
      BreakPassed(input, keys, k);
      RecognisedLater(input, keys, gap, k - gap);
      KeysDetach(input[gap..], keys);
    }
    if Detaches(input, keys) {
      KeysDetach(input[gap..], keys);
      var k: nat :| RecognisedAt(input[gap..], keys, k);
      RecognisedLater(input, keys, gap, k);
    }
  }

  /** Keys recognised later than the first attempt come after the read that broke it. */
  lemma {:induction false} BreakPassed(input: seq<ReadResult>, keys: seq<Byte>, k: nat)
    requires keys != [] && input != [] && Matches(input, keys) < |keys| && RecognisedAt(input, keys, k)
    ensures var gap := Matches(input, keys) + 1; gap <= k && gap <= |input| && input[gap - 1].err == NoError
  {
    var gap := Matches(input, keys) + 1;
    MatchesAll(input, keys);
    assert k > 0;
    if k < gap {
      NoneWithin(input, keys, k);
    }
    assert input[gap..] == input[gap..][0..];
    BeginsLater(input, keys, gap, 0);
    assert Begins(input[gap..], keys, 0);
    assert Unbroken(input, keys, gap - 1);
  }

  /** How many lone reads of a key stand just before k. */
  function LoneBefore(input: seq<ReadResult>, key: Byte, k: nat): (n: nat)
    requires k <= |input|
    ensures n <= k
  {
    if k == 0 || input[k - 1].data != [key] then 0 else 1 + LoneBefore(input, key, k - 1)
  }

  /** Two keys typed at k, after an even number of lone first keys; an error before k is passed
      over exactly at a first key that itself comes after an even number of them. */
  ghost predicate TypedAt(input: seq<ReadResult>, first: Byte, second: Byte, k: nat) {
    k + 1 < |input| && input[k].data == [first] && input[k + 1].data == [second] && LoneBefore(input, first, k) % 2 == 0 &&
    forall j :: 0 <= j < k ==> Clear(input, first, j)
  }

  ghost predicate Clear(input: seq<ReadResult>, first: Byte, j: nat)
    requires j < |input|
  {
    input[j].err == NoError || (input[j].data == [first] && LoneBefore(input, first, j) % 2 == 0)
  }

  ghost predicate Typed(input: seq<ReadResult>, first: Byte, second: Byte) {
    exists k: nat :: TypedAt(input, first, second, k)
  }

  /** Dropping one other read, or a pair that begins with a lone first key, keeps the parity. */
  lemma {:induction false} LoneShift(input: seq<ReadResult>, first: Byte, gap: nat, k: nat)
    requires gap + k <= |input|
    requires (gap == 1 && input[0].data != [first]) || (gap == 2 && input[0].data == [first])
    ensures LoneBefore(input, first, gap + k) % 2 == LoneBefore(input[gap..], first, k) % 2
    decreases k
  {
    if k > 0 {
      assert input[gap..][k - 1] == input[gap + k - 1];
      LoneShift(input, first, gap, k - 1);
    } else if gap == 2 {
      assert LoneBefore(input, first, 1) == 1;
    }
  }

  lemma ClearLater(input: seq<ReadResult>, first: Byte, gap: nat, j: nat)
    requires gap + j < |input|
    requires (gap == 1 && input[0].data != [first]) || (gap == 2 && input[0].data == [first])
    ensures Clear(input[gap..], first, j) <==> Clear(input, first, gap + j)
  {
    LoneShift(input, first, gap, j);
    assert input[gap..][j] == input[gap + j];
  }

  lemma {:induction false} AllClearLater(input: seq<ReadResult>, first: Byte, gap: nat, k: nat)
    requires gap + k <= |input|
    requires (gap == 1 && input[0].data != [first] && input[0].err == NoError)
          || (gap == 2 && input[0].data == [first] && input[1].err == NoError)
    ensures (forall j :: 0 <= j < k ==> Clear(input[gap..], first, j)) <==> (forall j :: 0 <= j < gap + k ==> Clear(input, first, j))
  {
    forall j | 0 <= j < k
      ensures Clear(input[gap..], first, j) <==> Clear(input, first, gap + j)
    {
      ClearLater(input, first, gap, j);
    }
    if forall j :: 0 <= j < k ==> Clear(input[gap..], first, j) {
      forall j | 0 <= j < gap + k
        ensures Clear(input, first, j)
      {
        if j >= gap {
          assert Clear(input[gap..], first, j - gap);
        }
      }
    }
  }

  lemma {:induction false} TypedLater(input: seq<ReadResult>, first: Byte, second: Byte, gap: nat, k: nat)
    requires gap + k <= |input|
    requires (gap == 1 && input[0].data != [first] && input[0].err == NoError)
          || (gap == 2 && input[0].data == [first] && input[1].err == NoError)
    ensures TypedAt(input[gap..], first, second, k) <==> TypedAt(input, first, second, gap + k)
  {
    LoneShift(input, first, gap, k);
    AllClearLater(input, first, gap, k);
    assert gap + k + 1 < |input| ==> input[gap..][k] == input[gap + k] && input[gap..][k + 1] == input[gap + k + 1];
  }

  lemma TypedNowhereElse(input: seq<ReadResult>, first: Byte, second: Byte, gap: nat, k: nat)
    requires first != second && gap <= |input| && TypedAt(input, first, second, k)
    requires (gap == 1 && input[0].data != [first])
          || (gap == 2 && input[0].data == [first] && input[1].data != [second])
    ensures k >= gap
    ensures gap == 1 ==> input[0].err == NoError
    ensures gap == 2 ==> input[1].err == NoError
  {
    assert gap == 2 ==> LoneBefore(input, first, 1) == 1;
    assert k >= gap;
    assert Clear(input, first, gap - 1);
  }

  lemma {:induction false} MatchesTwo(input: seq<ReadResult>, first: Byte, second: Byte)
    requires input != []
    ensures Matches(input, [first, second]) ==
            if input[0].data != [first] then 0 else if |input| < 2 || input[1].data != [second] then 1 else 2
  {
    assert [first, second][1..] == [second];
  }

  /** Two different keys are recognised exactly when they are typed one after the other, each as a
      read of its own, after an even number of lone first keys, and no error ended the copy before. */
  lemma {:induction false} TwoKeysDetach(input: seq<ReadResult>, first: Byte, second: Byte)
    requires first != second
    ensures Detaches(input, [first, second]) <==> Typed(input, first, second)
    decreases |input|
  {
    if input != [] {
      MatchesTwo(input, first, second);
      if input[0].data != [first] {
        SkipDetach(input, first, second, 1);
      } else if |input| >= 2 && input[1].data == [second] {
        assert TypedAt(input, first, second, 0);
      } else if |input| >= 2 {
        SkipDetach(input, first, second, 2);
      }
    }
  }

  lemma {:induction false} SkipDetach(input: seq<ReadResult>, first: Byte, second: Byte, gap: nat)
    requires first != second && 0 < gap <= |input|
    requires (gap == 1 && input[0].data != [first]) || (gap == 2 && input[0].data == [first] && input[1].data != [second])
    ensures Typed(input, first, second) <==> input[gap - 1].err == NoError && Detaches(input[gap..], [first, second])
    decreases |input|, 0
  {
    TwoKeysDetach(input[gap..], first, second);
    if k: nat :| TypedAt(input, first, second, k) {
      TypedNowhereElse(input, first, second, gap, k);
      TypedLater(input, first, second, gap, k - gap);
    }
    if k: nat :| input[gap - 1].err == NoError && TypedAt(input[gap..], first, second, k) {
      TypedLater(input, first, second, gap, k);
    }
  }

  /** The default keys: control-p and control-q, after an even number of lone control-p. */
  lemma {:induction false} DefaultKeysDetach(input: seq<ReadResult>)
    ensures Detaches(input, DefaultKeys) <==> Typed(input, 16, 17)
  {
    TwoKeysDetach(input, 16, 17);
  }

  // ---- the copy ----

  lemma MatchesNext(input: seq<ReadResult>, keys: seq<Byte>, i: nat)
    requires i < |keys| && ReadAt(input, i).data == [keys[i]]
    ensures Matches(Rest(input, i), keys[i..]) == 1 + Matches(Rest(input, i + 1), keys[i + 1..])
  {
    assert input[i..][1..] == input[i + 1..] && keys[i..][1..] == keys[i + 1..];
  }

  lemma MatchesStops(input: seq<ReadResult>, keys: seq<Byte>, i: nat)
    requires i < |keys| && ReadAt(input, i).data != [keys[i]]
    ensures Matches(Rest(input, i), keys[i..]) == 0
  {
  }

  /** One round, from its first read on, `all` being what it reads from. On a detach the round's
      data are the keys. */
  method ReadRound(src: Reader, keys: seq<Byte>, first: seq<Byte>, firstError: ReadError, ghost all: seq<ReadResult>, ghost before: seq<Byte>)
    returns (detached: bool, preserved: seq<Byte>, err: ReadError)
    requires keys != [] && all != [] && all[0] == ReadResult(first, firstError) && src.pending == all[1..]
    requires src.consumed == before + first
    modifies src
    ensures src.consumed == before + preserved
    ensures detached <==> Matches(all, keys) == |keys|
    ensures detached ==> preserved == keys
    ensures !detached ==> err == ReadAt(all, Matches(all, keys)).err && src.pending == Rest(all, Matches(all, keys) + 1)
  {
    var data := first;
    err := firstError;
    preserved := [];
    var i := 0;
    while true
      invariant 0 <= i < |keys| && preserved == keys[..i]
      invariant src.consumed == before + preserved + data
      invariant ReadResult(data, err) == ReadAt(all, i) && src.pending == Rest(all, i + 1)
      invariant Matches(all, keys) == i + Matches(Rest(all, i), keys[i..])
      decreases |keys| - i
    {
      assert before + preserved + data == before + (preserved + data);
      preserved := preserved + data;
      if |data| != 1 || data[0] != keys[i] {
        MatchesStops(all, keys, i);
        detached := false;
        return;
      }
      MatchesNext(all, keys, i);
      if i == |keys| - 1 {
        detached := true;
        return;
      }
      data, err := src.Read();
      i := i + 1;
    }
  }

  /** What has been written: all that was consumed unless the writer failed or the keys came. */
  ghost predicate Conserved(result: CopyResult, written: int, output: seq<Byte>, consumed: seq<Byte>, keys: seq<Byte>) {
    match result
    case Copied | ReaderFailed => output == consumed && written == |output|
    case Detached => output + keys == consumed && written == 0
    case WriterFailed | ShortWrite => output <= consumed && written == |output|
    case MissingStream => output == [] && consumed == [] && written == 0
  }

  /** For every chunking of the input and every key sequence nothing is lost, duplicated or
      reordered; and with a writer that takes everything, copying detaches exactly where
      Detaches says. */
  method Copy(dst: Writer?, src: Reader?, keys: seq<Byte>) returns (written: int, result: CopyResult)
    requires dst != null ==> dst.output == []
    requires src != null ==> src.consumed == []
    modifies dst, src
    ensures result == MissingStream <==> dst == null || src == null
    ensures dst != null && src != null ==> Conserved(result, written, dst.output, src.consumed, KeysOf(keys))
    ensures dst != null && src != null && old(dst.limits) == [] ==>
              (result == Detached <==> Detaches(old(src.pending), KeysOf(keys))) && result != WriterFailed && result != ShortWrite
    ensures dst != null && src != null && old(dst.limits) == [] && keys == [] ==>
              (result == Detached <==> Typed(old(src.pending), 16, 17))
  {
    if dst == null || src == null {
      return 0, MissingStream;
    }
    var detachKeys := KeysOf(keys);
    DefaultKeysDetach(src.pending);
    written := 0;
    ghost var steady := dst.limits == [];
    while true
      invariant dst.output == src.consumed && written == |dst.output|
      invariant steady ==> dst.limits == [] && (Detaches(old(src.pending), detachKeys) <==> Detaches(src.pending, detachKeys))
      invariant steady == (old(dst.limits) == [])
      decreases |src.pending|
    {
      ghost var all, before := src.pending, src.consumed;
      var data, err := src.Read();
      if |data| > 0 {
        assert all[1..] == Rest(all, 1);
        var detached, preserved;
        detached, preserved, err := ReadRound(src, detachKeys, data, err, all, before);
        if detached {
          return 0, Detached;
        }
        var n, failed := dst.Write(preserved);
        written := written + n;
        assert preserved[..n] <= preserved && preserved[..|preserved|] == preserved;
        assert before + preserved[..n] <= before + preserved;
        if failed {
          return written, WriterFailed;
        }
        if |preserved| != n {
          return written, ShortWrite;
        }
      }
      if err != NoError {
        return written, if err == EndOfFile then Copied else ReaderFailed;
      }
    }
  }
}
