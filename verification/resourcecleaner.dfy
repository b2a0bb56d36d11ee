/** The undo stack of a creation request (internal/resourcestore/resourcecleaner.go). An undo
    function is represented by a label; how often it fails before it succeeds is the
    environment's choice, given as `fails`. */
module ResourceCleaner {
  import opened Sequences

  /** An undo function that fails at least `retries` times is given up. */
  predicate Completes<T>(u: T, fails: T -> nat, retries: nat) {
    fails(u) < retries
  }

  /** The undo functions that run to completion: everything before the first one given up. */
  function Completed<T>(funcs: seq<T>, fails: T -> nat, retries: nat): seq<T> {
    if funcs == [] || !Completes(funcs[0], fails, retries) then []
    else [funcs[0]] + Completed(funcs[1..], fails, retries)
  }

  class ResourceCleaner<T> {
    var funcs: seq<T>
    ghost var added: seq<T>   // chronological

    ghost predicate Valid()
      reads this
    {
      funcs == Reversed(added)
    }

    constructor ()
      ensures Valid() && added == []
    {
      funcs, added := [], [];
    }

    method Add(u: T)
      requires Valid()
      modifies this
      ensures Valid() && added == old(added) + [u]
    {
      funcs := [u] + funcs;
      added := added + [u];
      assert added[..|added| - 1] == old(added);
    }

    /** Runs the undo functions newest first, each up to `retries` times, stopping at the first
        one that is given up. `done` lists the completed ones in the order they completed. */
    method Cleanup(fails: T -> nat, retries: nat) returns (ok: bool, done: seq<T>)
      requires Valid()
      ensures done == Completed(Reversed(added), fails, retries)
      ensures ok <==> forall u :: u in added ==> Completes(u, fails, retries)
      ensures ok ==> done == Reversed(added)
    {
      done := [];
      var i := 0;
      while i < |funcs|
        invariant 0 <= i <= |funcs|
        invariant done == funcs[..i]
        invariant forall k :: 0 <= k < i ==> Completes(funcs[k], fails, retries)
        invariant Completed(funcs, fails, retries) == done + Completed(funcs[i..], fails, retries)
      {
        var f := Retry(funcs[i], fails, retries);
        if !f {
          assert funcs[i] == added[|added| - 1 - i];
          return false, done;
        }
        assert funcs[i..][1..] == funcs[i + 1..];
        done := done + [funcs[i]];
        i := i + 1;
      }
      forall u | u in added
        ensures Completes(u, fails, retries)
      {
        var k :| 0 <= k < |added| && added[k] == u;
        assert funcs[|added| - 1 - k] == u;
      }
      return true, done;
    }
  }

  /** wait.ExponentialBackoff with `retries` steps: calls the function until it succeeds, at
      most `retries` times. */
  method Retry<T>(u: T, fails: T -> nat, retries: nat) returns (ok: bool)
    ensures ok <==> Completes(u, fails, retries)
  {
    var attempts := 0;
    while attempts < retries
      invariant attempts <= retries
      invariant attempts <= fails(u)
    {
      if attempts == fails(u) {
        return true;
      }
      attempts := attempts + 1;
    }
    return false;
  }

  /** The function added first runs last: if it completed, all the others completed before it. */
  lemma {:induction false} FirstAddedRunsLast<T>(added: seq<T>, fails: T -> nat, retries: nat, k: nat)
    requires k < |Completed(Reversed(added), fails, retries)|
    ensures k < |added| && Completed(Reversed(added), fails, retries)[k] == added[|added| - 1 - k]
    ensures forall j :: |added| - 1 - k <= j < |added| ==> Completes(added[j], fails, retries)
  {
    var r := Reversed(added);
    CompletedIsPrefix(r, fails, retries);
    forall j | |added| - 1 - k <= j < |added|
      ensures Completes(added[j], fails, retries)
    {
      assert r[|added| - 1 - j] == added[j];
    }
  }

  lemma {:induction false} CompletedIsPrefix<T>(funcs: seq<T>, fails: T -> nat, retries: nat)
    ensures Completed(funcs, fails, retries) <= funcs
    ensures forall j :: 0 <= j < |Completed(funcs, fails, retries)| ==> Completes(funcs[j], fails, retries)
    ensures var n := |Completed(funcs, fails, retries)|;
            n < |funcs| ==> !Completes(funcs[n], fails, retries)
  {
    if funcs != [] && Completes(funcs[0], fails, retries) {
      CompletedIsPrefix(funcs[1..], fails, retries);
    }
  }
}
