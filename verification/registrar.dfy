/** The container-name registrar (internal/registrar): a map from names to keys kept together
    with its inverse, a list of names for every key. */
module Registrar {
  import opened Sequences

  /** `idx` is the exact inverse of `names`: every list is non-empty, free of duplicates and
      holds precisely the names reserved for its key. */
  ghost predicate Inverse(names: map<string, string>, idx: map<string, seq<string>>) {
    && (forall n :: n in names ==> names[n] in idx && n in idx[names[n]])
    && (forall k :: k in idx ==> idx[k] != [] && NoDuplicates(idx[k]))
    && (forall k, n :: k in idx && n in idx[k] ==> n in names && names[n] == k)
  }

  datatype Error = NameReserved | NameNotReserved | NoSuchKey
  datatype Result<T> = Ok(value: T) | Err(error: Error)

  // What an operation does to the name map alone.

  function Deleted(names: map<string, string>, key: string): map<string, string> {
    map n | n in names && names[n] != key :: names[n]
  }

  ghost function Without(names: map<string, string>, gone: seq<string>): map<string, string> {
    map n | n in names && n !in gone :: names[n]
  }

  /** The list without the name, the others in their order. */
  function Others(list: seq<string>, name: string): seq<string> {
    if list == [] then [] else (if list[0] == name then [] else [list[0]]) + Others(list[1..], name)
  }

  lemma {:induction false} OthersCut(list: seq<string>, i: nat)
    requires i < |list| && NoDuplicates(list)
    ensures Others(list, list[i]) == list[..i] + list[i + 1..]
  {
    var name := list[i];
    if i == 0 {
      OthersAll(list[1..], name);
    } else {
      OthersCut(list[1..], i - 1);
      assert list[..i] == [list[0]] + list[1..][..i - 1] && list[1..][i - 1 + 1..] == list[i + 1..];
    }
  }

  lemma {:induction false} OthersAll(list: seq<string>, name: string)
    requires name !in list
    ensures Others(list, name) == list
  {
    if list != [] {
      OthersAll(list[1..], name);
    }
  }

  /** Cutting the released name out of its key's list leaves the maps inverse to each other. */
  lemma {:induction false} ReleaseKeepsInverse(names: map<string, string>, idx: map<string, seq<string>>, name: string, i: nat)
    requires Inverse(names, idx) && name in names && i < |idx[names[name]]| && idx[names[name]][i] == name
    ensures var key := names[name];
            var list := idx[key];
            var rest := list[..i] + list[i + 1..];
            rest == Others(list, name) && Inverse(names - {name}, if rest == [] then idx - {key} else idx[key := rest])
  {
    var list := idx[names[name]];
    RemoveAt(list, i);
    OthersCut(list, i);
  }

  class Registrar {
    var idx: map<string, seq<string>>
    var names: map<string, string>

    ghost predicate Valid()
      reads this
    {
      Inverse(names, idx)
    }

    constructor ()
      ensures Valid() && names == map[] && idx == map[]
    {
      idx, names := map[], map[];
    }

    method Reserve(name: string, key: string) returns (ok: bool)
      requires Valid()
      modifies this
      ensures Valid()
      ensures ok <==> (name in old(names) ==> old(names)[name] == key)
      ensures names == if ok then old(names)[name := key] else old(names)
      ensures name in old(names) ==> idx == old(idx)
      ensures name !in old(names) ==>
                idx == old(idx)[key := (if key in old(idx) then old(idx)[key] else []) + [name]]
    {
      if name in names {
        assert names[name] == key ==> names == names[name := key];
        return names[name] == key;
      }
      var list := if key in idx then idx[key] else [];
      idx := idx[key := list + [name]];
      names := names[name := key];
      return true;
    }

    method Release(name: string)
      requires Valid()
      modifies this
      ensures Valid()
      ensures names == old(names) - {name}
      ensures name !in old(names) ==> idx == old(idx)
      ensures name in old(names) ==>
                var key := old(names)[name];
                var rest := Others(old(idx)[key], name);
                idx == if rest == [] then old(idx) - {key} else old(idx)[key := rest]
    {
      if name !in names {
        return;
      }
      var key := names[name];
      var list := idx[key];
      var i := 0;
      while list[i] != name
        invariant 0 <= i < |list|
        invariant name !in list[..i]
        decreases |list| - i
      {
        assert name in list[i + 1..];
        i := i + 1;
      }
      var rest := list[..i] + list[i + 1..];
      ReleaseKeepsInverse(names, idx, name, i);
      names := names - {name};
      idx := if rest == [] then idx - {key} else idx[key := rest];
    }

    method Delete(key: string)
      requires Valid()
      modifies this
      ensures Valid()
      ensures names == Deleted(old(names), key)
      ensures idx == old(idx) - {key}
    {
      var list := if key in idx then idx[key] else [];
      var i := 0;
      while i < |list|
        invariant 0 <= i <= |list| && idx == old(idx)
        invariant names == Without(old(names), list[..i])
      {
        assert list[..i + 1] == list[..i] + [list[i]];
        names := names - {list[i]};
        i := i + 1;
      }
      assert list[..i] == list;
      DeleteKeepsInverse(names, old(names), idx, key);
      idx := idx - {key};
    }

    /** Every name reserved for `key`, each exactly once. */
    method GetNames(key: string) returns (r: Result<seq<string>>)
      requires Valid()
      ensures r.Ok? <==> exists n :: n in names && names[n] == key
      ensures r.Err? ==> r.error == NoSuchKey
      ensures r.Ok? ==> NoDuplicates(r.value) && forall n :: n in r.value <==> n in names && names[n] == key
    {
      if key in idx {
        assert idx[key][0] in names;
        return Ok(idx[key]);
      }
      return Err(NoSuchKey);
    }

    method Get(name: string) returns (r: Result<string>)
      requires Valid()
      ensures r == if name in names then Ok(names[name]) else Err(NameNotReserved)
    {
      if name in names {
        return Ok(names[name]);
      }
      return Err(NameNotReserved);
    }
  }

  lemma DeleteKeepsInverse(after: map<string, string>, names: map<string, string>, idx: map<string, seq<string>>, key: string)
    requires Inverse(names, idx) && after == Without(names, if key in idx then idx[key] else [])
    ensures after == Deleted(names, key) && Inverse(after, idx - {key})
  {
  }
}
