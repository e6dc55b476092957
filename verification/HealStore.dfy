/**
 * Where pending records live: a list rewritten in a ConfigMap, or a map in memory.
 * `keyOf` is the record's controller key.
 */
module HealStore {

  function Without<R>(keyOf: R -> string, recs: seq<R>, key: string): seq<R> {
    if recs == [] then []
    else
      var before, last := Without(keyOf, recs[..|recs| - 1], key), recs[|recs| - 1];
      if keyOf(last) != key then before + [last] else before
  }

  function Upserted<R>(keyOf: R -> string, recs: seq<R>, rec: R): seq<R> {
    Without(keyOf, recs, keyOf(rec)) + [rec]
  }

  /** The record each key holds; a later one replaces an earlier one. */
  function ToMap<R>(keyOf: R -> string, recs: seq<R>): map<string, R> {
    if recs == [] then map[]
    else ToMap(keyOf, recs[..|recs| - 1])[keyOf(recs[|recs| - 1]) := recs[|recs| - 1]]
  }

  predicate OnePerKey<R>(keyOf: R -> string, recs: seq<R>) {
    forall i, j | 0 <= i < j < |recs| :: keyOf(recs[i]) != keyOf(recs[j])
  }

  lemma WithoutSnoc<R>(keyOf: R -> string, recs: seq<R>, i: nat, key: string)
    requires i < |recs|
    ensures Without(keyOf, recs[..i + 1], key)
         == Without(keyOf, recs[..i], key) + (if keyOf(recs[i]) != key then [recs[i]] else [])
  {
    assert recs[..i + 1][..i] == recs[..i];
  }

  lemma ToMapSnoc<R>(keyOf: R -> string, recs: seq<R>, rec: R)
    ensures ToMap(keyOf, recs + [rec]) == ToMap(keyOf, recs)[keyOf(rec) := rec]
  {
    assert (recs + [rec])[..|recs|] == recs;
  }

  /** Filters the first n records in place, reusing the list's own storage. */
  method RemoveInPlace<R>(keyOf: R -> string, recs: array<R>, n: nat, key: string) returns (m: nat)
    requires n <= recs.Length
    modifies recs
    ensures m <= n && recs[..m] == Without(keyOf, old(recs[..n]), key)
  {
    m := 0;
    ghost var was := recs[..n];
    for i := 0 to n
      invariant m <= i
      invariant recs[..m] == Without(keyOf, was[..i], key)
      invariant forall k | i <= k < n :: recs[k] == was[k]
    {
      WithoutSnoc(keyOf, was, i, key);
      var r := recs[i];
      if keyOf(r) != key {
        ghost var kept := recs[..m];
        recs[m] := r;
        m := m + 1;
        assert recs[..m] == kept + [r];
      }
    }
    assert was[..n] == was;
  }

  lemma {:induction false} ToMapFinds<R>(keyOf: R -> string, recs: seq<R>, i: nat)
    requires OnePerKey(keyOf, recs) && i < |recs|
    ensures keyOf(recs[i]) in ToMap(keyOf, recs) && ToMap(keyOf, recs)[keyOf(recs[i])] == recs[i]
  {
    if i < |recs| - 1 {
      ToMapFinds(keyOf, recs[..|recs| - 1], i);
    }
  }

  // ----- The two stores -----

  class MemStore<R> {
    const keyOf: R -> string
    var recs: map<string, R>

    constructor (keyOf: R -> string)
      ensures this.keyOf == keyOf && recs == map[]
    {
      this.keyOf := keyOf;
      recs := map[];
    }

    method Save(rec: R)
      modifies this`recs
      ensures recs == old(recs)[keyOf(rec) := rec]
    {
      recs := recs[keyOf(rec) := rec];
    }

    /** The records in some order, one for each key. */
    method List() returns (out: seq<R>)
      requires forall k | k in recs :: keyOf(recs[k]) == k
      ensures OnePerKey(keyOf, out) && ToMap(keyOf, out) == recs
      ensures forall i | 0 <= i < |out| :: keyOf(out[i]) in recs && recs[keyOf(out[i])] == out[i]
    {
      out := [];
      var left := recs.Keys;
      while left != {}
        invariant left <= recs.Keys
        invariant OnePerKey(keyOf, out)
        invariant forall i | 0 <= i < |out| ::
          keyOf(out[i]) in recs && keyOf(out[i]) !in left && recs[keyOf(out[i])] == out[i]
        invariant ToMap(keyOf, out) == map k | k in recs && k !in left :: recs[k]
      {
        var k :| k in left;
        left := left - {k};
        ToMapSnoc(keyOf, out, recs[k]);
        out := out + [recs[k]];
      }
    }

    method Delete(key: string)
      modifies this`recs
      ensures recs == old(recs) - {key}
    {
      recs := recs - {key};
    }
  }

  class ConfigMapStore<R> {
    const keyOf: R -> string
    /** The decoded contents of the ConfigMap's one data key. */
    var blob: seq<R>

    constructor (keyOf: R -> string)
      ensures this.keyOf == keyOf && blob == []
    {
      this.keyOf := keyOf;
      blob := [];
    }

    /** Read, modify, write; a failed read or write reports an error and changes nothing. */
    method Save(rec: R, readable: bool, writable: bool) returns (ok: bool)
      modifies this`blob
      ensures ok <==> readable && writable
      ensures blob == if ok then Upserted(keyOf, old(blob), rec) else old(blob)
    {
      if !readable {
        return false;
      }
      var loaded := blob;
      var recs := new R[|loaded|](i requires 0 <= i < |loaded| => loaded[i]);
      assert recs[..|loaded|] == loaded;
      var m := RemoveInPlace(keyOf, recs, |loaded|, keyOf(rec));
      if writable {
        blob := recs[..m] + [rec];
      }
      ok := writable;
    }

    method Delete(key: string, readable: bool, writable: bool) returns (ok: bool)
      modifies this`blob
      ensures ok <==> readable && writable
      ensures blob == if ok then Without(keyOf, old(blob), key) else old(blob)
    {
      if !readable {
        return false;
      }
      var loaded := blob;
      var recs := new R[|loaded|](i requires 0 <= i < |loaded| => loaded[i]);
      assert recs[..|loaded|] == loaded;
      var m := RemoveInPlace(keyOf, recs, |loaded|, key);
      if writable {
        blob := recs[..m];
      }
      ok := writable;
    }
  }

  // ----- The list behaves as the map -----

  datatype Op<R> = Save(rec: R) | Delete(key: string)

  function MapAfter<R>(keyOf: R -> string, ops: seq<Op<R>>): map<string, R> {
    if ops == [] then map[] else
      var before, op := MapAfter(keyOf, ops[..|ops| - 1]), ops[|ops| - 1];
      if op.Save? then before[keyOf(op.rec) := op.rec] else before - {op.key}
  }

  function ListAfter<R>(keyOf: R -> string, ops: seq<Op<R>>): seq<R> {
    if ops == [] then [] else
      var before, op := ListAfter(keyOf, ops[..|ops| - 1]), ops[|ops| - 1];
      if op.Save? then Upserted(keyOf, before, op.rec) else Without(keyOf, before, op.key)
  }

  lemma DropAfterPut<R>(m: map<string, R>, k: string, r: R, key: string)
    ensures m[k := r] - {key} == if k == key then m - {key} else (m - {key})[k := r]
  {
  }

  /** The map files every record under its own key. */
  lemma {:induction false} ToMapFiles<R>(keyOf: R -> string, recs: seq<R>)
    ensures forall k | k in ToMap(keyOf, recs) :: keyOf(ToMap(keyOf, recs)[k]) == k
  {
    if recs != [] {
      ToMapFiles(keyOf, recs[..|recs| - 1]);
    }
  }

  lemma {:induction false} WithoutDropsKey<R>(keyOf: R -> string, recs: seq<R>, key: string)
    ensures ToMap(keyOf, Without(keyOf, recs, key)) == ToMap(keyOf, recs) - {key}
  {
    if recs != [] {
      var before, last := recs[..|recs| - 1], recs[|recs| - 1];
      WithoutDropsKey(keyOf, before, key);
      ToMapSnoc(keyOf, Without(keyOf, before, key), last);
      DropAfterPut(ToMap(keyOf, before), keyOf(last), last, key);
    }
  }

  lemma {:induction false} WithoutKeepsOrder<R>(keyOf: R -> string, recs: seq<R>, key: string)
    ensures forall r | r in Without(keyOf, recs, key) :: r in recs && keyOf(r) != key
    ensures OnePerKey(keyOf, recs) ==> OnePerKey(keyOf, Without(keyOf, recs, key))
  {
    if recs != [] {
      var before, last := recs[..|recs| - 1], recs[|recs| - 1];
      WithoutKeepsOrder(keyOf, before, key);
      var kept := Without(keyOf, before, key);
      if OnePerKey(keyOf, recs) {
        forall i | 0 <= i < |kept|
          ensures keyOf(kept[i]) != keyOf(last)
        {
          assert kept[i] in before;
        }
      }
    }
  }

  /** Saving replaces the key's record and keeps one record a key. */
  lemma UpsertedSetsKey<R>(keyOf: R -> string, recs: seq<R>, rec: R)
    requires OnePerKey(keyOf, recs)
    ensures ToMap(keyOf, Upserted(keyOf, recs, rec)) == ToMap(keyOf, recs)[keyOf(rec) := rec]
    ensures OnePerKey(keyOf, Upserted(keyOf, recs, rec))
  {
    var kept := Without(keyOf, recs, keyOf(rec));
    WithoutDropsKey(keyOf, recs, keyOf(rec));
    WithoutKeepsOrder(keyOf, recs, keyOf(rec));
    ToMapSnoc(keyOf, kept, rec);
    forall i, j | 0 <= i < j < |kept + [rec]|
      ensures keyOf((kept + [rec])[i]) != keyOf((kept + [rec])[j])
    {
      assert kept[i] in kept;
    }
  }

  /** After any saves and deletes both stores hold the same record for every workload, and only one. */
  lemma {:induction false} StoresAgree<R>(keyOf: R -> string, ops: seq<Op<R>>)
    ensures ToMap(keyOf, ListAfter(keyOf, ops)) == MapAfter(keyOf, ops)
    ensures OnePerKey(keyOf, ListAfter(keyOf, ops))
  {
    if ops != [] {
      var before, op := ops[..|ops| - 1], ops[|ops| - 1];
      StoresAgree(keyOf, before);
      match op {
        case Save(rec) =>
          UpsertedSetsKey(keyOf, ListAfter(keyOf, before), rec);
        case Delete(key) =>
          WithoutDropsKey(keyOf, ListAfter(keyOf, before), key);
          WithoutKeepsOrder(keyOf, ListAfter(keyOf, before), key);
      }
    }
  }
}
