/**
 * Objects as ordered association lists. A JavaScript object's own string keys are
 * enumerated in insertion order; assigning to a key that exists keeps its position,
 * assigning to a new key appends it.
 */
module Params {
  import opened Js

  type Assoc<V> = seq<(string, V)>

  /** The request parameters a caller passes. */
  type Params = Assoc<Value>

  function Keys<V>(ps: Assoc<V>): seq<string>
  {
    if ps == [] then [] else [ps[0].0] + Keys(ps[1..])
  }

  predicate DistinctKeys<V>(ps: Assoc<V>)
  {
    forall i, j :: 0 <= i < j < |ps| ==> ps[i].0 != ps[j].0
  }

  /** `obj[k]`: the value of the first entry with key `k`. */
  function Lookup<V>(ps: Assoc<V>, k: string): Option<V>
  {
    if ps == [] then None else if ps[0].0 == k then Some(ps[0].1) else Lookup(ps[1..], k)
  }

  /** `obj[k] = v`. */
  function SetKey<V>(ps: Assoc<V>, k: string, v: V): (r: Assoc<V>)
    ensures Lookup(r, k) == Some(v)
    ensures forall j {:trigger Lookup(r, j)} :: j != k ==> Lookup(r, j) == Lookup(ps, j)
    ensures Keys(r) == if Lookup(ps, k).Some? then Keys(ps) else Keys(ps) + [k]
    ensures DistinctKeys(ps) ==> DistinctKeys(r)
  {
    if ps == [] then [(k, v)]
    else if ps[0].0 == k then [(k, v)] + ps[1..]
    else
      var rest := SetKey(ps[1..], k, v);
      KeysLookup(ps[1..], k);
      KeysLookup(ps[1..], ps[0].0);
      KeysLookup(rest, ps[0].0);
      assert DistinctKeys(ps) ==> Lookup(ps[1..], ps[0].0).None? && DistinctKeys(ps[1..]) by {
        if DistinctKeys(ps) { DistinctTail(ps); }
      }
      assert DistinctKeys(ps) ==> DistinctKeys([ps[0]] + rest) by {
        if DistinctKeys(ps) { DistinctCons(ps[0], rest); }
      }
      [ps[0]] + rest
  }

  lemma {:induction false} KeysLookup<V>(ps: Assoc<V>, k: string)
    ensures |Keys(ps)| == |ps|
    ensures forall i :: 0 <= i < |ps| ==> Keys(ps)[i] == ps[i].0
    ensures k in Keys(ps) <==> Lookup(ps, k).Some?
  {
    if ps != [] {
      KeysLookup(ps[1..], k);
    }
  }

  /** The tail of an object is an object that lacks the head's key. */
  lemma DistinctTail<V>(ps: Assoc<V>)
    requires ps != [] && DistinctKeys(ps)
    ensures DistinctKeys(ps[1..]) && Lookup(ps[1..], ps[0].0).None?
  {
    forall a, b | 0 <= a < b < |ps[1..]| ensures ps[1..][a].0 != ps[1..][b].0 {
      assert ps[1..][a] == ps[a + 1] && ps[1..][b] == ps[b + 1];
    }
    LookupMissing(ps[1..], ps[0].0);
  }

  /** A key no entry carries is not found. */
  lemma {:induction false} LookupMissing<V>(ps: Assoc<V>, k: string)
    requires forall i :: 0 <= i < |ps| ==> ps[i].0 != k
    ensures Lookup(ps, k).None?
  {
    if ps != [] {
      assert forall i :: 0 <= i < |ps[1..]| ==> ps[1..][i] == ps[i + 1];
      LookupMissing(ps[1..], k);
    }
  }

  /** Putting an entry with a key the rest lacks in front keeps the keys distinct. */
  lemma DistinctCons<V>(e: (string, V), rest: Assoc<V>)
    requires DistinctKeys(rest) && Lookup(rest, e.0).None?
    ensures DistinctKeys([e] + rest)
  {
    var s := [e] + rest;
    forall i, j | 0 <= i < j < |s| ensures s[i].0 != s[j].0 {
      if i == 0 {
        assert s[j] == rest[j - 1];
        if rest[j - 1].0 == e.0 {
          LookupAt(rest, j - 1);
        }
      } else {
        assert s[i] == rest[i - 1] && s[j] == rest[j - 1];
      }
    }
  }

  /** A key that stands at some index is found by Lookup. */
  lemma {:induction false} LookupAt<V>(ps: Assoc<V>, i: nat)
    requires i < |ps|
    ensures Lookup(ps, ps[i].0).Some?
    ensures DistinctKeys(ps) ==> Lookup(ps, ps[i].0) == Some(ps[i].1)
  {
    if i > 0 && ps[0].0 != ps[i].0 {
      assert ps[1..][i - 1] == ps[i];
      LookupAt(ps[1..], i - 1);
      assert DistinctKeys(ps) ==> DistinctKeys(ps[1..]) by {
        if DistinctKeys(ps) { DistinctTail(ps); }
      }
    }
  }

  /**
   * Assignment works in place: on an object (distinct keys) only the entry of key `k`
   * changes, and a missing key is appended at the end.
   */
  lemma {:induction false} SetKeyInPlace<V>(ps: Assoc<V>, k: string, v: V)
    requires DistinctKeys(ps)
    ensures Lookup(ps, k).None? ==> SetKey(ps, k, v) == ps + [(k, v)]
    ensures Lookup(ps, k).Some? ==> |SetKey(ps, k, v)| == |ps|
    ensures forall i :: 0 <= i < |ps| ==>
      SetKey(ps, k, v)[i] == if ps[i].0 == k then (k, v) else ps[i]
  {
    if ps != [] && ps[0].0 != k {
      DistinctTail(ps);
      SetKeyInPlace(ps[1..], k, v);
      assert ps == [ps[0]] + ps[1..];
    } else if ps != [] {
      forall i | 0 < i < |ps| ensures ps[i].0 != k {
      }
    }
  }

  /** A caller's parameter object, which `request` mutates. */
  class ParamObject {
    var entries: Params

    ghost predicate Valid()
      reads this
    {
      DistinctKeys(entries)
    }

    constructor (entries: Params)
      requires DistinctKeys(entries)
      ensures Valid() && this.entries == entries
    {
      this.entries := entries;
    }

    /** `obj[key] = v` */
    method Put(key: string, v: Value)
      requires Valid()
      modifies this
      ensures Valid() && entries == SetKey(old(entries), key, v)
    {
      entries := SetKey(entries, key, v);
    }
  }
}
