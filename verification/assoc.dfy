/** Ordered association lists: the model of a JavaScript object whose own
    enumerable properties are visited in insertion order. Assigning to a
    property that exists keeps its position; assigning to a new one appends. */
module Assoc {

  datatype Option<+T> = None | Some(value: T)

  /** The keys of an association list, in order. */
  function Keys<V>(m: seq<(string, V)>): (ks: seq<string>)
    ensures |ks| == |m|
    ensures forall i :: 0 <= i < |m| ==> ks[i] == m[i].0
  {
    if |m| == 0 then [] else [m[0].0] + Keys(m[1..])
  }

  lemma KeysConcat<V>(a: seq<(string, V)>, b: seq<(string, V)>)
    ensures Keys(a + b) == Keys(a) + Keys(b)
  {
  }

  /** No key occurs twice. */
  predicate Distinct(ks: seq<string>)
  {
    forall i, j :: 0 <= i < j < |ks| ==> ks[i] != ks[j]
  }

  /** Property read `m[k]`: the value of the first entry with key `k`. */
  function Lookup<V>(m: seq<(string, V)>, k: string): (r: Option<V>)
    ensures r.None? <==> k !in Keys(m)
    ensures r.Some? ==> (k, r.value) in m
  {
    if |m| == 0 then None
    else if m[0].0 == k then Some(m[0].1)
    else Lookup(m[1..], k)
  }

  /** The key list after assigning to `k`: unchanged when `k` is present,
      otherwise `k` appended. */
  function AddKey(ks: seq<string>, k: string): seq<string>
  {
    if k in ks then ks else ks + [k]
  }

  /** Keys after assigning to every key of `ns` in turn: the first-seen order. */
  function AddAll(ks: seq<string>, ns: seq<string>): (r: seq<string>)
    decreases |ns|
  {
    if |ns| == 0 then ks else AddAll(AddKey(ks, ns[0]), ns[1..])
  }

  /** Property assignment `m[k] = v`: the value of an existing key is
      replaced where it stands, a new key is appended. */
  function Put<V>(m: seq<(string, V)>, k: string, v: V): (r: seq<(string, V)>)
    ensures Lookup(r, k) == Some(v)
    ensures forall j :: j != k ==> Lookup(r, j) == Lookup(m, j)
    ensures Keys(r) == AddKey(Keys(m), k)
    ensures forall p :: p in r ==> p in m || p == (k, v)
  {
    AssignLookup(m, k, v);
    AssignKeys(m, k, v);
    AssignMembers(m, k, v);
    assert forall j :: j != k ==> Lookup(Assign(m, k, v), j) == Lookup(m, j) by {
      forall j | j != k {
        AssignOther(m, k, v, j);
      }
    }
    Assign(m, k, v)
  }

  /** The recursion behind `Put`. */
  function Assign<V>(m: seq<(string, V)>, k: string, v: V): seq<(string, V)>
  {
    if |m| == 0 then [(k, v)]
    else if m[0].0 == k then [(k, v)] + m[1..]
    else [m[0]] + Assign(m[1..], k, v)
  }

  lemma {:induction false} AssignLookup<V>(m: seq<(string, V)>, k: string, v: V)
    ensures Lookup(Assign(m, k, v), k) == Some(v)
  {
    if |m| > 0 && m[0].0 != k {
      var r := Assign(m, k, v);
      assert r[1..] == Assign(m[1..], k, v);
      AssignLookup(m[1..], k, v);
    }
  }

  lemma {:induction false} AssignOther<V>(m: seq<(string, V)>, k: string, v: V, j: string)
    requires j != k
    ensures Lookup(Assign(m, k, v), j) == Lookup(m, j)
  {
    if |m| > 0 {
      var r := Assign(m, k, v);
      assert r[1..] == if m[0].0 == k then m[1..] else Assign(m[1..], k, v);
      AssignOther(m[1..], k, v, j);
    }
  }

  lemma {:induction false} AssignKeys<V>(m: seq<(string, V)>, k: string, v: V)
    ensures Keys(Assign(m, k, v)) == AddKey(Keys(m), k)
  {
    if |m| > 0 && m[0].0 != k {
      var r := Assign(m, k, v);
      assert r[1..] == Assign(m[1..], k, v);
      AssignKeys(m[1..], k, v);
      assert Keys(m) == [m[0].0] + Keys(m[1..]);
      assert Keys(r) == [m[0].0] + Keys(r[1..]);
    } else if |m| > 0 {
      assert Keys(Assign(m, k, v)) == Keys(m);
    }
  }

  lemma {:induction false} AssignMembers<V>(m: seq<(string, V)>, k: string, v: V)
    ensures forall p :: p in Assign(m, k, v) ==> p in m || p == (k, v)
  {
    if |m| > 0 && m[0].0 != k {
      AssignMembers(m[1..], k, v);
    }
  }

  lemma {:induction false} AddAllMembers(ks: seq<string>, ns: seq<string>)
    ensures forall x :: x in AddAll(ks, ns) <==> x in ks || x in ns
    decreases |ns|
  {
    if |ns| > 0 {
      AddAllMembers(AddKey(ks, ns[0]), ns[1..]);
      assert ns == [ns[0]] + ns[1..];
    }
  }

  lemma {:induction false} AddAllDistinct(ks: seq<string>, ns: seq<string>)
    requires Distinct(ks)
    ensures Distinct(AddAll(ks, ns))
    decreases |ns|
  {
    if |ns| > 0 {
      AddAllDistinct(AddKey(ks, ns[0]), ns[1..]);
    }
  }

  lemma {:induction false} AddAllPrefix(ks: seq<string>, ns: seq<string>)
    ensures ks <= AddAll(ks, ns)
    decreases |ns|
  {
    if |ns| > 0 {
      AddAllPrefix(AddKey(ks, ns[0]), ns[1..]);
    }
  }

  lemma {:induction false} AddAllConcat(ks: seq<string>, a: seq<string>, b: seq<string>)
    ensures AddAll(ks, a + b) == AddAll(AddAll(ks, a), b)
    decreases |a|
  {
    if |a| > 0 {
      assert (a + b)[1..] == a[1..] + b;
      AddAllConcat(AddKey(ks, a[0]), a[1..], b);
    } else {
      assert a + b == b;
    }
  }

  /** Assigning keeps the keys free of repetitions. */
  lemma PutDistinct<V>(m: seq<(string, V)>, k: string, v: V)
    requires Distinct(Keys(m))
    ensures Distinct(Keys(Put(m, k, v)))
  {
  }
}
