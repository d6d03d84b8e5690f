/** A JavaScript plain object as the pages use it: string keys in
    `Object.keys` order (insertion order), lookup by key, and assignment
    `o[k] = v`, which overwrites in place when the key is present and appends
    a new key otherwise. */
module JsObject {
  import opened Wrappers

  type Obj<V> = seq<(string, V)>

  /** `Object.keys(o)`. */
  function Keys<V>(o: Obj<V>): (ks: seq<string>)
    ensures |ks| == |o|
    ensures forall i :: 0 <= i < |o| ==> ks[i] == o[i].0
  {
    seq(|o|, i requires 0 <= i < |o| => o[i].0)
  }

  predicate HasKey<V>(o: Obj<V>, k: string) {
    exists i :: 0 <= i < |o| && o[i].0 == k
  }

  /** No key appears twice, as in every JavaScript object. */
  predicate UniqueKeys<V>(o: Obj<V>) {
    forall i, j :: 0 <= i < j < |o| ==> o[i].0 != o[j].0
  }

  /** `o[k]`, with `None` for `undefined`. */
  function Get<V>(o: Obj<V>, k: string): (r: Option<V>)
    ensures r.None? <==> !HasKey(o, k)
    ensures r.Some? ==> exists i :: 0 <= i < |o| && o[i] == (k, r.value)
    decreases |o|
  {
    if o == [] then None
    else if o[0].0 == k then Some(o[0].1)
    else
      assert HasKey(o[1..], k) ==> HasKey(o, k) by {
        if HasKey(o[1..], k) {
          var i :| 0 <= i < |o[1..]| && o[1..][i].0 == k;
          assert o[i + 1].0 == k;
        }
      }
      var r := Get(o[1..], k);
      assert r.Some? ==> exists i :: 1 <= i < |o| && o[i] == (k, r.value) by {
        if r.Some? {
          var i :| 0 <= i < |o[1..]| && o[1..][i] == (k, r.value);
          assert o[i + 1] == (k, r.value);
        }
      }
      r
  }

  /** In an object without repeated keys, `Get` finds the value stored at each position. */
  lemma {:induction false} GetAt<V>(o: Obj<V>, i: nat)
    requires UniqueKeys(o) && i < |o|
    ensures Get(o, o[i].0) == Some(o[i].1)
    decreases |o|
  {
    if i > 0 {
      GetAt(o[1..], i - 1);
    }
  }

  /** `o[k] = v`. */
  function Put<V>(o: Obj<V>, k: string, v: V): (r: Obj<V>)
    ensures Get(r, k) == Some(v)
    ensures forall k' :: k' != k ==> Get(r, k') == Get(o, k')
    ensures HasKey(o, k) ==> Keys(r) == Keys(o)
    ensures !HasKey(o, k) ==> r == o + [(k, v)]
    decreases |o|
  {
    if o == [] then [(k, v)]
    else if o[0].0 == k then [(k, v)] + o[1..]
    else
      var rest := Put(o[1..], k, v);
      ConsGet(o, rest, k, v);
      ConsKeys(o, k, rest);
      ConsAppend(o, rest, (k, v));
      [o[0]] + rest
  }

  /** Lookups in `[o[0]] + rest` past a head that is not `k` agree with `o`
      wherever `rest` agrees with `o[1..]`. */
  lemma ConsGet<V>(o: Obj<V>, rest: Obj<V>, k: string, v: V)
    requires o != [] && o[0].0 != k
    requires Get(rest, k) == Some(v)
    requires forall k' :: k' != k ==> Get(rest, k') == Get(o[1..], k')
    ensures Get([o[0]] + rest, k) == Some(v)
    ensures forall k' :: k' != k ==> Get([o[0]] + rest, k') == Get(o, k')
  {
    assert ([o[0]] + rest)[1..] == rest;
  }

  /** A key present in `o` past a head that is not `k` is present in `o[1..]`,
      and keeping the keys of `o[1..]` keeps those of `o`. */
  lemma ConsKeys<V>(o: Obj<V>, k: string, rest: Obj<V>)
    requires o != [] && o[0].0 != k
    requires HasKey(o[1..], k) ==> Keys(rest) == Keys(o[1..])
    ensures HasKey(o, k) ==> Keys([o[0]] + rest) == Keys(o)
  {
    if HasKey(o, k) {
      var i :| 0 <= i < |o| && o[i].0 == k;
      assert o[1..][i - 1].0 == k;
      var r := [o[0]] + rest;
      assert forall j :: 1 <= j < |o| ==> r[j] == rest[j - 1];
    }
  }

  /** Appending past the head: `[o[0]] + (o[1..] + [p]) == o + [p]`. */
  lemma ConsAppend<V>(o: Obj<V>, rest: Obj<V>, p: (string, V))
    requires o != []
    requires !HasKey(o[1..], p.0) && !HasKey(o, p.0) ==> rest == o[1..] + [p]
    ensures !HasKey(o, p.0) ==> [o[0]] + rest == o + [p]
  {
    if !HasKey(o, p.0) {
      assert o == [o[0]] + o[1..];
    }
  }

  /** Assignment never introduces a repeated key. */
  lemma PutKeepsKeysUnique<V>(o: Obj<V>, k: string, v: V)
    requires UniqueKeys(o)
    ensures UniqueKeys(Put(o, k, v))
  {
    var r := Put(o, k, v);
    if HasKey(o, k) {
      assert forall i :: 0 <= i < |r| ==> r[i].0 == Keys(r)[i] == Keys(o)[i];
    } else {
      forall i, j | 0 <= i < j < |r| ensures r[i].0 != r[j].0 {
        if j == |o| {
          assert r[i] == o[i];
        }
      }
    }
  }

  /** The object built by assigning the pairs in order, as a `reduce` or
      `forEach` that writes `acc[k] = v` into a fresh `{}` does. */
  function FromPairs<V>(ps: seq<(string, V)>): (o: Obj<V>)
    ensures UniqueKeys(o)
    decreases |ps|
  {
    if ps == [] then []
    else
      var prev := FromPairs(ps[..|ps| - 1]);
      PutKeepsKeysUnique(prev, ps[|ps| - 1].0, ps[|ps| - 1].1);
      Put(prev, ps[|ps| - 1].0, ps[|ps| - 1].1)
  }

  /** One more assignment: the object built from the first `i + 1` pairs is
      the one built from the first `i` with pair `i` assigned. */
  lemma FromPairsSnoc<V>(ps: seq<(string, V)>, i: nat)
    requires i < |ps|
    ensures FromPairs(ps[..i + 1]) == Put(FromPairs(ps[..i]), ps[i].0, ps[i].1)
  {
    assert ps[..i + 1][..i] == ps[..i];
  }

  /** A key holds the value of its last assignment. */
  lemma {:induction false} FromPairsGet<V>(ps: seq<(string, V)>, i: nat)
    requires i < |ps|
    requires forall j :: i < j < |ps| ==> ps[j].0 != ps[i].0
    ensures Get(FromPairs(ps), ps[i].0) == Some(ps[i].1)
    decreases |ps|
  {
    if i < |ps| - 1 {
      FromPairsGet(ps[..|ps| - 1], i);
    }
  }

  /** A key never assigned is absent. */
  lemma {:induction false} FromPairsMissing<V>(ps: seq<(string, V)>, k: string)
    requires forall j :: 0 <= j < |ps| ==> ps[j].0 != k
    ensures Get(FromPairs(ps), k) == None
    decreases |ps|
  {
    if ps != [] {
      FromPairsMissing(ps[..|ps| - 1], k);
    }
  }

  /** The object has a key exactly when some pair assigns it. */
  lemma FromPairsHasKey<V>(ps: seq<(string, V)>, k: string)
    ensures HasKey(FromPairs(ps), k) <==> exists i :: 0 <= i < |ps| && ps[i].0 == k
  {
    if i :| 0 <= i < |ps| && ps[i].0 == k {
      var last := LastAssignment(ps, k, i);
      FromPairsGet(ps, last);
    } else {
      FromPairsMissing(ps, k);
    }
  }

  /** The last position at or after `i` that assigns `k`. */
  lemma {:induction false} LastAssignment<V>(ps: seq<(string, V)>, k: string, i: nat) returns (last: nat)
    requires i < |ps| && ps[i].0 == k
    ensures i <= last < |ps| && ps[last].0 == k
    ensures forall j :: last < j < |ps| ==> ps[j].0 != k
    decreases |ps| - i
  {
    if j :| i < j < |ps| && ps[j].0 == k {
      last := LastAssignment(ps, k, j);
    } else {
      last := i;
    }
  }

  /** With distinct keys, the object holds exactly the pairs, in order. */
  lemma {:induction false} FromPairsDistinct<V>(ps: seq<(string, V)>)
    requires UniqueKeys(ps)
    ensures FromPairs(ps) == ps
    decreases |ps|
  {
    if ps != [] {
      var init := ps[..|ps| - 1];
      var last := ps[|ps| - 1];
      assert forall j :: 0 <= j < |init| ==> init[j] == ps[j];
      assert UniqueKeys(init);
      FromPairsDistinct(init);
      assert forall j :: 0 <= j < |init| ==> init[j].0 != last.0;
      assert !HasKey(init, last.0);
      assert Put(init, last.0, last.1) == init + [last];
      InitLast(ps);
    }
  }

  lemma InitLast<T>(s: seq<T>)
    requires |s| > 0
    ensures s[..|s| - 1] + [s[|s| - 1]] == s
  {
  }
}
