/** The array searches the stores use: `findIndex`, and the first value
    recorded under a key, as `URLSearchParams.get` returns it. */
module Lists {
  import opened Wrappers

  /** `s.findIndex(p)`: the first index whose element satisfies `p`, or -1. */
  function FirstIndex<T>(s: seq<T>, p: T -> bool): (i: int)
    ensures -1 <= i < |s|
    ensures i == -1 <==> forall k :: 0 <= k < |s| ==> !p(s[k])
    ensures i >= 0 ==> p(s[i]) && forall k :: 0 <= k < i ==> !p(s[k])
    decreases |s|
  {
    if |s| == 0 then -1
    else if p(s[0]) then 0
    else
      var j := FirstIndex(s[1..], p);
      if j == -1 then -1 else j + 1
  }

  /** The scan `findIndex` performs. */
  method FindIndex<T>(s: seq<T>, p: T -> bool) returns (index: int)
    ensures index == FirstIndex(s, p)
  {
    index := 0;
    while index < |s|
      invariant 0 <= index <= |s|
      invariant forall k :: 0 <= k < index ==> !p(s[k])
    {
      if p(s[index]) {
        return;
      }
      index := index + 1;
    }
    index := -1;
  }

  /** `s` without the element at `i`, the rest kept in order (`splice(i, 1)`). */
  function RemoveAt<T>(s: seq<T>, i: nat): (r: seq<T>)
    requires i < |s|
    ensures |r| == |s| - 1
    ensures forall k :: 0 <= k < i ==> r[k] == s[k]
    ensures forall k :: i <= k < |r| ==> r[k] == s[k + 1]
  {
    s[..i] + s[i + 1..]
  }

  /** The value of the first pair with this key, as `URLSearchParams.get(key)`. */
  function Lookup<K(==), V>(pairs: seq<(K, V)>, key: K): Option<V>
    decreases |pairs|
  {
    if |pairs| == 0 then None
    else if pairs[0].0 == key then Some(pairs[0].1)
    else Lookup(pairs[1..], key)
  }

  /** `Lookup` finds nothing exactly when no pair has the key, and otherwise
      the value of the first pair that has it. */
  lemma {:induction false} LookupFindsFirst<K, V>(pairs: seq<(K, V)>, key: K)
    ensures Lookup(pairs, key).None? <==> NoKey(pairs, key)
    ensures Lookup(pairs, key).Some? ==>
      exists k :: 0 <= k < |pairs| && pairs[k] == (key, Lookup(pairs, key).value) && NoKey(pairs[..k], key)
    decreases |pairs|
  {
    if |pairs| > 0 {
      if pairs[0].0 == key {
        assert pairs[0] == (key, pairs[0].1);
        assert NoKey(pairs[..0], key);
      } else {
        LookupFindsFirst(pairs[1..], key);
        var r := Lookup(pairs, key);
        if r.Some? {
          var k :| 0 <= k < |pairs[1..]| && pairs[1..][k] == (key, r.value) && NoKey(pairs[1..][..k], key);
          assert pairs[k + 1] == (key, r.value);
          forall j | 0 <= j <= k ensures pairs[j].0 != key {
            if j > 0 {
              assert pairs[j] == pairs[1..][..k][j - 1];
            }
          }
        } else {
          forall j | 0 <= j < |pairs| ensures pairs[j].0 != key {
            if j > 0 {
              assert pairs[j] == pairs[1..][j - 1];
            }
          }
        }
      }
    }
  }

  /** A key missing from the front is looked up in the rest. */
  lemma {:induction false} LookupAppend<K, V>(front: seq<(K, V)>, back: seq<(K, V)>, key: K)
    requires NoKey(front, key)
    ensures Lookup(front + back, key) == Lookup(back, key)
    decreases |front|
  {
    if |front| > 0 {
      assert (front + back)[0] == front[0];
      assert (front + back)[1..] == front[1..] + back;
      LookupAppend(front[1..], back, key);
    } else {
      assert front + back == back;
    }
  }

  /** A key the front has is answered by the front, whatever follows. */
  lemma {:induction false} LookupFront<K, V>(front: seq<(K, V)>, back: seq<(K, V)>, key: K)
    requires Lookup(front, key).Some?
    ensures Lookup(front + back, key) == Lookup(front, key)
    decreases |front|
  {
    assert (front + back)[0] == front[0];
    if front[0].0 != key {
      assert (front + back)[1..] == front[1..] + back;
      LookupFront(front[1..], back, key);
    }
  }

  /** A query whose first pair has the key answers with that pair's value. */
  lemma LookupHead<K, V>(pairs: seq<(K, V)>, key: K)
    requires |pairs| > 0 && pairs[0].0 == key
    ensures Lookup(pairs, key) == Some(pairs[0].1)
  {
  }

  /** No pair of `pairs` has this key. */
  ghost predicate NoKey<K, V>(pairs: seq<(K, V)>, key: K) {
    forall k :: 0 <= k < |pairs| ==> pairs[k].0 != key
  }

  lemma NoKeyAppend<K, V>(a: seq<(K, V)>, b: seq<(K, V)>, key: K)
    ensures NoKey(a + b, key) <==> NoKey(a, key) && NoKey(b, key)
  {
    if NoKey(a, key) && NoKey(b, key) {
      forall k | 0 <= k < |a + b| ensures (a + b)[k].0 != key {
        if k >= |a| {
          assert (a + b)[k] == b[k - |a|];
        }
      }
    }
    if NoKey(a + b, key) {
      forall k | 0 <= k < |a| ensures a[k].0 != key {
        assert (a + b)[k] == a[k];
      }
      forall k | 0 <= k < |b| ensures b[k].0 != key {
        assert (a + b)[|a| + k] == b[k];
      }
    }
  }

  /** The only pair with the key, between pairs without it, is the one found. */
  lemma LookupBetween<K, V>(front: seq<(K, V)>, middle: seq<(K, V)>, back: seq<(K, V)>, key: K)
    requires NoKey(front, key) && NoKey(back, key)
    requires |middle| <= 1 && forall k :: 0 <= k < |middle| ==> middle[k].0 == key
    ensures Lookup(front + middle + back, key) == (if |middle| == 1 then Some(middle[0].1) else None)
  {
    assert front + middle + back == front + (middle + back);
    LookupAppend(front, middle + back, key);
    if |middle| == 1 {
      LookupHead(middle + back, key);
    } else {
      assert middle + back == back;
      LookupFindsFirst(back, key);
    }
  }
}
