/** The JavaScript array operations the route handlers use (`filter`, `map`,
    `indexOf`, `find`, `splice(start, 1)`), written as functions on sequences,
    and a reference definition of "remove the first element with a given key"
    that the handlers' removals are proved against.

    Every lookup in the handlers compares one key of an element (a like's user,
    a comment's id or author, a user's email) with a value, so the lookups here
    take the key as a function `key: T -> K`. */
module Seqs {

  datatype Option<T> = None | Some(value: T)

  /** Some element of `s` has key `k`. */
  ghost predicate Occurs<T, K>(s: seq<T>, key: T -> K, k: K)
  {
    exists i :: 0 <= i < |s| && key(s[i]) == k
  }

  /** `i` is the position of the first element of `s` whose key is `k`. */
  ghost predicate IsFirst<T, K>(s: seq<T>, key: T -> K, k: K, i: int)
  {
    0 <= i < |s| && key(s[i]) == k && forall j :: 0 <= j < i ==> key(s[j]) != k
  }

  /** No two elements of `s` share a key. */
  ghost predicate KeysDistinct<T, K>(s: seq<T>, key: T -> K)
  {
    forall i, j :: 0 <= i < j < |s| ==> key(s[i]) != key(s[j])
  }

  /** `s.map(key)` */
  function Map<T, K>(s: seq<T>, key: T -> K): (r: seq<K>)
    ensures |r| == |s|
    ensures forall i :: 0 <= i < |s| ==> r[i] == key(s[i])
  {
    if s == [] then [] else [key(s[0])] + Map(s[1..], key)
  }

  /** `s.filter(x => key(x) === k)`: the elements with key `k`, in order. */
  function Filter<T, K(==)>(s: seq<T>, key: T -> K, k: K): (r: seq<T>)
    ensures |r| <= |s|
    ensures forall x :: x in r ==> x in s && key(x) == k
    ensures |r| == 0 <==> !Occurs(s, key, k)
  {
    if s == [] then []
    else if key(s[0]) == k then [s[0]] + Filter(s[1..], key, k)
    else
      var rest := Filter(s[1..], key, k);
      assert Occurs(s[1..], key, k) ==> Occurs(s, key, k);
      rest
  }

  /** `s.indexOf(x)`: the first position of `x` in `s`, or -1 when `x` is absent. */
  function IndexOf<K(==)>(s: seq<K>, x: K): (r: int)
    ensures -1 <= r < |s|
    ensures r == -1 <==> x !in s
    ensures 0 <= r ==> s[r] == x && forall j :: 0 <= j < r ==> s[j] != x
  {
    if s == [] then -1
    else if s[0] == x then 0
    else
      var r := IndexOf(s[1..], x);
      if r == -1 then -1 else r + 1
  }

  /** `s.find(x => key(x) === k)`: the first element with key `k`, if any. */
  function Find<T, K(==)>(s: seq<T>, key: T -> K, k: K): (r: Option<T>)
    ensures r.None? <==> !Occurs(s, key, k)
    ensures r.Some? ==> exists i :: IsFirst(s, key, k, i) && s[i] == r.value
  {
    if s == [] then None
    else if key(s[0]) == k then
      assert IsFirst(s, key, k, 0);
      Some(s[0])
    else
      var r := Find(s[1..], key, k);
      if r.Some? then
        assert forall i :: IsFirst(s[1..], key, k, i) ==> IsFirst(s, key, k, i + 1) && s[i + 1] == s[1..][i];
        r
      else
        assert !Occurs(s, key, k) by {
          forall i | 0 < i < |s| ensures key(s[i]) != k {
            assert s[1..][i - 1] == s[i];
          }
        }
        r
  }

  /** `s.splice(start, 1)` on the array `s`: the array left afterwards. As in
      JavaScript, a negative `start` counts from the end (and is clamped at 0),
      and a `start` at or past the end removes nothing. */
  function Splice<T>(s: seq<T>, start: int): (r: seq<T>)
    ensures 0 <= start < |s| ==> r == s[..start] + s[start + 1..]
    ensures -|s| <= start < |s| ==> |r| == |s| - 1
    ensures start >= |s| ==> r == s
    ensures start == -1 && s != [] ==> r == s[..|s| - 1]
  {
    var from :=
      if start < 0 then (if |s| + start < 0 then 0 else |s| + start)
      else if start > |s| then |s|
      else start;
    if from < |s| then s[..from] + s[from + 1..] else s
  }

  /** Reference definition: `s` without its first element whose key is `k`
      (all of `s` when there is none). */
  function RemoveFirst<T, K(==)>(s: seq<T>, key: T -> K, k: K): seq<T>
  {
    if s == [] then []
    else if key(s[0]) == k then s[1..]
    else [s[0]] + RemoveFirst(s[1..], key, k)
  }

  /** Removing the first match deletes exactly the element at the first
      matching position and keeps the others in order. */
  lemma {:induction false} RemoveFirstAt<T, K>(s: seq<T>, key: T -> K, k: K, i: int)
    requires IsFirst(s, key, k, i)
    ensures RemoveFirst(s, key, k) == s[..i] + s[i + 1..]
    ensures |RemoveFirst(s, key, k)| == |s| - 1
  {
    if i > 0 {
      assert IsFirst(s[1..], key, k, i - 1);
      RemoveFirstAt(s[1..], key, k, i - 1);
      assert s[1..][..i - 1] + s[1..][i..] == s[1..i] + s[i + 1..];
      assert [s[0]] + s[1..i] == s[..i];
    }
  }

  /** With no element keyed `k`, removal changes nothing. */
  lemma {:induction false} RemoveFirstAbsent<T, K>(s: seq<T>, key: T -> K, k: K)
    requires !Occurs(s, key, k)
    ensures RemoveFirst(s, key, k) == s
  {
    if s != [] {
      assert key(s[0]) != k;
      assert !Occurs(s[1..], key, k) by {
        forall i | 0 <= i < |s| - 1 ensures key(s[1..][i]) != k {
          assert s[1..][i] == s[i + 1];
        }
      }
      RemoveFirstAbsent(s[1..], key, k);
    }
  }

  /** Some element keyed `k` has a first position. */
  lemma FirstExists<T, K>(s: seq<T>, key: T -> K, k: K) returns (i: int)
    requires Occurs(s, key, k)
    ensures IsFirst(s, key, k, i)
  {
    var m := Map(s, key);
    i := IndexOf(m, k);
    assert k in m;
  }

  /** The handlers' removal idiom `s.splice(s.map(key).indexOf(k), 1)`, once a
      presence check has passed, removes exactly the first element keyed `k`:
      the index it computes is never the -1 that would make `splice` drop the
      last element. */
  lemma SpliceAtIndexOf<T, K>(s: seq<T>, key: T -> K, k: K)
    requires Occurs(s, key, k)
    ensures 0 <= IndexOf(Map(s, key), k) < |s|
    ensures IsFirst(s, key, k, IndexOf(Map(s, key), k))
    ensures Splice(s, IndexOf(Map(s, key), k)) == RemoveFirst(s, key, k)
  {
    var m := Map(s, key);
    assert k in m by {
      var i :| 0 <= i < |s| && key(s[i]) == k;
      assert m[i] == k;
    }
    var i := IndexOf(m, k);
    assert IsFirst(s, key, k, i);
    RemoveFirstAt(s, key, k, i);
  }

  /** Distinct keys stay distinct when one element is removed, and then no
      element keyed `k` is left. */
  lemma RemoveFirstKeepsDistinct<T, K>(s: seq<T>, key: T -> K, k: K)
    requires KeysDistinct(s, key)
    ensures KeysDistinct(RemoveFirst(s, key, k), key)
    ensures !Occurs(RemoveFirst(s, key, k), key, k)
  {
    if Occurs(s, key, k) {
      var i := FirstExists(s, key, k);
      RemoveFirstAt(s, key, k, i);
      var r := RemoveFirst(s, key, k);
      forall a | 0 <= a < |r| ensures r[a] == s[if a < i then a else a + 1] {
      }
    } else {
      RemoveFirstAbsent(s, key, k);
    }
  }

  /** Removing the element at `i` keeps keys distinct. */
  lemma RemoveAtKeepsDistinct<T, K>(s: seq<T>, key: T -> K, i: int)
    requires 0 <= i < |s|
    requires KeysDistinct(s, key)
    ensures KeysDistinct(s[..i] + s[i + 1..], key)
  {
    var r := s[..i] + s[i + 1..];
    forall a | 0 <= a < |r| ensures r[a] == s[if a < i then a else a + 1] {
    }
  }

  /** Putting an element with a new key in front keeps keys distinct. */
  lemma PrependFreshKeepsDistinct<T, K>(x: T, s: seq<T>, key: T -> K)
    requires KeysDistinct(s, key)
    requires !Occurs(s, key, key(x))
    ensures KeysDistinct([x] + s, key)
  {
    var t := [x] + s;
    forall i, j | 0 <= i < j < |t| ensures key(t[i]) != key(t[j]) {
      assert t[j] == s[j - 1];
      if i > 0 {
        assert t[i] == s[i - 1];
      }
    }
  }

  /** Appending an element with a new key at the end keeps keys distinct. */
  lemma AppendFreshKeepsDistinct<T, K>(s: seq<T>, x: T, key: T -> K)
    requires KeysDistinct(s, key)
    requires !Occurs(s, key, key(x))
    ensures KeysDistinct(s + [x], key)
  {
    var t := s + [x];
    forall i, j | 0 <= i < j < |t| ensures key(t[i]) != key(t[j]) {
      assert t[i] == s[i];
      if j < |s| {
        assert t[j] == s[j];
      }
    }
  }
}
