/** JavaScript values as the hook sees them: plain JSON data whose objects
    keep their properties in insertion order. */
module Json {
  import opened Wrappers

  datatype Value =
    | Null
    | Bool(b: bool)
    | Num(n: int)
    | Str(s: string)
    | Arr(items: seq<Value>)
    | Obj(props: seq<(string, Value)>)

  /** An object's own properties, in enumeration order. */
  type Props = seq<(string, Value)>

  /** The empty object `{}`. */
  const Empty: Value := Obj([])

  /** The keys of a property list, in order (`Object.keys`). */
  function Keys<V>(t: seq<(string, V)>): seq<string> {
    seq(|t|, i requires 0 <= i < |t| => t[i].0)
  }

  /** Property lists of real objects never repeat a key. */
  predicate DistinctKeys<V>(t: seq<(string, V)>) {
    NoDuplicates(Keys(t))
  }

  predicate NoDuplicates<T(==)>(s: seq<T>) {
    forall i, j :: 0 <= i < j < |s| ==> s[i] != s[j]
  }

  /** `xs` is `ys` with some elements left out, the others kept in order. */
  predicate IsSubsequence<T(==)>(xs: seq<T>, ys: seq<T>) {
    if |ys| == 0 then |xs| == 0
    else
      (|xs| > 0 && xs[|xs| - 1] == ys[|ys| - 1] && IsSubsequence(xs[..|xs| - 1], ys[..|ys| - 1]))
      || IsSubsequence(xs, ys[..|ys| - 1])
  }

  lemma {:induction false} SubsequenceConsBoth<T>(x: T, xs: seq<T>, ys: seq<T>)
    requires IsSubsequence(xs, ys)
    ensures IsSubsequence([x] + xs, [x] + ys)
    decreases |ys|
  {
    var xs', ys' := [x] + xs, [x] + ys;
    if |ys| == 0 {
      assert xs' == [x] && ys' == [x];
      assert IsSubsequence(xs'[..0], ys'[..0]);
    } else {
      assert ys'[..|ys'| - 1] == [x] + ys[..|ys| - 1];
      if |xs| > 0 && xs[|xs| - 1] == ys[|ys| - 1] && IsSubsequence(xs[..|xs| - 1], ys[..|ys| - 1]) {
        SubsequenceConsBoth(x, xs[..|xs| - 1], ys[..|ys| - 1]);
        assert xs'[..|xs'| - 1] == [x] + xs[..|xs| - 1];
      } else {
        SubsequenceConsBoth(x, xs, ys[..|ys| - 1]);
      }
    }
  }

  lemma {:induction false} SubsequenceConsRight<T>(y: T, xs: seq<T>, ys: seq<T>)
    requires IsSubsequence(xs, ys)
    ensures IsSubsequence(xs, [y] + ys)
    decreases |ys|
  {
    var ys' := [y] + ys;
    if |ys| == 0 {
      assert xs == [];
      assert IsSubsequence(xs, ys'[..0]);
    } else {
      assert ys'[..|ys'| - 1] == [y] + ys[..|ys| - 1];
      if |xs| > 0 && xs[|xs| - 1] == ys[|ys| - 1] && IsSubsequence(xs[..|xs| - 1], ys[..|ys| - 1]) {
        SubsequenceConsRight(y, xs[..|xs| - 1], ys[..|ys| - 1]);
      } else {
        SubsequenceConsRight(y, xs, ys[..|ys| - 1]);
      }
    }
  }

  /** Property read `obj[k]`: `None` stands for `undefined`. */
  function Lookup<V>(t: seq<(string, V)>, k: string): (r: Option<V>)
    ensures r.None? <==> k !in Keys(t)
  {
    if |t| == 0 then None
    else if t[0].0 == k then assert Keys(t)[0] == k; Some(t[0].1)
    else
      assert Keys(t) == [t[0].0] + Keys(t[1..]);
      Lookup(t[1..], k)
  }

  /** The values of a property list, in order (`Object.values`). */
  function Values<V>(t: seq<(string, V)>): seq<V> {
    seq(|t|, i requires 0 <= i < |t| => t[i].1)
  }

  /** Property assignment `obj[k] = v`: an existing key keeps its place and
      takes the new value, a new key goes to the end. */
  function Put<V>(t: seq<(string, V)>, k: string, v: V): seq<(string, V)> {
    if |t| == 0 then [(k, v)]
    else if t[0].0 == k then [(k, v)] + t[1..]
    else [t[0]] + Put(t[1..], k, v)
  }

  /** After `obj[k] = v`, `obj[k]` is `v` and every other key reads as
      before. */
  lemma {:induction false} PutLookup<V>(t: seq<(string, V)>, k: string, v: V)
    ensures Lookup(Put(t, k, v), k) == Some(v)
    ensures forall k' :: k' != k ==> Lookup(Put(t, k, v), k') == Lookup(t, k')
  {
    if |t| > 0 && t[0].0 != k {
      PutLookup(t[1..], k, v);
      var r := Put(t, k, v);
      assert r[1..] == Put(t[1..], k, v);
    }
  }

  /** `obj[k] = v` leaves the key order alone when `k` exists and appends
      `k` otherwise, so keys stay distinct. */
  lemma {:induction false} PutKeys<V>(t: seq<(string, V)>, k: string, v: V)
    ensures k in Keys(t) ==> Keys(Put(t, k, v)) == Keys(t)
    ensures k !in Keys(t) ==> Keys(Put(t, k, v)) == Keys(t) + [k]
    ensures DistinctKeys(t) ==> DistinctKeys(Put(t, k, v))
  {
    var r := Put(t, k, v);
    if |t| == 0 {
    } else if t[0].0 == k {
      assert Keys(t)[0] == k;
      assert Keys(r) == Keys(t);
    } else {
      PutKeys(t[1..], k, v);
      assert Keys(t) == [t[0].0] + Keys(t[1..]);
      assert Keys(r) == [t[0].0] + Keys(Put(t[1..], k, v));
    }
  }

  /** `obj[k] = v` adds no value other than `v`. */
  lemma {:induction false} PutValues<V>(t: seq<(string, V)>, k: string, v: V)
    ensures forall x :: x in Values(Put(t, k, v)) ==> x == v || x in Values(t)
  {
    var r := Put(t, k, v);
    if |t| > 0 && t[0].0 != k {
      PutValues(t[1..], k, v);
      assert Values(t) == [t[0].1] + Values(t[1..]);
      assert Values(r) == [t[0].1] + Values(Put(t[1..], k, v));
    } else if |t| > 0 {
      assert Values(r) == [v] + Values(t)[1..];
    }
  }

  /** Assigning a key the object does not have appends it. */
  lemma {:induction false} PutNewKey<V>(t: seq<(string, V)>, k: string, v: V)
    requires k !in Keys(t)
    ensures Put(t, k, v) == t + [(k, v)]
  {
    if |t| > 0 {
      assert Keys(t) == [t[0].0] + Keys(t[1..]);
      PutNewKey(t[1..], k, v);
      assert t == [t[0]] + t[1..];
    }
  }
}
