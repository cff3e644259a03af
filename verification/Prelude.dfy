/** Helpers shared by every module: optional values, Python's list operations and Python's
    insertion-ordered dictionary. */
module Prelude {

  datatype Option<+T> = None | Some(value: T)

  function Max(a: int, b: int): int {
    if a >= b then a else b
  }

  function Min(a: int, b: int): int {
    if a <= b then a else b
  }

  // ----- lists -----

  ghost predicate NoDup<T>(s: seq<T>) {
    s == [] || (s[0] !in s[1..] && NoDup(s[1..]))
  }

  lemma {:induction false} NoDupCounts<T>(s: seq<T>, x: T)
    requires NoDup(s)
    ensures multiset(s)[x] == if x in s then 1 else 0
  {
    if s != [] {
      assert s == [s[0]] + s[1..];
      NoDupCounts(s[1..], x);
    }
  }

  lemma {:induction false} NoDupPrefix<T>(s: seq<T>, n: nat)
    requires NoDup(s) && n <= |s|
    ensures NoDup(s[..n])
  {
    if n > 0 {
      assert s[..n][1..] == s[1..][..n - 1];
      NoDupPrefix(s[1..], n - 1);
    }
  }

  lemma {:induction false} NoDupAppend<T>(s: seq<T>, x: T)
    ensures NoDup(s + [x]) <==> NoDup(s) && x !in s
  {
    if s != [] {
      assert (s + [x])[1..] == s[1..] + [x];
      NoDupAppend(s[1..], x);
      assert x in s[1..] + [x];
    }
  }

  function Elements<T(==)>(s: seq<T>): set<T> {
    set x | x in s
  }

  /** A list comprehension with a condition: the elements that satisfy `p`, in order. */
  function Filter<T(!new)>(s: seq<T>, p: T -> bool): (r: seq<T>)
    ensures |r| <= |s|
    ensures forall x :: x in r <==> x in s && p(x)
  {
    if s == [] then []
    else if p(s[0]) then [s[0]] + Filter(s[1..], p)
    else Filter(s[1..], p)
  }

  lemma {:induction false} FilterIdentity<T(!new)>(s: seq<T>, p: T -> bool)
    requires forall x :: x in s ==> p(x)
    ensures Filter(s, p) == s
  {
    if s != [] {
      FilterIdentity(s[1..], p);
    }
  }

  lemma {:induction false} FilterSame<T(!new)>(s: seq<T>, p: T -> bool, q: T -> bool)
    requires forall x :: x in s ==> p(x) == q(x)
    ensures Filter(s, p) == Filter(s, q)
  {
    if s != [] {
      FilterSame(s[1..], p, q);
    }
  }

  /** Filtering in two rounds, when the second round decides as `r` does on what it sees. */
  lemma {:induction false} FilterWithin<T(!new)>(s: seq<T>, p: T -> bool, q: T -> bool, r: T -> bool)
    requires forall x :: x in s ==> r(x) == (p(x) && q(x))
    ensures Filter(Filter(s, p), q) == Filter(s, r)
  {
    if s != [] {
      FilterWithin(s[1..], p, q, r);
    }
  }

  lemma {:induction false} FilterNoDup<T(!new)>(s: seq<T>, p: T -> bool)
    requires NoDup(s)
    ensures NoDup(Filter(s, p))
  {
    if s != [] {
      FilterNoDup(s[1..], p);
    }
  }

  /** The first `x` is followed by a `y`. */
  ghost predicate Before<T>(s: seq<T>, x: T, y: T) {
    s != [] && (if s[0] == x then y in s[1..] else Before(s[1..], x, y))
  }

  lemma {:induction false} BeforeMembers<T>(s: seq<T>, x: T, y: T)
    requires Before(s, x, y)
    ensures x in s && y in s
    ensures NoDup(s) ==> x != y
  {
    if s[0] != x {
      BeforeMembers(s[1..], x, y);
    }
  }

  lemma {:induction false} BeforeAppend<T>(s: seq<T>, x: T, y: T, z: T)
    ensures Before(s, x, y) ==> Before(s + [z], x, y)
    ensures x in s ==> Before(s + [z], x, z)
  {
    if s != [] {
      assert (s + [z])[1..] == s[1..] + [z];
      BeforeAppend(s[1..], x, y, z);
    }
  }

  lemma {:induction false} FilterKeepsOrder<T(!new)>(s: seq<T>, p: T -> bool, x: T, y: T)
    requires Before(s, x, y) && p(x) && p(y)
    ensures Before(Filter(s, p), x, y)
  {
    if s[0] != x {
      FilterKeepsOrder(s[1..], p, x, y);
    }
  }

  /** Where `x` first occurs. */
  function Pos<T(==)>(s: seq<T>, x: T): (i: nat)
    requires x in s
    ensures i < |s| && s[i] == x
  {
    if s[0] == x then 0 else 1 + Pos(s[1..], x)
  }

  lemma {:induction false} BeforeIsPos<T>(s: seq<T>, x: T, y: T)
    requires NoDup(s) && Before(s, x, y)
    ensures x in s && y in s && Pos(s, x) < Pos(s, y)
  {
    if s[0] != x {
      BeforeIsPos(s[1..], x, y);
    }
  }

  /** `list.remove(x)`: the first element equal to `x` goes; a list without `x` is returned
      unchanged (callers that can raise test membership first). */
  function Remove<T(==, !new)>(s: seq<T>, x: T): (r: seq<T>)
    ensures x !in s ==> r == s
    ensures forall y :: y in r ==> y in s
    ensures forall y :: y in s && y != x ==> y in r
  {
    if s == [] then []
    else if s[0] == x then s[1..]
    else [s[0]] + Remove(s[1..], x)
  }

  lemma {:induction false} RemoveLength<T(!new)>(s: seq<T>, x: T)
    ensures |Remove(s, x)| == if x in s then |s| - 1 else |s|
  {
    if s != [] {
      RemoveLength(s[1..], x);
    }
  }

  lemma {:induction false} RemoveNoDup<T(!new)>(s: seq<T>, x: T)
    requires NoDup(s)
    ensures NoDup(Remove(s, x))
    ensures forall y :: y in Remove(s, x) <==> y in s && y != x
  {
    if s != [] && s[0] != x {
      RemoveNoDup(s[1..], x);
    }
  }

  lemma {:induction false} RemoveIsFilter<T(!new)>(s: seq<T>, x: T, p: T -> bool)
    requires NoDup(s)
    requires forall y :: y in s ==> p(y) == (y != x)
    ensures Remove(s, x) == Filter(s, p)
  {
    if s != [] {
      if s[0] == x {
        FilterIdentity(s[1..], p);
      } else {
        RemoveIsFilter(s[1..], x, p);
      }
    }
  }

  // ----- dictionaries -----

  /** A Python dict: the keys in insertion order, and what each key maps to. */
  datatype Dict<K(==, !new), +V> = Dict(keys: seq<K>, at: map<K, V>) {

    ghost predicate Valid() {
      NoDup(keys) && forall k :: k in keys <==> k in at
    }

    /** `d[k] = v`: an existing key keeps its place. */
    function Put(k: K, v: V): Dict<K, V> {
      Dict(if k in at then keys else keys + [k], at[k := v])
    }

    /** `d.pop(k, None)` */
    function Pop(k: K): Dict<K, V> {
      Dict(Remove(keys, k), at - {k})
    }
  }

  lemma PutValid<K(!new), V>(d: Dict<K, V>, k: K, v: V)
    requires d.Valid()
    ensures d.Put(k, v).Valid()
  {
    NoDupAppend(d.keys, k);
  }

  lemma PopValid<K(!new), V>(d: Dict<K, V>, k: K)
    requires d.Valid()
    ensures d.Pop(k).Valid()
  {
    RemoveNoDup(d.keys, k);
  }
}
