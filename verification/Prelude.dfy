/** Values shared by every component: optional values and JavaScript truthiness. */
module Prelude {

  datatype Option<+T> = None | Some(value: T)

  /** The `cacheMode` option of a token request. */
  datatype CacheMode = On | Off | CacheOnly

  /** `!!s` for a possibly undefined string: the empty string counts as absent. */
  predicate Truthy(s: Option<string>) {
    s.Some? && s.value != ""
  }

  /** `s || fallback`. */
  function OrElse(s: Option<string>, fallback: string): string {
    if Truthy(s) then s.value else fallback
  }

  /** `Math.floor(now / 1000)`; the divisor is positive, so Dafny's division rounds down. */
  function FloorSeconds(nowMs: int): int {
    nowMs / 1000
  }

  /** Keeps the first occurrence of every element, in order: `Array.from(new Set(xs))`. */
  function Dedupe<T(==,!new)>(xs: seq<T>): (r: seq<T>)
    ensures forall x :: x in r <==> x in xs
    ensures |r| <= |xs|
  {
    if xs == [] then []
    else
      var front := Dedupe(xs[..|xs| - 1]);
      if xs[|xs| - 1] in front then front else front + [xs[|xs| - 1]]
  }

  ghost predicate Distinct<T>(xs: seq<T>) {
    forall i, j :: 0 <= i < j < |xs| ==> xs[i] != xs[j]
  }

  lemma {:induction false} DedupeIsDistinct<T(!new)>(xs: seq<T>)
    ensures Distinct(Dedupe(xs))
  {
    if xs != [] {
      DedupeIsDistinct(xs[..|xs| - 1]);
    }
  }

  lemma {:induction false} DedupeOfDistinct<T(!new)>(xs: seq<T>)
    requires Distinct(xs)
    ensures Dedupe(xs) == xs
  {
    if xs != [] {
      var front := xs[..|xs| - 1];
      DedupeOfDistinct(front);
      assert xs == front + [xs[|xs| - 1]];
    }
  }

  /** Elements already seen on the left are dropped from the right, one at a time. */
  lemma {:induction false} DedupeAbsorbsLeft<T(!new)>(xs: seq<T>, ys: seq<T>)
    ensures Dedupe(Dedupe(xs) + ys) == Dedupe(xs + ys)
  {
    if ys == [] {
      assert Dedupe(xs) + ys == Dedupe(xs) && xs + ys == xs;
      DedupeIsDistinct(xs);
      DedupeOfDistinct(Dedupe(xs));
    } else {
      var front, last := ys[..|ys| - 1], ys[|ys| - 1];
      DedupeAbsorbsLeft(xs, front);
      assert (xs + ys)[..|xs + ys| - 1] == xs + front;
      assert (Dedupe(xs) + ys)[..|Dedupe(xs) + ys| - 1] == Dedupe(xs) + front;
    }
  }

  /** A right-hand part whose elements all occur on the left contributes nothing. */
  lemma {:induction false} DedupeIgnoresRepeats<T(!new)>(xs: seq<T>, ys: seq<T>)
    requires forall y :: y in ys ==> y in xs
    ensures Dedupe(xs + ys) == Dedupe(xs)
  {
    if ys == [] {
      assert xs + ys == xs;
    } else {
      var front := ys[..|ys| - 1];
      DedupeIgnoresRepeats(xs, front);
      assert (xs + ys)[..|xs + ys| - 1] == xs + front;
      assert ys[|ys| - 1] in xs;
    }
  }

  lemma DedupeOneMore<T(!new)>(xs: seq<T>, x: T)
    ensures Dedupe(xs + [x]) == if x in xs then Dedupe(xs) else Dedupe(xs) + [x]
  {
    assert (xs + [x])[..|xs|] == xs;
  }

  lemma DedupeOfEqual<T(!new)>(xs: seq<T>, ys: seq<T>, x: T)
    requires Dedupe(xs) == Dedupe(ys)
    ensures Dedupe(xs + [x]) == Dedupe(ys + [x])
  {
    DedupeOneMore(xs, x);
    DedupeOneMore(ys, x);
    assert x in Dedupe(xs) <==> x in Dedupe(ys);
  }

  lemma {:induction false} DedupeAbsorbsRight<T(!new)>(xs: seq<T>, ys: seq<T>)
    ensures Dedupe(xs + Dedupe(ys)) == Dedupe(xs + ys)
  {
    if ys != [] {
      var front, last := ys[..|ys| - 1], ys[|ys| - 1];
      DedupeAbsorbsRight(xs, front);
      assert xs + ys == (xs + front) + [last];
      if last in Dedupe(front) {
        DedupeOneMore(xs + front, last);
      } else {
        DedupeOfEqual(xs + Dedupe(front), xs + front, last);
        assert xs + Dedupe(ys) == (xs + Dedupe(front)) + [last];
      }
    }
  }

  /** Pigeonhole: distinct elements that all occur in another list are no more numerous. */
  lemma {:induction false} DistinctSubsetIsShorter<T(!new)>(xs: seq<T>, ys: seq<T>)
    requires Distinct(xs) && forall x :: x in xs ==> x in ys
    ensures |xs| <= |ys|
  {
    if xs != [] {
      var x := xs[0];
      assert x in xs;
      var i :| 0 <= i < |ys| && ys[i] == x;
      var rest := ys[..i] + ys[i + 1..];
      forall y | y in xs[1..]
        ensures y in rest
      {
        assert y in ys && y != x;
        var j :| 0 <= j < |ys| && ys[j] == y;
        assert rest[if j < i then j else j - 1] == y;
      }
      DistinctSubsetIsShorter(xs[1..], rest);
    }
  }

  /** `keys.add(key)` on an insertion-ordered set. */
  function AddKey(keys: seq<string>, key: string): seq<string> {
    if key in keys then keys else keys + [key]
  }

  /** `keys.delete(key)` on an insertion-ordered set. */
  function RemoveKey(keys: seq<string>, key: string): (r: seq<string>)
    ensures forall k :: k in r <==> k in keys && k != key
    ensures |r| <= |keys|
  {
    if keys == [] then []
    else if keys[0] == key then RemoveKey(keys[1..], key)
    else [keys[0]] + RemoveKey(keys[1..], key)
  }

  lemma AddKeyKeepsDistinct(keys: seq<string>, key: string)
    requires Distinct(keys)
    ensures Distinct(AddKey(keys, key))
    ensures forall k :: k in AddKey(keys, key) <==> k in keys || k == key
  {
  }

  lemma {:induction false} RemoveKeyKeepsDistinct(keys: seq<string>, key: string)
    requires Distinct(keys)
    ensures Distinct(RemoveKey(keys, key))
  {
    if keys != [] {
      RemoveKeyKeepsDistinct(keys[1..], key);
      assert forall i :: 0 < i < |keys| ==> keys[0] != keys[i];
      assert keys[0] !in RemoveKey(keys[1..], key);
    }
  }
}
