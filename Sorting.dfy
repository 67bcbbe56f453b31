/**
  sort.Slice over a list whose comparison is `key(x) < key(y)` on strings, as
  sortSlicesInDefinition uses it. Go's sort.Slice is not stable; the model
  sorts by insertion, which is one of the orders sort.Slice may produce, and
  when the key tells distinct elements apart every sorted permutation is the
  same list (SortedUnique), so the choice does not matter there.
 */
module Sorting {
  import opened Text

  /** `s` is in non-decreasing order of `key`. */
  ghost predicate Sorted<T>(s: seq<T>, key: T -> string) {
    forall i, j :: 0 <= i < j < |s| ==> !Less(key(s[j]), key(s[i]))
  }

  /** No two different elements of `s` render to the same key. */
  ghost predicate KeyInjective<T>(s: seq<T>, key: T -> string) {
    forall x, y :: x in s && y in s && key(x) == key(y) ==> x == y
  }

  lemma LowerBound<T>(lo: T, r: seq<T>, pool: seq<T>, x: T, key: T -> string)
    requires multiset(r) == multiset(pool) + multiset{x}
    requires forall k :: 0 <= k < |pool| ==> !Less(key(pool[k]), key(lo))
    requires !Less(key(x), key(lo))
    ensures forall j :: 0 <= j < |r| ==> !Less(key(r[j]), key(lo))
  {
    forall j | 0 <= j < |r|
      ensures !Less(key(r[j]), key(lo))
    {
      assert r[j] in multiset(r);
      if r[j] != x {
        assert r[j] in multiset(pool);
        var k :| 0 <= k < |pool| && pool[k] == r[j];
      }
    }
  }

  /** Inserts `x` before the first element whose key is not below its own. */
  function Insert<T>(x: T, s: seq<T>, key: T -> string): (r: seq<T>)
    requires Sorted(s, key)
    ensures Sorted(r, key)
    ensures multiset(r) == multiset(s) + multiset{x}
  {
    if s == [] then [x]
    else if Less(key(s[0]), key(x)) then
      var rest := Insert(x, s[1..], key);
      LessTrichotomy(key(s[0]), key(x));
      LowerBound(s[0], rest, s[1..], x, key);
      assert s == [s[0]] + s[1..];
      [s[0]] + rest
    else
      assert forall j :: 0 <= j < |s| ==> !Less(key(s[j]), key(x)) by {
        forall j | 0 <= j < |s|
          ensures !Less(key(s[j]), key(x))
        {
          if j > 0 {
            NotLessTransitive(key(x), key(s[0]), key(s[j]));
          }
        }
      }
      [x] + s
  }

  /** The list ordered by `key`, a permutation of `s`. */
  function SortByKey<T>(s: seq<T>, key: T -> string): (r: seq<T>)
    ensures Sorted(r, key)
    ensures multiset(r) == multiset(s)
  {
    if s == [] then []
    else
      assert s == [s[0]] + s[1..];
      Insert(s[0], SortByKey(s[1..], key), key)
  }

  lemma HeadsEqual<T>(s: seq<T>, t: seq<T>, key: T -> string)
    requires |s| > 0 && |t| > 0
    requires Sorted(s, key) && Sorted(t, key)
    requires multiset(s) == multiset(t)
    requires KeyInjective(s, key)
    ensures s[0] == t[0]
  {
    assert s[0] in multiset(t) && t[0] in multiset(s);
    var k :| 0 <= k < |t| && t[k] == s[0];
    var m :| 0 <= m < |s| && s[m] == t[0];
    if m > 0 && k > 0 {
      assert !Less(key(t[0]), key(s[0]));
      assert !Less(key(s[0]), key(t[0]));
      LessTrichotomy(key(s[0]), key(t[0]));
    }
  }

  /** Two sorted lists with the same elements are equal when the key tells elements apart. */
  lemma {:induction false} SortedUnique<T>(s: seq<T>, t: seq<T>, key: T -> string)
    requires Sorted(s, key) && Sorted(t, key)
    requires multiset(s) == multiset(t)
    requires KeyInjective(s, key)
    ensures s == t
    decreases |s|
  {
    assert |t| == |multiset(t)| == |multiset(s)| == |s|;
    if s != [] {
      HeadsEqual(s, t, key);
      TailsAgree(s, t, key);
      SortedUnique(s[1..], t[1..], key);
      assert s == [s[0]] + s[1..] && t == [t[0]] + t[1..];
    }
  }

  /** Equal heads leave tails that are sorted, have the same elements, and stay key-injective. */
  lemma TailsAgree<T>(s: seq<T>, t: seq<T>, key: T -> string)
    requires |s| > 0 && |t| > 0 && s[0] == t[0]
    requires Sorted(s, key) && Sorted(t, key)
    requires multiset(s) == multiset(t)
    requires KeyInjective(s, key)
    ensures Sorted(s[1..], key) && Sorted(t[1..], key)
    ensures multiset(s[1..]) == multiset(t[1..])
    ensures KeyInjective(s[1..], key)
  {
    assert s == [s[0]] + s[1..];
    assert t == [t[0]] + t[1..];
    assert multiset(s[1..]) == multiset(s) - multiset{s[0]};
    assert multiset(t[1..]) == multiset(t) - multiset{t[0]};
    assert KeyInjective(s[1..], key) by {
      forall x | x in s[1..] ensures x in s {
      }
    }
  }

  /** Sorting forgets the order of its input. */
  lemma SortByKeyForgetsOrder<T>(s: seq<T>, t: seq<T>, key: T -> string)
    requires multiset(s) == multiset(t)
    requires KeyInjective(s, key)
    ensures SortByKey(s, key) == SortByKey(t, key)
  {
    var a, b := SortByKey(s, key), SortByKey(t, key);
    assert forall x :: x in a ==> x in s by {
      forall x | x in a ensures x in s {
        assert x in multiset(a);
      }
    }
    SortedUnique(a, b, key);
  }

  /** A list that is already sorted is left as it is. */
  lemma {:induction false} SortByKeySorted<T>(s: seq<T>, key: T -> string)
    requires Sorted(s, key)
    ensures SortByKey(s, key) == s
  {
    if s != [] {
      SortByKeySorted(s[1..], key);
      assert s == [s[0]] + s[1..];
    }
  }

  /** Applies `f` to every element. */
  function MapSeq<A, B>(s: seq<A>, f: A -> B): (r: seq<B>)
    ensures |r| == |s|
    ensures forall i :: 0 <= i < |s| ==> r[i] == f(s[i])
  {
    seq(|s|, i requires 0 <= i < |s| => f(s[i]))
  }

  lemma MapSeqAppend<A, B>(s: seq<A>, t: seq<A>, f: A -> B)
    ensures MapSeq(s + t, f) == MapSeq(s, f) + MapSeq(t, f)
  {
  }

  /** Mapping a permutation gives a permutation. */
  lemma {:induction false} MapPermutation<A, B>(s: seq<A>, t: seq<A>, f: A -> B)
    requires multiset(s) == multiset(t)
    ensures multiset(MapSeq(s, f)) == multiset(MapSeq(t, f))
    decreases |s|
  {
    assert |t| == |multiset(t)| == |multiset(s)| == |s|;
    if s != [] {
      var x := s[0];
      assert x in multiset(t);
      var k :| 0 <= k < |t| && t[k] == x;
      var t' := t[..k] + t[k + 1..];
      assert t == t[..k] + [x] + t[k + 1..];
      assert s == [x] + s[1..];
      assert multiset(t') == multiset(t) - multiset{x};
      MapPermutation(s[1..], t', f);
      MapSeqAppend(t[..k] + [x], t[k + 1..], f);
      MapSeqAppend(t[..k], [x], f);
      MapSeqAppend(t[..k], t[k + 1..], f);
      MapSeqAppend([x], s[1..], f);
    }
  }
}
