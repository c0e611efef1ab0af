/** Python's `sorted` and `min` over tuple keys. */
module Sorting {
  import opened Prelude

  /** Tuples of integers in lexicographic order. */
  type Key = seq<int>

  predicate LexLeq(a: Key, b: Key) {
    a == [] || (b != [] && (a[0] < b[0] || (a[0] == b[0] && LexLeq(a[1..], b[1..]))))
  }

  lemma {:induction false} LexTotal(a: Key, b: Key)
    ensures LexLeq(a, b) || LexLeq(b, a)
    ensures LexLeq(a, b) && LexLeq(b, a) ==> a == b
  {
    if a != [] && b != [] {
      LexTotal(a[1..], b[1..]);
      assert a == [a[0]] + a[1..] && b == [b[0]] + b[1..];
    }
  }

  lemma {:induction false} LexTransitive(a: Key, b: Key, c: Key)
    requires LexLeq(a, b) && LexLeq(b, c)
    ensures LexLeq(a, c)
  {
    if a != [] && b != [] && c != [] && a[0] == b[0] == c[0] {
      LexTransitive(a[1..], b[1..], c[1..]);
    }
  }

  /** Stable insertion: ahead of the first entry whose key is not smaller. */
  function Insert<T>(x: T, s: seq<T>, key: T -> Key): (r: seq<T>)
    ensures |r| == |s| + 1
  {
    if s == [] || LexLeq(key(x), key(s[0])) then [x] + s else [s[0]] + Insert(x, s[1..], key)
  }

  function Sort<T>(s: seq<T>, key: T -> Key): (r: seq<T>)
    ensures |r| == |s|
  {
    if s == [] then [] else Insert(s[0], Sort(s[1..], key), key)
  }

  ghost predicate Ordered<T>(s: seq<T>, key: T -> Key) {
    s == [] || (Heads(s[0], s[1..], key) && Ordered(s[1..], key))
  }

  /** `x` may come before all of `s`. */
  ghost predicate Heads<T>(x: T, s: seq<T>, key: T -> Key) {
    forall y <- s :: LexLeq(key(x), key(y))
  }

  lemma {:induction false} InsertMembers<T>(x: T, s: seq<T>, key: T -> Key)
    ensures multiset(Insert(x, s, key)) == multiset(s) + multiset{x}
    ensures forall y :: y in Insert(x, s, key) <==> y == x || y in s
  {
    if s != [] && !LexLeq(key(x), key(s[0])) {
      InsertMembers(x, s[1..], key);
      assert s == [s[0]] + s[1..];
    }
  }

  lemma {:induction false} InsertKeeps<T>(x: T, s: seq<T>, key: T -> Key)
    requires Ordered(s, key)
    ensures Ordered(Insert(x, s, key), key)
  {
    var r := Insert(x, s, key);
    if s == [] {
    } else if LexLeq(key(x), key(s[0])) {
      assert r[1..] == s && s == [s[0]] + s[1..];
      forall y | y in s ensures LexLeq(key(x), key(y)) {
        if y in s[1..] {
          LexTransitive(key(x), key(s[0]), key(y));
        }
      }
    } else {
      InsertKeeps(x, s[1..], key);
      InsertMembers(x, s[1..], key);
      LexTotal(key(x), key(s[0]));
      var rest := s[1..];
      var inner := Insert(x, rest, key);
      assert r == [s[0]] + inner && r[1..] == inner;
      forall y | y in inner ensures LexLeq(key(s[0]), key(y)) {
        assert y in multiset(inner) && multiset(inner) == multiset(rest) + multiset{x};
        assert y == x || y in multiset(rest);
      }
      assert Heads(s[0], inner, key);
    }
  }

  lemma {:induction false} SortKeeps<T>(s: seq<T>, key: T -> Key)
    ensures multiset(Sort(s, key)) == multiset(s)
    ensures Ordered(Sort(s, key), key)
    ensures forall x :: x in Sort(s, key) <==> x in s
  {
    if s != [] {
      SortKeeps(s[1..], key);
      InsertKeeps(s[0], Sort(s[1..], key), key);
      InsertMembers(s[0], Sort(s[1..], key), key);
      assert s == [s[0]] + s[1..];
    }
    forall x ensures x in Sort(s, key) <==> x in s {
      assert x in multiset(Sort(s, key)) <==> x in multiset(s);
    }
  }

  /** Keys tell the entries apart. */
  ghost predicate KeyedApart<T(!new)>(s: seq<T>, key: T -> Key) {
    forall x, y :: x in s && y in s && key(x) == key(y) ==> x == y
  }

  lemma {:induction false} HeadsMatch<T(!new)>(a: seq<T>, b: seq<T>, key: T -> Key)
    requires Ordered(a, key) && Ordered(b, key) && multiset(a) == multiset(b) && KeyedApart(a, key)
    requires a != [] && b != []
    ensures a[0] == b[0]
  {
    var x, y := a[0], b[0];
    assert x in multiset(b) && y in multiset(a);
    assert a == [x] + a[1..] && b == [y] + b[1..];
    LexTotal(key(x), key(x));
    LexTotal(key(x), key(y));
  }

  lemma {:induction false} TailMultiset<T>(s: seq<T>)
    requires s != []
    ensures multiset(s[1..]) == multiset(s) - multiset{s[0]}
  {
    assert s == [s[0]] + s[1..];
  }

  lemma {:induction false} TailKeyedApart<T(!new)>(s: seq<T>, key: T -> Key)
    requires s != [] && KeyedApart(s, key)
    ensures KeyedApart(s[1..], key)
  {
    assert s == [s[0]] + s[1..];
  }

  lemma {:induction false} OrderedIsUnique<T(!new)>(a: seq<T>, b: seq<T>, key: T -> Key)
    requires Ordered(a, key) && Ordered(b, key) && multiset(a) == multiset(b) && KeyedApart(a, key)
    ensures a == b
    decreases |a|
  {
    hide LexLeq, Heads, KeyedApart;
    assert |multiset(a)| == |a| && |multiset(b)| == |b|;
    if a != [] {
      HeadsMatch(a, b, key);
      TailMultiset(a);
      TailMultiset(b);
      TailKeyedApart(a, key);
      OrderedIsUnique(a[1..], b[1..], key);
      assert a == [a[0]] + a[1..] && b == [b[0]] + b[1..];
    }
  }

  /** With distinguishing keys, sorting forgets the order it was given. */
  lemma {:induction false} SortForgetsOrder<T(!new)>(s: seq<T>, t: seq<T>, key: T -> Key)
    requires multiset(s) == multiset(t) && KeyedApart(s, key)
    ensures Sort(s, key) == Sort(t, key)
  {
    SortKeeps(s, key);
    SortKeeps(t, key);
    OrderedIsUnique(Sort(s, key), Sort(t, key), key);
  }

  /** `min(s, key=...)`: the first entry with the least key. */
  function MinBy<T>(s: seq<T>, key: T -> Key): (m: T)
    requires s != []
    ensures m in s
  {
    if |s| == 1 then s[0]
    else
      var rest := MinBy(s[1..], key);
      if LexLeq(key(s[0]), key(rest)) then s[0] else rest
  }

  lemma {:induction false} MinByIsLeast<T>(s: seq<T>, key: T -> Key)
    requires s != []
    ensures forall x :: x in s ==> LexLeq(key(MinBy(s, key)), key(x))
  {
    assert s == [s[0]] + s[1..];
    if |s| == 1 {
      LexTotal(key(s[0]), key(s[0]));
    } else {
      MinByIsLeast(s[1..], key);
      var rest := MinBy(s[1..], key);
      LexTotal(key(s[0]), key(rest));
      LexTotal(key(s[0]), key(s[0]));
      if LexLeq(key(s[0]), key(rest)) {
        forall x | x in s ensures LexLeq(key(s[0]), key(x)) {
          if x in s[1..] {
            LexTransitive(key(s[0]), key(rest), key(x));
          }
        }
      }
    }
  }

  lemma {:induction false} OrderedIsSorted<T>(s: seq<T>, key: T -> Key, i: nat, j: nat)
    requires Ordered(s, key) && i < j < |s|
    ensures LexLeq(key(s[i]), key(s[j]))
  {
    if i == 0 {
      assert s[j] == s[1..][j - 1];
      assert s[j] in s[1..];
    } else {
      OrderedIsSorted(s[1..], key, i - 1, j - 1);
    }
  }
}
