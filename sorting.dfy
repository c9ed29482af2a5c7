/**
 * The library sorts the core calls (`sort.Strings`, `sort.Slice`,
 * `sort.SliceStable`), as one stable insertion sort over a three-part key.
 */
module Sorting {
  import opened Text

  /** A sort key, compared on `rank`, then on `primary`, then on `secondary`. */
  datatype Key = Key(rank: int, primary: string, secondary: string)

  predicate KeyLess(a: Key, b: Key)
  {
    || a.rank < b.rank
    || (a.rank == b.rank && StrLess(a.primary, b.primary))
    || (a.rank == b.rank && a.primary == b.primary && StrLess(a.secondary, b.secondary))
  }

  lemma KeyLessIrreflexive(a: Key)
    ensures !KeyLess(a, a)
  {
    StrLessIrreflexive(a.primary);
    StrLessIrreflexive(a.secondary);
  }

  lemma KeyLessTransitive(a: Key, b: Key, c: Key)
    requires KeyLess(a, b) && KeyLess(b, c)
    ensures KeyLess(a, c)
  {
    if a.rank == b.rank == c.rank {
      if StrLess(a.primary, b.primary) && StrLess(b.primary, c.primary) {
        StrLessTransitive(a.primary, b.primary, c.primary);
      } else if a.primary == b.primary == c.primary {
        StrLessTransitive(a.secondary, b.secondary, c.secondary);
      }
    }
  }

  /** Any two keys are equal or ordered one way: the key order is total. */
  lemma KeyLessTotal(a: Key, b: Key)
    ensures a == b || KeyLess(a, b) || KeyLess(b, a)
  {
    StrLessTotal(a.primary, b.primary);
    StrLessTotal(a.secondary, b.secondary);
  }

  lemma KeyLessAsymmetric(a: Key, b: Key)
    ensures !(KeyLess(a, b) && KeyLess(b, a))
  {
    if KeyLess(a, b) && KeyLess(b, a) {
      KeyLessTransitive(a, b, a);
      KeyLessIrreflexive(a);
    }
  }

  /** "Not after" is transitive: the order the sort keeps is a total preorder. */
  lemma NotLessTransitive(a: Key, b: Key, c: Key)
    requires !KeyLess(b, a) && !KeyLess(c, b)
    ensures !KeyLess(c, a)
  {
    KeyLessTotal(a, b);
    KeyLessTotal(b, c);
    if KeyLess(c, a) {
      if a != b { KeyLessTransitive(c, a, b); }
    }
  }

  /** No element is followed by one whose key is smaller. */
  predicate SortedBy<T>(xs: seq<T>, key: T -> Key)
  {
    forall i, j :: 0 <= i < j < |xs| ==> !KeyLess(key(xs[j]), key(xs[i]))
  }

  /** Puts `x` after every element whose key is not greater, so equal keys keep their order. */
  function Insert<T>(s: seq<T>, x: T, key: T -> Key): (r: seq<T>)
    ensures |r| == |s| + 1
  {
    if s == [] || !KeyLess(key(x), key(s[|s| - 1])) then s + [x]
    else Insert(s[..|s| - 1], x, key) + [s[|s| - 1]]
  }

  /** A stable insertion sort by `key`. */
  function SortBy<T>(xs: seq<T>, key: T -> Key): (r: seq<T>)
    ensures |r| == |xs|
  {
    if xs == [] then [] else Insert(SortBy(xs[..|xs| - 1], key), xs[|xs| - 1], key)
  }

  lemma {:induction false} InsertPermutes<T>(s: seq<T>, x: T, key: T -> Key)
    ensures multiset(Insert(s, x, key)) == multiset(s) + multiset{x}
  {
    if s != [] && KeyLess(key(x), key(s[|s| - 1])) {
      InsertPermutes(s[..|s| - 1], x, key);
      assert s == s[..|s| - 1] + [s[|s| - 1]];
    }
  }

  lemma {:induction false} InsertSorted<T>(s: seq<T>, x: T, key: T -> Key)
    requires SortedBy(s, key)
    ensures SortedBy(Insert(s, x, key), key)
  {
    var r := Insert(s, x, key);
    if s == [] {
    } else if !KeyLess(key(x), key(s[|s| - 1])) {
      forall i, j | 0 <= i < j < |r| ensures !KeyLess(key(r[j]), key(r[i])) {
        if j == |s| && i < |s| - 1 {
          NotLessTransitive(key(s[i]), key(s[|s| - 1]), key(x));
        }
      }
    } else {
      var init := s[..|s| - 1];
      var last := s[|s| - 1];
      var r' := Insert(init, x, key);
      InsertSorted(init, x, key);
      InsertPermutes(init, x, key);
      forall i, j | 0 <= i < j < |r| ensures !KeyLess(key(r[j]), key(r[i])) {
        if j == |r| - 1 {
          var y := r'[i];
          assert y in multiset(r');
          if y == x {
            KeyLessAsymmetric(key(x), key(last));
          } else {
            assert y in multiset(init);
            var k :| 0 <= k < |init| && init[k] == y;
          }
        }
      }
    }
  }

  /** The sort returns the input's elements, ordered by key. */
  lemma {:induction false} SortBySortsAndPermutes<T>(xs: seq<T>, key: T -> Key)
    ensures SortedBy(SortBy(xs, key), key)
    ensures multiset(SortBy(xs, key)) == multiset(xs)
  {
    if xs != [] {
      var init := xs[..|xs| - 1];
      SortBySortsAndPermutes(init, key);
      InsertSorted(SortBy(init, key), xs[|xs| - 1], key);
      InsertPermutes(SortBy(init, key), xs[|xs| - 1], key);
      assert xs == init + [xs[|xs| - 1]];
    }
  }

  /** Sorting by a key that tells elements apart has only one possible outcome. */
  lemma {:induction false} SortedUnique<T>(a: seq<T>, b: seq<T>, key: T -> Key)
    requires SortedBy(a, key) && SortedBy(b, key)
    requires multiset(a) == multiset(b)
    requires forall x, y :: x in multiset(a) && y in multiset(a) && key(x) == key(y) ==> x == y
    ensures a == b
  {
    if a == [] {
      assert |b| == |multiset(b)| == 0;
    } else {
      assert |b| == |multiset(b)| == |multiset(a)| == |a|;
      SameHead(a, b, key);
      SortedTail(a, key);
      SortedTail(b, key);
      ApartTail(a, key);
      SameTail(a, b);
      SortedUnique(a[1..], b[1..], key);
    }
  }

  lemma SortedTail<T>(a: seq<T>, key: T -> Key)
    requires |a| > 0 && SortedBy(a, key)
    ensures SortedBy(a[1..], key)
  {
    forall i, j | 0 <= i < j < |a| - 1
      ensures !KeyLess(key(a[1..][j]), key(a[1..][i]))
    {
      assert a[1..][j] == a[j + 1] && a[1..][i] == a[i + 1];
    }
  }

  lemma ApartTail<T>(a: seq<T>, key: T -> Key)
    requires |a| > 0
    requires forall x, y :: x in multiset(a) && y in multiset(a) && key(x) == key(y) ==> x == y
    ensures forall x, y :: x in multiset(a[1..]) && y in multiset(a[1..]) && key(x) == key(y) ==> x == y
  {
    assert a == [a[0]] + a[1..];
    assert multiset(a) == multiset([a[0]]) + multiset(a[1..]);
  }

  lemma SameTail<T>(a: seq<T>, b: seq<T>)
    requires |a| > 0 && |b| > 0 && a[0] == b[0] && multiset(a) == multiset(b)
    ensures multiset(a[1..]) == multiset(b[1..])
  {
    assert a == [a[0]] + a[1..];
    assert b == [b[0]] + b[1..];
    assert multiset(a) == multiset([a[0]]) + multiset(a[1..]);
    assert multiset(b) == multiset([b[0]]) + multiset(b[1..]);
    assert multiset(a[1..]) == multiset(a) - multiset([a[0]]);
    assert multiset(b[1..]) == multiset(b) - multiset([b[0]]);
  }

  /** Two sortings of the same elements start with the same one, when keys tell elements apart. */
  lemma SameHead<T>(a: seq<T>, b: seq<T>, key: T -> Key)
    requires |a| > 0 && |b| > 0
    requires SortedBy(a, key) && SortedBy(b, key)
    requires multiset(a) == multiset(b)
    requires forall x, y :: x in multiset(a) && y in multiset(a) && key(x) == key(y) ==> x == y
    ensures a[0] == b[0]
  {
    assert a[0] in multiset(b);
    assert b[0] in multiset(a);
    var ka :| 0 <= ka < |b| && b[ka] == a[0];
    var kb :| 0 <= kb < |a| && a[kb] == b[0];
    KeyLessTotal(key(a[0]), key(b[0]));
    assert key(a[0]) == key(b[0]);
  }
}
