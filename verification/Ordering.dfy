/** Python's tuple order and `sorted`, which the review scorer leans on to make its
    answer independent of the order of its inputs. A sort key is a tuple of columns and
    a column a sequence of integers: a string is its code points, a number is itself. */
module Ordering {
  type Column = seq<int>
  type Key = seq<Column>

  predicate ColumnLe(a: Column, b: Column) {
    a == [] || (b != [] && (a[0] < b[0] || (a[0] == b[0] && ColumnLe(a[1..], b[1..]))))
  }

  predicate KeyLe(a: Key, b: Key) {
    a == [] ||
    (b != [] && if a[0] == b[0] then KeyLe(a[1..], b[1..]) else ColumnLe(a[0], b[0]))
  }

  lemma {:induction false} ColumnLeTotalOrder(a: Column, b: Column, c: Column)
    ensures ColumnLe(a, b) || ColumnLe(b, a)
    ensures ColumnLe(a, b) && ColumnLe(b, a) ==> a == b
    ensures ColumnLe(a, b) && ColumnLe(b, c) ==> ColumnLe(a, c)
    decreases |a| + |b| + |c|
  {
    if a != [] && b != [] {
      ColumnLeTotalOrder(a[1..], b[1..], if c == [] then [] else c[1..]);
      assert a == [a[0]] + a[1..] && b == [b[0]] + b[1..];
    }
  }

  lemma {:induction false} KeyLeTotalOrder(a: Key, b: Key, c: Key)
    ensures KeyLe(a, b) || KeyLe(b, a)
    ensures KeyLe(a, b) && KeyLe(b, a) ==> a == b
    ensures KeyLe(a, b) && KeyLe(b, c) ==> KeyLe(a, c)
    decreases |a| + |b| + |c|
  {
    if a != [] && b != [] {
      KeyLeTotalOrder(a[1..], b[1..], if c == [] then [] else c[1..]);
      ColumnLeTotalOrder(a[0], b[0], if c == [] then [] else c[0]);
      ColumnLeTotalOrder(b[0], a[0], b[0]);
      assert a == [a[0]] + a[1..] && b == [b[0]] + b[1..];
    }
  }

  /** Every element no later than every element after it. */
  ghost predicate SortedBy<T(!new)>(s: seq<T>, key: T -> Key) {
    forall i, j :: 0 <= i < j < |s| ==> KeyLe(key(s[i]), key(s[j]))
  }

  function Insert<T(!new)>(x: T, s: seq<T>, key: T -> Key): (r: seq<T>)
    ensures multiset(r) == multiset{x} + multiset(s)
  {
    if s == [] then [x]
    else if KeyLe(key(x), key(s[0])) then [x] + s
    else
      assert s == [s[0]] + s[1..];
      [s[0]] + Insert(x, s[1..], key)
  }

  /** `sorted(s, key=key)`. */
  function Sort<T(!new)>(s: seq<T>, key: T -> Key): (r: seq<T>)
    ensures multiset(r) == multiset(s)
  {
    if s == [] then []
    else
      assert s == [s[0]] + s[1..];
      Insert(s[0], Sort(s[1..], key), key)
  }

  lemma HeadIsLeast<T(!new)>(s: seq<T>, key: T -> Key, x: T)
    requires SortedBy(s, key) && x in multiset(s)
    ensures s != [] && KeyLe(key(s[0]), key(x))
  {
    var i :| 0 <= i < |s| && s[i] == x;
    KeyLeTotalOrder(key(s[0]), key(s[0]), []);
  }

  lemma TailBag<T>(s: seq<T>)
    requires s != []
    ensures multiset(s[1..]) == multiset(s) - multiset{s[0]}
  {
    assert s == [s[0]] + s[1..];
  }

  lemma LeastThenSorted<T(!new)>(x: T, s: seq<T>, key: T -> Key)
    requires SortedBy(s, key)
    requires forall y :: y in multiset(s) ==> KeyLe(key(x), key(y))
    ensures SortedBy([x] + s, key)
  {
    var r := [x] + s;
    forall i, j | 0 <= i < j < |r| ensures KeyLe(key(r[i]), key(r[j])) {
      if i == 0 { assert r[j] in multiset(s); }
    }
  }

  lemma {:induction false} InsertSorted<T(!new)>(x: T, s: seq<T>, key: T -> Key)
    requires SortedBy(s, key)
    ensures SortedBy(Insert(x, s, key), key)
  {
    if s == [] {
    } else if KeyLe(key(x), key(s[0])) {
      forall y | y in multiset(s) ensures KeyLe(key(x), key(y)) {
        HeadIsLeast(s, key, y);
        KeyLeTotalOrder(key(x), key(s[0]), key(y));
      }
      LeastThenSorted(x, s, key);
    } else {
      InsertSorted(x, s[1..], key);
      KeyLeTotalOrder(key(x), key(s[0]), []);
      forall y | y in multiset{x} + multiset(s[1..]) ensures KeyLe(key(s[0]), key(y)) {
        if y != x {
          TailBag(s);
          HeadIsLeast(s, key, y);
        }
      }
      LeastThenSorted(s[0], Insert(x, s[1..], key), key);
    }
  }

  lemma {:induction false} SortSorts<T(!new)>(s: seq<T>, key: T -> Key)
    ensures SortedBy(Sort(s, key), key)
  {
    if s != [] {
      SortSorts(s[1..], key);
      InsertSorted(s[0], Sort(s[1..], key), key);
    }
  }

  ghost predicate InjectiveKey<T(!new)>(key: T -> Key) {
    forall x, y :: key(x) == key(y) ==> x == y
  }

  ghost predicate TellsApart<T(!new)>(bag: multiset<T>, key: T -> Key) {
    forall x, y :: x in bag && y in bag && key(x) == key(y) ==> x == y
  }

  lemma TailSorted<T(!new)>(s: seq<T>, key: T -> Key)
    requires s != [] && SortedBy(s, key)
    ensures SortedBy(s[1..], key) && multiset(s[1..]) == multiset(s) - multiset{s[0]}
  {
    TailBag(s);
  }

  lemma TailTells<T(!new)>(s: seq<T>, key: T -> Key)
    requires s != [] && TellsApart(multiset(s), key)
    ensures TellsApart(multiset(s[1..]), key)
  {
    TailBag(s);
  }

  /** With a key that tells its elements apart there is one sorted arrangement of a bag. */
  lemma {:induction false} SortedArrangementUnique<T(!new)>(s: seq<T>, t: seq<T>, key: T -> Key)
    requires TellsApart(multiset(s), key)
    requires SortedBy(s, key) && SortedBy(t, key)
    requires multiset(s) == multiset(t)
    ensures s == t
  {
    assert |s| == |multiset(s)| == |multiset(t)| == |t|;
    if s != [] {
      SameHead(s, t, key);
      assert s == [s[0]] + s[1..] && t == [t[0]] + t[1..];
      TailSorted(s, key);
      TailSorted(t, key);
      TailTells(s, key);
      SortedArrangementUnique(s[1..], t[1..], key);
    }
  }

  lemma SameHead<T(!new)>(s: seq<T>, t: seq<T>, key: T -> Key)
    requires TellsApart(multiset(s), key) && s != [] && t != []
    requires SortedBy(s, key) && SortedBy(t, key) && multiset(s) == multiset(t)
    ensures s[0] == t[0]
  {
    assert s[0] in multiset(s) && t[0] in multiset(t);
    HeadIsLeast(t, key, s[0]);
    HeadIsLeast(s, key, t[0]);
    KeyLeTotalOrder(key(s[0]), key(t[0]), []);
  }

  /** `sorted` depends on the bag of its input only. */
  lemma SortIgnoresOrder<T(!new)>(s: seq<T>, t: seq<T>, key: T -> Key)
    requires TellsApart(multiset(s), key)
    requires multiset(s) == multiset(t)
    ensures Sort(s, key) == Sort(t, key)
  {
    SortSorts(s, key);
    SortSorts(t, key);
    SortedArrangementUnique(Sort(s, key), Sort(t, key), key);
  }

  /** Sorting leaves what is sorted as it is: it is stable. */
  lemma {:induction false} SortOfSorted<T(!new)>(s: seq<T>, key: T -> Key)
    requires SortedBy(s, key)
    ensures Sort(s, key) == s
  {
    if s != [] {
      SortOfSorted(s[1..], key);
      if |s| > 1 { assert KeyLe(key(s[0]), key(s[1])); }
      assert s == [s[0]] + s[1..];
    }
  }
}
