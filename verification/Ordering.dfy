/** Text in byte order, and lists kept in the order of a text key. */
module Ordering {

  /** a comes before b, byte by byte; a proper prefix comes first. */
  predicate Before(a: string, b: string) {
    b != [] && (a == [] || a[0] < b[0] || (a[0] == b[0] && Before(a[1..], b[1..])))
  }

  lemma BeforeIrreflexive(a: string)
    ensures !Before(a, a)
  {
  }

  lemma {:induction false} BeforeTransitive(a: string, b: string, c: string)
    requires Before(a, b) && Before(b, c)
    ensures Before(a, c)
    decreases |a|
  {
    if a != [] && a[0] == b[0] == c[0] {
      BeforeTransitive(a[1..], b[1..], c[1..]);
    }
  }

  lemma {:induction false} BeforeTotal(a: string, b: string)
    ensures Before(a, b) || a == b || Before(b, a)
    decreases |a|
  {
    if a != [] && b != [] && a[0] == b[0] {
      BeforeTotal(a[1..], b[1..]);
      assert a == [a[0]] + a[1..] && b == [b[0]] + b[1..];
    }
  }

  /** Strictly increasing keys: sorted and without duplicates. */
  ghost predicate Increasing<T>(s: seq<T>, key: T -> string) {
    forall i, j :: 0 <= i < j < |s| ==> Before(key(s[i]), key(s[j]))
  }

  /** Keys in order, equal ones allowed. */
  ghost predicate Ordered<T>(s: seq<T>, key: T -> string) {
    forall i, j :: 0 <= i < j < |s| ==> !Before(key(s[j]), key(s[i]))
  }

  /** s with x inserted before the first element it comes before. */
  function Insert<T>(s: seq<T>, x: T, key: T -> string): (r: seq<T>)
    ensures |r| == |s| + 1 && multiset(r) == multiset(s) + multiset{x}
  {
    if s == [] then [x]
    else if Before(key(x), key(s[0])) then [x] + s
    else
      assert s == [s[0]] + s[1..];
      [s[0]] + Insert(s[1..], x, key)
  }

  /** Insertion keeps an ordered list ordered. */
  lemma {:induction false} InsertOrdered<T>(s: seq<T>, x: T, key: T -> string)
    requires Ordered(s, key)
    ensures Ordered(Insert(s, x, key), key)
  {
    if s == [] {
    } else if Before(key(x), key(s[0])) {
      var r := [x] + s;
      forall j | 0 < j < |r| ensures !Before(key(r[j]), key(x)) {
        if Before(key(r[j]), key(x)) {
          BeforeTransitive(key(r[j]), key(x), key(s[0]));
          BeforeIrreflexive(key(s[0]));
        }
      }
    } else {
      var rest := Insert(s[1..], x, key);
      InsertOrdered(s[1..], x, key);
      forall j | 0 <= j < |rest| ensures !Before(key(rest[j]), key(s[0])) {
        assert rest[j] in multiset(rest);
        if rest[j] != x {
          assert rest[j] in s[1..];
        }
      }
    }
  }

  /** A key no element has keeps an increasing list increasing. */
  lemma {:induction false} InsertIncreasing<T>(s: seq<T>, x: T, key: T -> string)
    requires Increasing(s, key) && forall y :: y in s ==> key(y) != key(x)
    ensures Increasing(Insert(s, x, key), key)
  {
    if s == [] {
    } else if Before(key(x), key(s[0])) {
      forall j | 0 < j < |s| ensures Before(key(x), key(s[j])) {
        BeforeTransitive(key(x), key(s[0]), key(s[j]));
      }
    } else {
      BeforeTotal(key(x), key(s[0]));
      var rest := Insert(s[1..], x, key);
      InsertIncreasing(s[1..], x, key);
      forall j | 0 <= j < |rest| ensures Before(key(s[0]), key(rest[j])) {
        assert rest[j] in multiset(rest);
        if rest[j] != x {
          assert rest[j] in s[1..];
        }
      }
    }
  }

  /** Insertion sort: the order sort.Slice leaves, up to elements with equal keys. */
  function Sorted<T>(s: seq<T>, key: T -> string): (r: seq<T>)
    ensures |r| == |s| && multiset(r) == multiset(s)
  {
    if s == [] then []
    else
      assert s == s[..|s| - 1] + [s[|s| - 1]];
      Insert(Sorted(s[..|s| - 1], key), s[|s| - 1], key)
  }

  lemma {:induction false} SortedIsOrdered<T>(s: seq<T>, key: T -> string)
    ensures Ordered(Sorted(s, key), key)
  {
    if s != [] {
      SortedIsOrdered(s[..|s| - 1], key);
      InsertOrdered(Sorted(s[..|s| - 1], key), s[|s| - 1], key);
    }
  }

  /** No two elements share a key. */
  ghost predicate DistinctKeys<T>(s: seq<T>, key: T -> string) {
    forall i, j :: 0 <= i < j < |s| ==> key(s[i]) != key(s[j])
  }

  /** With distinct keys the sorted list is increasing, */
  lemma {:induction false} SortedIsIncreasing<T>(s: seq<T>, key: T -> string)
    requires DistinctKeys(s, key)
    ensures Increasing(Sorted(s, key), key)
  {
    if s != [] {
      var init, x := s[..|s| - 1], s[|s| - 1];
      SortedIsIncreasing(init, key);
      forall y | y in Sorted(init, key) ensures key(y) != key(x) {
        assert y in multiset(Sorted(init, key));
        assert y in init;
      }
      InsertIncreasing(Sorted(init, key), x, key);
    }
  }

  lemma FirstIsLeast<T>(s: seq<T>, x: T, key: T -> string)
    requires Increasing(s, key) && s != [] && x in multiset(s)
    ensures x == s[0] || Before(key(s[0]), key(x))
  {
    var i :| 0 <= i < |s| && s[i] == x;
  }

  lemma HeadsAgree<T>(a: seq<T>, b: seq<T>, key: T -> string)
    requires Increasing(a, key) && Increasing(b, key) && a != [] && b != [] && multiset(a) == multiset(b)
    ensures a[0] == b[0]
  {
    FirstIsLeast(a, b[0], key);
    FirstIsLeast(b, a[0], key);
    if a[0] != b[0] {
      BeforeTransitive(key(a[0]), key(b[0]), key(a[0]));
      BeforeIrreflexive(key(a[0]));
    }
  }

  lemma Removed<T>(s: seq<T>, i: nat)
    requires i < |s|
    ensures multiset(s) == multiset(s[..i] + s[i + 1..]) + multiset{s[i]}
  {
    assert s == s[..i] + [s[i]] + s[i + 1..];
  }

  lemma SameRest<T>(a: seq<T>, b: seq<T>, i: nat)
    requires multiset(a) == multiset(b) && a != [] && i < |b| && b[i] == a[0]
    ensures multiset(a[1..]) == multiset(b[..i] + b[i + 1..])
  {
    Removed(b, i);
    var rest := b[..i] + b[i + 1..];
    assert a == [a[0]] + a[1..];
    forall x ensures multiset(a[1..])[x] == multiset(rest)[x] {
      assert multiset(a)[x] == multiset{a[0]}[x] + multiset(a[1..])[x];
      assert multiset(b)[x] == multiset(rest)[x] + multiset{b[i]}[x];
    }
  }

  lemma SameTail<T>(a: seq<T>, b: seq<T>)
    requires multiset(a) == multiset(b) && a != [] && b != [] && a[0] == b[0]
    ensures multiset(a[1..]) == multiset(b[1..])
  {
    SameRest(a, b, 0);
    assert b[..0] + b[1..] == b[1..];
  }

  lemma SameLength<T>(a: seq<T>, b: seq<T>)
    requires multiset(a) == multiset(b)
    ensures |a| == |b|
  {
    assert |a| == |multiset(a)| == |multiset(b)| == |b|;
  }

  /** and an increasing list is determined by its elements, so every order of s sorts to it. */
  lemma {:induction false} IncreasingIsUnique<T>(a: seq<T>, b: seq<T>, key: T -> string)
    requires Increasing(a, key) && Increasing(b, key) && multiset(a) == multiset(b)
    ensures a == b
  {
    hide Before;
    SameLength(a, b);
    if a != [] {
      HeadsAgree(a, b, key);
      SameTail(a, b);
      IncreasingIsUnique(a[1..], b[1..], key);
      assert a == [a[0]] + a[1..] && b == [b[0]] + b[1..];
    }
  }

  /** Elements with one key are one element. */
  ghost predicate KeysIdentify<T>(s: seq<T>, key: T -> string) {
    forall x, y :: x in s && y in s && key(x) == key(y) ==> x == y
  }

  lemma OrderedHeadsAgree<T>(a: seq<T>, b: seq<T>, key: T -> string)
    requires Ordered(a, key) && Ordered(b, key) && KeysIdentify(a, key) && multiset(a) == multiset(b) && a != [] && b != []
    ensures a[0] == b[0]
  {
    assert a[0] in multiset(b) && b[0] in multiset(a);
    var i :| 0 <= i < |b| && b[i] == a[0];
    var j :| 0 <= j < |a| && a[j] == b[0];
    BeforeTotal(key(a[0]), key(b[0]));
    BeforeIrreflexive(key(a[0]));
  }

  /** Lists in order, equal keys allowed, with the same elements are the same list when keys identify them. */
  lemma {:induction false} OrderedIsUnique<T>(a: seq<T>, b: seq<T>, key: T -> string)
    requires Ordered(a, key) && Ordered(b, key) && KeysIdentify(a, key) && multiset(a) == multiset(b)
    ensures a == b
  {
    hide Before;
    SameLength(a, b);
    if a != [] {
      OrderedHeadsAgree(a, b, key);
      SameTail(a, b);
      OrderedIsUnique(a[1..], b[1..], key);
      assert a == [a[0]] + a[1..] && b == [b[0]] + b[1..];
    }
  }
}
