/**
 * What ECMAScript's `Array.prototype.sort(cmp)` returns for a comparator of the
 * form `(a, b) => key(a) - key(b)`. Since the 2019 edition of ECMA-262 the sort
 * must be stable. That means the result is sorted by key, and for every key
 * the elements with that key appear in their original order. `SortBy` is one
 * stable sort, by insertion. `StableSortUnique` shows that every sequence with
 * those two properties is that same sequence. So the model does not depend on
 * which algorithm the engine uses.
 */
module StableSort {

  /** Ascending by key: no element has a larger key than one after it. */
  ghost predicate SortedBy<T>(s: seq<T>, key: T -> int) {
    forall i, j :: 0 <= i < j < |s| ==> key(s[i]) <= key(s[j])
  }

  /** The elements of s whose tag is k, in the order they have in s. */
  function KeyFilter<T, K(==)>(s: seq<T>, tag: T -> K, k: K): seq<T> {
    if s == [] then []
    else (if tag(s[0]) == k then [s[0]] else []) + KeyFilter(s[1..], tag, k)
  }

  /** r is what a stable sort of s by key returns. */
  ghost predicate IsStableSortOf<T>(r: seq<T>, s: seq<T>, key: T -> int) {
    && SortedBy(r, key)
    && forall k :: KeyFilter(r, key, k) == KeyFilter(s, key, k)
  }

  lemma {:induction false} KeyFilterMembers<T, K>(s: seq<T>, tag: T -> K, k: K)
    ensures forall x :: x in KeyFilter(s, tag, k) <==> x in s && tag(x) == k
  {
    if s != [] {
      KeyFilterMembers(s[1..], tag, k);
      assert s == [s[0]] + s[1..];
    }
  }

  /** Two taggings that single out the same elements of s filter s alike. */
  lemma {:induction false} KeyFilterCongruent<T, K, L>(s: seq<T>, f: T -> K, k: K, g: T -> L, l: L)
    requires forall x :: x in s ==> (f(x) == k <==> g(x) == l)
    ensures KeyFilter(s, f, k) == KeyFilter(s, g, l)
  {
    if s != [] {
      assert s[0] in s;
      assert forall x :: x in s[1..] ==> x in s;
      KeyFilterCongruent(s[1..], f, k, g, l);
    }
  }

  lemma {:induction false} KeyFilterNone<T, K>(s: seq<T>, tag: T -> K, k: K)
    requires forall x :: x in s ==> tag(x) != k
    ensures KeyFilter(s, tag, k) == []
  {
    if s != [] {
      assert s[0] in s;
      assert forall x :: x in s[1..] ==> x in s;
      KeyFilterNone(s[1..], tag, k);
    }
  }

  lemma KeyFilterCons<T, K>(x: T, s: seq<T>, tag: T -> K, k: K)
    ensures KeyFilter([x] + s, tag, k) == (if tag(x) == k then [x] else []) + KeyFilter(s, tag, k)
  {
    assert ([x] + s)[0] == x && ([x] + s)[1..] == s;
  }

  /** Insert x before the first element whose key is not smaller than x's. */
  function Insert<T>(x: T, s: seq<T>, key: T -> int): seq<T> {
    if s == [] || key(x) <= key(s[0]) then [x] + s
    else [s[0]] + Insert(x, s[1..], key)
  }

  lemma {:induction false} InsertPermutes<T>(x: T, s: seq<T>, key: T -> int)
    ensures multiset(Insert(x, s, key)) == multiset{x} + multiset(s)
  {
    if s != [] && key(x) > key(s[0]) {
      InsertPermutes(x, s[1..], key);
      assert s == [s[0]] + s[1..];
    }
  }

  /** A bound below x and below every element of s is below every element of the insertion. */
  lemma {:induction false} InsertLowerBound<T>(x: T, s: seq<T>, key: T -> int, b: int)
    requires b <= key(x)
    requires forall i :: 0 <= i < |s| ==> b <= key(s[i])
    ensures forall i :: 0 <= i < |Insert(x, s, key)| ==> b <= key(Insert(x, s, key)[i])
  {
    if s == [] || key(x) <= key(s[0]) {
      var r := [x] + s;
      assert Insert(x, s, key) == r;
      forall i | 0 <= i < |r| ensures b <= key(r[i]) {
        if i > 0 { assert r[i] == s[i - 1]; }
      }
    } else {
      var s' := s[1..];
      forall i | 0 <= i < |s'| ensures b <= key(s'[i]) {
        assert s'[i] == s[i + 1];
      }
      InsertLowerBound(x, s', key, b);
      var t := Insert(x, s', key);
      var r := [s[0]] + t;
      assert Insert(x, s, key) == r;
      forall i | 0 <= i < |r| ensures b <= key(r[i]) {
        if i > 0 { assert r[i] == t[i - 1]; }
      }
    }
  }

  lemma SortedTail<T>(a: seq<T>, key: T -> int)
    requires a != [] && SortedBy(a, key)
    ensures SortedBy(a[1..], key)
  {
    forall p, q | 0 <= p < q < |a| - 1 ensures key(a[1..][p]) <= key(a[1..][q]) {
      assert a[1..][p] == a[p + 1] && a[1..][q] == a[q + 1];
    }
  }

  lemma {:induction false} InsertSorted<T>(x: T, s: seq<T>, key: T -> int)
    requires SortedBy(s, key)
    ensures SortedBy(Insert(x, s, key), key)
  {
    if s == [] || key(x) <= key(s[0]) {
      var r := [x] + s;
      assert Insert(x, s, key) == r;
      forall i, j | 0 <= i < j < |r| ensures key(r[i]) <= key(r[j]) {
        assert r[j] == s[j - 1];
        if i == 0 {
          assert key(s[0]) <= key(s[j - 1]) by { if j - 1 > 0 { } }
        } else {
          assert r[i] == s[i - 1];
        }
      }
    } else {
      var s' := s[1..];
      SortedTail(s, key);
      InsertSorted(x, s', key);
      forall i | 0 <= i < |s'| ensures key(s[0]) <= key(s'[i]) {
        assert s'[i] == s[i + 1];
      }
      InsertLowerBound(x, s', key, key(s[0]));
      var t := Insert(x, s', key);
      var r := [s[0]] + t;
      assert Insert(x, s, key) == r;
      forall i, j | 0 <= i < j < |r| ensures key(r[i]) <= key(r[j]) {
        assert r[j] == t[j - 1];
        if i > 0 { assert r[i] == t[i - 1]; }
      }
    }
  }

  /** Inserting x keeps every key's elements in order, with x ahead of its equals. */
  lemma {:induction false} InsertFilter<T>(x: T, s: seq<T>, key: T -> int, k: int)
    ensures KeyFilter(Insert(x, s, key), key, k) == KeyFilter([x] + s, key, k)
  {
    if s != [] && key(x) > key(s[0]) {
      var s' := s[1..];
      var t := Insert(x, s', key);
      assert Insert(x, s, key) == [s[0]] + t;
      var h0: seq<T> := if key(s[0]) == k then [s[0]] else [];
      var hx: seq<T> := if key(x) == k then [x] else [];
      var rest := KeyFilter(s', key, k);
      InsertFilter(x, s', key, k);
      KeyFilterCons(x, s', key, k);
      KeyFilterCons(s[0], t, key, k);
      assert KeyFilter(Insert(x, s, key), key, k) == h0 + (hx + rest);
      KeyFilterCons(x, s, key, k);
      assert KeyFilter(s, key, k) == h0 + rest;
      assert KeyFilter([x] + s, key, k) == hx + (h0 + rest);
      assert h0 == [] || hx == [];
    } else {
      assert Insert(x, s, key) == [x] + s;
    }
  }

  /** Stable insertion sort by ascending key. */
  function SortBy<T>(s: seq<T>, key: T -> int): (r: seq<T>)
    ensures multiset(r) == multiset(s)
    ensures IsStableSortOf(r, s, key)
  {
    if s == [] then []
    else
      var t := SortBy(s[1..], key);
      InsertSorted(s[0], t, key);
      InsertPermutes(s[0], t, key);
      assert s == [s[0]] + s[1..];
      assert forall k :: KeyFilter(Insert(s[0], t, key), key, k) == KeyFilter(s, key, k) by {
        forall k ensures KeyFilter(Insert(s[0], t, key), key, k) == KeyFilter(s, key, k) {
          InsertFilter(s[0], t, key, k);
          KeyFilterCons(s[0], t, key, k);
          KeyFilterCons(s[0], s[1..], key, k);
        }
      }
      Insert(s[0], t, key)
  }

  /** A stable sort has only one possible result. */
  lemma {:induction false} StableSortUnique<T>(a: seq<T>, b: seq<T>, key: T -> int)
    requires SortedBy(a, key) && SortedBy(b, key)
    requires forall k :: KeyFilter(a, key, k) == KeyFilter(b, key, k)
    ensures a == b
  {
    EmptyTogether(a, b, key);
    if a != [] {
      assert KeyFilter(a, key, key(a[0])) == KeyFilter(b, key, key(a[0]));
      assert KeyFilter(a, key, key(b[0])) == KeyFilter(b, key, key(b[0]));
      HeadsAgree(a, b, key);
      TailFiltersAgree(a, b, key);
      SortedTail(a, key);
      SortedTail(b, key);
      StableSortUnique(a[1..], b[1..], key);
      assert a == [a[0]] + a[1..] && b == [b[0]] + b[1..];
    }
  }

  /** Sequences with the same key filters are empty together. */
  lemma EmptyTogether<T>(a: seq<T>, b: seq<T>, key: T -> int)
    requires forall k :: KeyFilter(a, key, k) == KeyFilter(b, key, k)
    ensures a == [] <==> b == []
  {
    if a != [] {
      assert KeyFilter(a, key, key(a[0])) != [];
    }
    if b != [] {
      assert KeyFilter(b, key, key(b[0])) != [];
    }
  }

  /** The first element of s heads the filter for its own key. */
  lemma FilterHead<T>(s: seq<T>, key: T -> int)
    requires s != []
    ensures KeyFilter(s, key, key(s[0])) != [] && KeyFilter(s, key, key(s[0]))[0] == s[0]
  {
  }

  /** In a sorted sequence no element has a smaller key than the first. */
  lemma SortedHeadIsLeast<T>(s: seq<T>, x: T, key: T -> int)
    requires SortedBy(s, key) && x in s
    ensures key(s[0]) <= key(x)
  {
    var i :| 0 <= i < |s| && s[i] == x;
    if i > 0 {
      assert key(s[0]) <= key(s[i]);
    }
  }

  /** The head of b, with its key filter shared, also occurs in a. */
  lemma HeadOccurs<T>(a: seq<T>, b: seq<T>, key: T -> int)
    requires b != []
    requires KeyFilter(a, key, key(b[0])) == KeyFilter(b, key, key(b[0]))
    ensures b[0] in a
  {
    FilterHead(b, key);
    KeyFilterMembers(a, key, key(b[0]));
    assert b[0] in KeyFilter(a, key, key(b[0]));
  }

  /** Two sorted sequences with the same key filters start with the same element. */
  lemma HeadsAgree<T>(a: seq<T>, b: seq<T>, key: T -> int)
    requires a != [] && b != []
    requires SortedBy(a, key) && SortedBy(b, key)
    requires KeyFilter(a, key, key(a[0])) == KeyFilter(b, key, key(a[0]))
    requires KeyFilter(a, key, key(b[0])) == KeyFilter(b, key, key(b[0]))
    ensures a[0] == b[0]
  {
    HeadOccurs(a, b, key);
    HeadOccurs(b, a, key);
    SortedHeadIsLeast(a, b[0], key);
    SortedHeadIsLeast(b, a[0], key);
    var k := key(a[0]);
    assert key(b[0]) == k;
    var fa, fb := KeyFilter(a, key, k), KeyFilter(b, key, k);
    FilterHead(a, key);
    FilterHead(b, key);
    assert fa == fb;
    assert fa[0] == a[0] && fb[0] == b[0];
  }

  /** Removing the same first element keeps the key filters equal. */
  lemma TailFiltersAgree<T>(a: seq<T>, b: seq<T>, key: T -> int)
    requires a != [] && b != [] && a[0] == b[0]
    requires forall k :: KeyFilter(a, key, k) == KeyFilter(b, key, k)
    ensures forall k :: KeyFilter(a[1..], key, k) == KeyFilter(b[1..], key, k)
  {
    forall k ensures KeyFilter(a[1..], key, k) == KeyFilter(b[1..], key, k) {
      var h := if key(a[0]) == k then [a[0]] else [];
      assert KeyFilter(a, key, k) == h + KeyFilter(a[1..], key, k);
      assert KeyFilter(b, key, k) == h + KeyFilter(b[1..], key, k);
      assert (h + KeyFilter(a[1..], key, k))[|h|..] == KeyFilter(a[1..], key, k);
      assert (h + KeyFilter(b[1..], key, k))[|h|..] == KeyFilter(b[1..], key, k);
    }
  }
}
