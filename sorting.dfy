/** `Array.prototype.sort` with a `localeCompare` comparator on a string key.
    The sort is stable (as ECMAScript requires since 2019; see `SortByStable`);
    the comparison is taken as code-point lexicographic order. */
module Sorting {

  /** `a.localeCompare(b) <= 0`. */
  predicate LexLe(a: string, b: string)
    decreases |a|
  {
    a == [] || (b != [] && (a[0] < b[0] || (a[0] == b[0] && LexLe(a[1..], b[1..]))))
  }

  lemma {:induction false} LexTotal(a: string, b: string)
    ensures LexLe(a, b) || LexLe(b, a)
    decreases |a|
  {
    if a != [] && b != [] && a[0] == b[0] {
      LexTotal(a[1..], b[1..]);
    }
  }

  lemma {:induction false} LexTrans(a: string, b: string, c: string)
    requires LexLe(a, b) && LexLe(b, c)
    ensures LexLe(a, c)
    decreases |a|
  {
    if a != [] && a[0] == b[0] && b[0] == c[0] {
      LexTrans(a[1..], b[1..], c[1..]);
    }
  }

  lemma {:induction false} LexAntisym(a: string, b: string)
    requires LexLe(a, b) && LexLe(b, a)
    ensures a == b
    decreases |a|
  {
    if a != [] {
      LexAntisym(a[1..], b[1..]);
      assert a == [a[0]] + a[1..] && b == [b[0]] + b[1..];
    }
  }

  predicate SortedBy<T>(s: seq<T>, key: T -> string)
  {
    forall i, j :: 0 <= i < j < |s| ==> LexLe(key(s[i]), key(s[j]))
  }

  predicate DistinctBy<T>(s: seq<T>, key: T -> string)
  {
    forall i, j :: 0 <= i < j < |s| ==> key(s[i]) != key(s[j])
  }

  /** Puts c after every element whose key is not greater than its own. */
  function Insert<T>(c: T, s: seq<T>, key: T -> string): seq<T>
    decreases |s|
  {
    if s == [] || !LexLe(key(s[0]), key(c)) then [c] + s else [s[0]] + Insert(c, s[1..], key)
  }

  /** The order the sort leaves: the elements inserted one by one in input
      order, each after the elements with an equal key (stability). */
  function SortBy<T>(cs: seq<T>, key: T -> string): seq<T>
    decreases |cs|
  {
    if cs == [] then [] else Insert(cs[|cs| - 1], SortBy(cs[..|cs| - 1], key), key)
  }

  lemma {:induction false} InsertPerm<T>(c: T, s: seq<T>, key: T -> string)
    ensures multiset(Insert(c, s, key)) == multiset(s) + multiset{c}
    decreases |s|
  {
    if s != [] && LexLe(key(s[0]), key(c)) {
      var t := s[1..];
      InsertPerm(c, t, key);
      assert Insert(c, s, key) == [s[0]] + Insert(c, t, key);
      assert s == [s[0]] + t;
      assert multiset(s) == multiset{s[0]} + multiset(t);
    }
  }

  lemma SortedTail<T>(s: seq<T>, key: T -> string)
    requires s != [] && SortedBy(s, key)
    ensures SortedBy(s[1..], key)
  {
    var t := s[1..];
    forall i, j | 0 <= i < j < |t| ensures LexLe(key(t[i]), key(t[j])) {
      assert t[i] == s[i + 1] && t[j] == s[j + 1];
    }
  }

  /** Prepending an element no greater than every element keeps the order. */
  lemma SortedCons<T>(c: T, s: seq<T>, key: T -> string)
    requires SortedBy(s, key)
    requires forall k :: 0 <= k < |s| ==> LexLe(key(c), key(s[k]))
    ensures SortedBy([c] + s, key)
  {
    var r := [c] + s;
    forall i, j | 0 <= i < j < |r| ensures LexLe(key(r[i]), key(r[j])) {
      assert r[j] == s[j - 1];
      if i > 0 { assert r[i] == s[i - 1]; }
    }
  }

  lemma {:induction false} InsertSorted<T>(c: T, s: seq<T>, key: T -> string)
    requires SortedBy(s, key)
    ensures SortedBy(Insert(c, s, key), key)
    decreases |s|
  {
    if s == [] {
    } else if !LexLe(key(s[0]), key(c)) {
      LexTotal(key(s[0]), key(c));
      forall k | 0 <= k < |s| ensures LexLe(key(c), key(s[k])) {
        if k > 0 { LexTrans(key(c), key(s[0]), key(s[k])); }
      }
      SortedCons(c, s, key);
    } else {
      var t := s[1..];
      SortedTail(s, key);
      InsertSorted(c, t, key);
      InsertPerm(c, t, key);
      var it := Insert(c, t, key);
      forall k | 0 <= k < |it| ensures LexLe(key(s[0]), key(it[k])) {
        assert it[k] in multiset(it);
        if it[k] != c {
          assert it[k] in multiset(t);
          var m :| 0 <= m < |t| && t[m] == it[k];
          assert t[m] == s[m + 1];
        }
      }
      SortedCons(s[0], it, key);
    }
  }

  /** The result is in ascending key order and holds the same elements. */
  lemma {:induction false} SortBySpec<T>(cs: seq<T>, key: T -> string)
    ensures SortedBy(SortBy(cs, key), key)
    ensures multiset(SortBy(cs, key)) == multiset(cs)
    ensures |SortBy(cs, key)| == |cs|
    decreases |cs|
  {
    if cs != [] {
      var init, last := cs[..|cs| - 1], cs[|cs| - 1];
      SortBySpec(init, key);
      InsertSorted(last, SortBy(init, key), key);
      InsertPerm(last, SortBy(init, key), key);
      assert cs == init + [last];
      assert |multiset(SortBy(cs, key))| == |multiset(cs)|;
    }
  }

  /** A rearrangement of elements with distinct keys has distinct keys. */
  lemma PermDistinct<T>(x: seq<T>, y: seq<T>, key: T -> string)
    requires multiset(x) == multiset(y) && DistinctBy(x, key)
    ensures DistinctBy(y, key)
  {
    forall i, j | 0 <= i < j < |y| ensures key(y[i]) != key(y[j]) {
      assert y[i] in multiset(x) && y[j] in multiset(x);
      var a :| 0 <= a < |x| && x[a] == y[i];
      var b :| 0 <= b < |x| && x[b] == y[j];
      if key(y[i]) == key(y[j]) {
        assert a == b;
        CountTwo(y, i, j);
        DistinctOnce(x, a, key);
        assert false;
      }
    }
  }

  /** An element at two positions occurs at least twice. */
  lemma {:induction false} CountTwo<T>(s: seq<T>, i: nat, j: nat)
    requires i < j < |s| && s[i] == s[j]
    ensures multiset(s)[s[i]] >= 2
    decreases |s|
  {
    if i > 0 {
      CountTwo(s[1..], i - 1, j - 1);
      assert s == [s[0]] + s[1..];
    } else {
      var t := s[1..];
      assert s == [s[0]] + t;
      assert t[j - 1] == s[i];
      assert s[i] in multiset(t);
    }
  }

  /** With distinct keys an element occurs once. */
  lemma {:induction false} DistinctOnce<T>(s: seq<T>, a: nat, key: T -> string)
    requires a < |s| && DistinctBy(s, key)
    ensures multiset(s)[s[a]] == 1
    decreases |s|
  {
    var t := s[1..];
    assert s == [s[0]] + t;
    assert DistinctBy(t, key) by {
      forall i, j | 0 <= i < j < |t| ensures key(t[i]) != key(t[j]) { assert t[i] == s[i + 1] && t[j] == s[j + 1]; }
    }
    if a == 0 {
      forall m | 0 <= m < |t| ensures t[m] != s[0] {
        assert t[m] == s[m + 1];
      }
      assert s[0] !in t;
    } else {
      DistinctOnce(t, a - 1, key);
      assert t[a - 1] == s[a];
      assert key(s[0]) != key(s[a]);
    }
  }

  lemma {:induction false} LexRefl(a: string)
    ensures LexLe(a, a)
    decreases |a|
  {
    if a != [] {
      LexRefl(a[1..]);
    }
  }

  /** Two ascending arrangements of the same elements with distinct keys
      start with the same element. */
  lemma SortedHeads<T>(x: seq<T>, y: seq<T>, key: T -> string)
    requires SortedBy(x, key) && SortedBy(y, key) && multiset(x) == multiset(y) && DistinctBy(x, key)
    requires x != [] && y != []
    ensures x[0] == y[0]
  {
    assert x[0] in multiset(y) && y[0] in multiset(x);
    var k :| 0 <= k < |y| && y[k] == x[0];
    var m :| 0 <= m < |x| && x[m] == y[0];
    LexRefl(key(x[0]));
    LexRefl(key(y[0]));
    assert LexLe(key(x[0]), key(x[m]));
    assert LexLe(key(y[0]), key(y[k]));
    LexAntisym(key(x[0]), key(y[0]));
    assert m == 0;
  }

  /** With distinct keys the sort's result does not depend on input order. */
  lemma {:induction false} SortedUnique<T>(x: seq<T>, y: seq<T>, key: T -> string)
    requires SortedBy(x, key) && SortedBy(y, key) && multiset(x) == multiset(y) && DistinctBy(x, key)
    ensures x == y
    decreases |x|
  {
    if x != [] {
      assert |y| == |x| by { assert |multiset(y)| == |multiset(x)|; }
      SortedHeads(x, y, key);
      var x', y' := x[1..], y[1..];
      assert x == [x[0]] + x' && y == [y[0]] + y';
      assert multiset(x) == multiset{x[0]} + multiset(x') && multiset(y) == multiset{y[0]} + multiset(y');
      forall e ensures multiset(x')[e] == multiset(y')[e] {
        assert multiset(x)[e] == multiset(y)[e];
      }
      assert multiset(x') == multiset(y');
      SortedTail(x, key);
      SortedTail(y, key);
      assert DistinctBy(x', key) by {
        forall i, j | 0 <= i < j < |x'| ensures key(x'[i]) != key(x'[j]) { assert x'[i] == x[i + 1] && x'[j] == x[j + 1]; }
      }
      SortedUnique(x', y', key);
    }
  }

  /** Sorting two arrangements of the same elements with distinct keys gives
      the same sequence. */
  lemma SortByUnique<T>(x: seq<T>, y: seq<T>, key: T -> string)
    requires multiset(x) == multiset(y) && DistinctBy(x, key)
    ensures SortBy(x, key) == SortBy(y, key)
  {
    SortBySpec(x, key);
    SortBySpec(y, key);
    PermDistinct(x, SortBy(x, key), key);
    SortedUnique(SortBy(x, key), SortBy(y, key), key);
  }

  /** The elements of s whose key is k, in the order of s. */
  function WithKey<T>(s: seq<T>, key: T -> string, k: string): seq<T>
    decreases |s|
  {
    if s == [] then [] else (if key(s[0]) == k then [s[0]] else []) + WithKey(s[1..], key, k)
  }

  lemma {:induction false} WithKeyAppend<T>(a: seq<T>, b: seq<T>, key: T -> string, k: string)
    ensures WithKey(a + b, key, k) == WithKey(a, key, k) + WithKey(b, key, k)
    decreases |a|
  {
    if a == [] {
      assert a + b == b;
    } else {
      var ab := a + b;
      var h := if key(a[0]) == k then [a[0]] else [];
      assert ab[0] == a[0] && ab[1..] == a[1..] + b;
      assert WithKey(ab, key, k) == h + WithKey(a[1..] + b, key, k);
      WithKeyAppend(a[1..], b, key, k);
      assert WithKey(a, key, k) == h + WithKey(a[1..], key, k);
    }
  }

  lemma {:induction false} WithKeyNone<T>(s: seq<T>, key: T -> string, k: string)
    requires forall i :: 0 <= i < |s| ==> key(s[i]) != k
    ensures WithKey(s, key, k) == []
    decreases |s|
  {
    if s != [] {
      WithKeyNone(s[1..], key, k);
    }
  }

  /** In a sorted sequence whose first key is above c's, no key equals c's. */
  lemma AboveKey<T>(c: T, s: seq<T>, key: T -> string)
    requires SortedBy(s, key) && s != [] && !LexLe(key(s[0]), key(c))
    ensures forall i :: 0 <= i < |s| ==> key(s[i]) != key(c)
  {
    LexRefl(key(c));
  }

  /** Inserting into a sorted sequence puts c after every element with
      the same key. */
  lemma {:induction false} InsertWithKey<T>(c: T, s: seq<T>, key: T -> string, k: string)
    requires SortedBy(s, key)
    ensures WithKey(Insert(c, s, key), key, k) == WithKey(s, key, k) + (if key(c) == k then [c] else [])
    decreases |s|
  {
    if s == [] {
    } else if !LexLe(key(s[0]), key(c)) {
      assert Insert(c, s, key) == [c] + s;
      if key(c) == k {
        AboveKey(c, s, key);
        WithKeyNone(s, key, k);
      }
      assert ([c] + s)[1..] == s;
    } else {
      var t := s[1..];
      SortedTail(s, key);
      InsertWithKey(c, t, key, k);
      var it := Insert(c, t, key);
      assert Insert(c, s, key) == [s[0]] + it;
      assert ([s[0]] + it)[1..] == it;
    }
  }

  /** Stability: the elements with any one key come out in input order. */
  lemma {:induction false} SortByStable<T>(cs: seq<T>, key: T -> string, k: string)
    ensures WithKey(SortBy(cs, key), key, k) == WithKey(cs, key, k)
    decreases |cs|
  {
    if cs != [] {
      var init, last := cs[..|cs| - 1], cs[|cs| - 1];
      SortByStable(init, key, k);
      SortBySpec(init, key);
      InsertWithKey(last, SortBy(init, key), key, k);
      assert cs == init + [last];
      WithKeyAppend(init, [last], key, k);
      assert [last][1..] == [];
    }
  }
}
