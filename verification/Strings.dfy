/** Python's order on strings: lexicographic by code point. */
module Strings {

  /** What `str.strip` takes for blank: the characters for which `str.isspace` holds. */
  predicate IsSpace(c: char) {
    || '\t' <= c <= '\r' || '\U{1C}' <= c <= ' ' || c in {'\U{85}', '\U{A0}', '\U{1680}'}
    || '\U{2000}' <= c <= '\U{200A}'
    || c in {'\U{2028}', '\U{2029}', '\U{202F}', '\U{205F}', '\U{3000}'}
  }

  predicate StringLess(a: string, b: string) {
    if b == "" then false
    else if a == "" then true
    else a[0] < b[0] || (a[0] == b[0] && StringLess(a[1..], b[1..]))
  }

  predicate StrictlySorted(s: seq<string>) {
    forall i, j :: 0 <= i < j < |s| ==> StringLess(s[i], s[j])
  }

  lemma {:induction false} StringLessIrreflexive(a: string)
    ensures !StringLess(a, a)
  {
    if a != "" {
      StringLessIrreflexive(a[1..]);
    }
  }

  lemma {:induction false} StringLessTransitive(a: string, b: string, c: string)
    requires StringLess(a, b) && StringLess(b, c)
    ensures StringLess(a, c)
  {
    if a != "" && a[0] == b[0] == c[0] {
      StringLessTransitive(a[1..], b[1..], c[1..]);
    }
  }

  lemma {:induction false} StringLessTotal(a: string, b: string)
    ensures a == b || StringLess(a, b) || StringLess(b, a)
  {
    if a != "" && b != "" && a[0] == b[0] {
      StringLessTotal(a[1..], b[1..]);
      assert a == [a[0]] + a[1..] && b == [b[0]] + b[1..];
    }
  }

  predicate Least(x: string, s: set<string>) {
    x in s && forall y :: y in s ==> y == x || StringLess(x, y)
  }

  lemma {:induction false} LeastExists(s: set<string>)
    requires s != {}
    ensures exists x :: Least(x, s)
  {
    var x :| x in s;
    if s == {x} {
      assert Least(x, s);
    } else {
      LeastExists(s - {x});
      var y :| Least(y, s - {x});
      StringLessTotal(x, y);
      if StringLess(x, y) {
        forall z | z in s ensures z == x || StringLess(x, z) {
          if z != x && z != y { StringLessTransitive(x, y, z); }
        }
        assert Least(x, s);
      } else {
        assert Least(y, s);
      }
    }
  }

  lemma LeastUnique(x: string, y: string, s: set<string>)
    requires Least(x, s) && Least(y, s)
    ensures x == y
  {
    if x != y {
      StringLessTransitive(x, y, x);
      StringLessIrreflexive(x);
    }
  }

  lemma OneLeast(s: set<string>)
    ensures forall x, y | Least(x, s) && Least(y, s) :: x == y
  {
    forall x, y | Least(x, s) && Least(y, s) ensures x == y { LeastUnique(x, y, s); }
  }

  lemma LeastFirst(x: string, rest: seq<string>, s: set<string>)
    requires Least(x, s) && StrictlySorted(rest) && forall y :: y in rest <==> y in s - {x}
    ensures StrictlySorted([x] + rest) && forall y :: y in [x] + rest <==> y in s
  {
    assert forall j :: 0 <= j < |rest| ==> rest[j] in s - {x};
  }

  /** `sorted(s)` for a set of strings. */
  function Sorted(s: set<string>): (r: seq<string>)
    ensures StrictlySorted(r) && |r| == |s|
    ensures forall x :: x in r <==> x in s
    decreases |s|
  {
    if s == {} then []
    else
      LeastExists(s);
      OneLeast(s);
      hide Least, StrictlySorted;
      var x :| x in s && Least(x, s);
      var rest := Sorted(s - {x});
      LeastFirst(x, rest, s);
      [x] + rest
  }

  /** `sorted(set(xs))`. */
  function SortedSet(xs: seq<string>): (r: seq<string>)
    ensures StrictlySorted(r)
    ensures forall x :: x in r <==> x in xs
  {
    Sorted(set x | x in xs)
  }

  // ------------------------------------------------------------- sorting by a key

  predicate SortedBy<T>(xs: seq<T>, key: T -> string) {
    forall i, j :: 0 <= i < j < |xs| ==> !StringLess(key(xs[j]), key(xs[i]))
  }

  function Keys<T>(xs: seq<T>, key: T -> string): (r: seq<string>)
    ensures |r| == |xs| && forall i :: 0 <= i < |xs| ==> r[i] == key(xs[i])
  {
    if xs == [] then [] else [key(xs[0])] + Keys(xs[1..], key)
  }

  function InsertBy<T(!new)>(x: T, xs: seq<T>, key: T -> string): (r: seq<T>)
    requires SortedBy(xs, key)
    ensures SortedBy(r, key) && |r| == |xs| + 1
    ensures forall y :: y in r <==> y == x || y in xs
  {
    if xs == [] then [x]
    else if !StringLess(key(xs[0]), key(x)) then
      assert forall j :: 0 <= j < |xs| ==> !StringLess(key(xs[j]), key(x)) by {
        forall j | 0 <= j < |xs| ensures !StringLess(key(xs[j]), key(x)) {
          if j > 0 && StringLess(key(xs[j]), key(x)) {
            StringLessTotal(key(x), key(xs[0]));
            if key(x) != key(xs[0]) { StringLessTransitive(key(xs[j]), key(x), key(xs[0])); }
          }
        }
      }
      [x] + xs
    else
      assert !StringLess(key(x), key(xs[0])) by {
        if StringLess(key(x), key(xs[0])) {
          StringLessTransitive(key(x), key(xs[0]), key(x));
          StringLessIrreflexive(key(x));
        }
      }
      var rest := InsertBy(x, xs[1..], key);
      assert forall j :: 0 <= j < |rest| ==> rest[j] in rest;
      assert xs == [xs[0]] + xs[1..];
      [xs[0]] + rest
  }

  /** `sorted(xs, key=key)`. */
  function SortBy<T(!new)>(xs: seq<T>, key: T -> string): (r: seq<T>)
    ensures SortedBy(r, key) && |r| == |xs|
    ensures forall y :: y in r <==> y in xs
  {
    if xs == [] then []
    else
      assert xs == [xs[0]] + xs[1..];
      InsertBy(xs[0], SortBy(xs[1..], key), key)
  }

  lemma {:induction false} InsertKeys<T(!new)>(x: T, xs: seq<T>, key: T -> string)
    requires SortedBy(xs, key)
    ensures multiset(Keys(InsertBy(x, xs, key), key)) == multiset(Keys(xs, key)) + multiset{key(x)}
  {
    hide StringLess, Keys;
    InsertCases(x, xs, key);
    if xs == [] || !StringLess(key(xs[0]), key(x)) {
      KeysCons(x, xs, key);
    } else {
      InsertKeys(x, xs[1..], key);
      KeysCons(xs[0], InsertBy(x, xs[1..], key), key);
      KeysCons(xs[0], xs[1..], key);
      hide *;
      assert xs == [xs[0]] + xs[1..];
    }
  }

  lemma KeysCons<T>(x: T, xs: seq<T>, key: T -> string)
    ensures Keys([x] + xs, key) == [key(x)] + Keys(xs, key)
  {
    assert ([x] + xs)[1..] == xs;
  }

  /** Sorting permutes the keys. */
  lemma {:induction false} SortKeys<T(!new)>(xs: seq<T>, key: T -> string)
    ensures multiset(Keys(SortBy(xs, key), key)) == multiset(Keys(xs, key))
  {
    if xs != [] {
      SortKeys(xs[1..], key);
      InsertKeys(xs[0], SortBy(xs[1..], key), key);
    }
  }

  /** The elements with a given key, in order. */
  function WithKey<T>(xs: seq<T>, key: T -> string, k: string): (r: seq<T>)
    ensures forall x :: x in r ==> key(x) == k
  {
    if xs == [] then [] else (if key(xs[0]) == k then [xs[0]] else []) + WithKey(xs[1..], key, k)
  }

  lemma WithKeyCons<T>(x: T, xs: seq<T>, key: T -> string, k: string)
    ensures WithKey([x] + xs, key, k) == (if key(x) == k then [x] else []) + WithKey(xs, key, k)
  {
    assert ([x] + xs)[1..] == xs;
  }

  lemma InsertCases<T(!new)>(x: T, xs: seq<T>, key: T -> string)
    requires SortedBy(xs, key)
    ensures InsertBy(x, xs, key) ==
            if xs == [] || !StringLess(key(xs[0]), key(x)) then [x] + xs
            else assert SortedBy(xs[1..], key); [xs[0]] + InsertBy(x, xs[1..], key)
  {
    hide StringLess;
  }

  lemma {:induction false} InsertStable<T(!new)>(x: T, xs: seq<T>, key: T -> string, k: string)
    requires SortedBy(xs, key)
    ensures WithKey(InsertBy(x, xs, key), key, k) == (if key(x) == k then [x] else []) + WithKey(xs, key, k)
    decreases |xs|
  {
    hide *;
    InsertCases(x, xs, key);
    WithKeyCons(x, xs, key, k);
    if xs != [] && StringLess(key(xs[0]), key(x)) {
      StringLessIrreflexive(key(x));
      SortedTail(xs, key);
      assert xs == [xs[0]] + xs[1..];
      WithKeyCons(xs[0], xs[1..], key, k);
      WithKeyCons(xs[0], InsertBy(x, xs[1..], key), key, k);
      InsertStable(x, xs[1..], key, k);
      Commute(if key(xs[0]) == k then [xs[0]] else [], if key(x) == k then [x] else [], WithKey(xs[1..], key, k));
    }
  }

  lemma SortedTail<T>(xs: seq<T>, key: T -> string)
    requires SortedBy(xs, key) && xs != []
    ensures SortedBy(xs[1..], key)
  {
    hide StringLess;
  }

  lemma Commute<T>(a: seq<T>, b: seq<T>, c: seq<T>)
    requires a == [] || b == []
    ensures a + (b + c) == b + (a + c)
  {
    assert [] + c == c;
  }

  /** Sorting is stable: elements with the same key keep their order, and none is lost or doubled. */
  lemma {:induction false} SortStable<T(!new)>(xs: seq<T>, key: T -> string, k: string)
    ensures WithKey(SortBy(xs, key), key, k) == WithKey(xs, key, k)
  {
    if xs != [] {
      SortStable(xs[1..], key, k);
      InsertStable(xs[0], SortBy(xs[1..], key), key, k);
    }
  }

  predicate Distinct(xs: seq<string>) {
    forall i, j :: 0 <= i < j < |xs| ==> xs[i] != xs[j]
  }

  lemma {:induction false} DistinctCounts(xs: seq<string>)
    ensures Distinct(xs) <==> forall x :: multiset(xs)[x] <= 1
  {
    if xs != [] {
      var last := |xs| - 1;
      var rest, x := xs[..last], xs[last];
      assert xs == rest + [x];
      DistinctCounts(rest);
      assert multiset(xs)[x] == multiset(rest)[x] + 1;
      if Distinct(xs) {
        assert x !in rest;
      } else if Distinct(rest) {
        assert x in rest;
      } else {
        var y :| multiset(rest)[y] > 1;
        assert multiset(xs)[y] > 1;
      }
    }
  }

  /** Whether keys repeat can be read off the sorted list, where it means that they do not rise. */
  lemma SortDistinct<T(!new)>(xs: seq<T>, key: T -> string)
    ensures Distinct(Keys(SortBy(xs, key), key)) <==> Distinct(Keys(xs, key))
    ensures Distinct(Keys(xs, key)) ==> StrictlySorted(Keys(SortBy(xs, key), key))
  {
    var r := SortBy(xs, key);
    SortKeys(xs, key);
    DistinctCounts(Keys(xs, key));
    DistinctCounts(Keys(r, key));
    if Distinct(Keys(xs, key)) {
      forall i, j | 0 <= i < j < |r| ensures StringLess(Keys(r, key)[i], Keys(r, key)[j]) {
        StringLessTotal(Keys(r, key)[i], Keys(r, key)[j]);
        assert !StringLess(key(r[j]), key(r[i]));
      }
    }
  }

  /** There is one way to sort: lists with strictly rising keys and the same elements are equal. */
  lemma {:induction false} SortedUnique<T(!new)>(a: seq<T>, b: seq<T>, key: T -> string)
    requires StrictlySorted(Keys(a, key)) && StrictlySorted(Keys(b, key)) && forall x :: x in a <==> x in b
    ensures a == b
  {
    EmptyTogether(a, b);
    if a != [] {
      HeadLeast(a, b[0], key);
      HeadLeast(b, a[0], key);
      TailRises(a, key);
      TailRises(b, key);
      if a[0] != b[0] {
        StringLessTransitive(key(a[0]), key(b[0]), key(a[0]));
        StringLessIrreflexive(key(a[0]));
      }
      hide *;
      TailsTogether(a, b);
      SortedUnique(a[1..], b[1..], key);
      assert a == [a[0]] + a[1..] && b == [b[0]] + b[1..];
    }
  }

  lemma TailsTogether<T(!new)>(a: seq<T>, b: seq<T>)
    requires a != [] && b != [] && a[0] == b[0] && a[0] !in a[1..] && b[0] !in b[1..]
    requires forall x :: x in a <==> x in b
    ensures forall x :: x in a[1..] <==> x in b[1..]
  {
    forall x ensures x in a[1..] <==> x in b[1..] {
      assert x in a <==> x == a[0] || x in a[1..];
      assert x in b <==> x == b[0] || x in b[1..];
    }
  }

  lemma EmptyTogether<T(!new)>(a: seq<T>, b: seq<T>)
    requires forall x :: x in a <==> x in b
    ensures a == [] <==> b == []
  {
    assert a != [] ==> a[0] in b;
    assert b != [] ==> b[0] in a;
  }

  lemma HeadLeast<T>(xs: seq<T>, x: T, key: T -> string)
    requires StrictlySorted(Keys(xs, key)) && x in xs
    ensures x == xs[0] || StringLess(key(xs[0]), key(x))
  {
    var i :| 0 <= i < |xs| && xs[i] == x;
    if i > 0 { assert StringLess(Keys(xs, key)[0], Keys(xs, key)[i]); }
  }

  lemma StrictTail(keys: seq<string>)
    requires StrictlySorted(keys) && keys != []
    ensures StrictlySorted(keys[1..]) && keys[0] !in keys[1..]
  {
    hide StringLess;
    forall i, j | 0 <= i < j < |keys| - 1 ensures StringLess(keys[1..][i], keys[1..][j]) {
      assert keys[1..][i] == keys[i + 1] && keys[1..][j] == keys[j + 1];
    }
    forall i | 0 <= i < |keys| - 1 ensures keys[1..][i] != keys[0] {
      StringLessIrreflexive(keys[0]);
      assert keys[1..][i] == keys[i + 1];
    }
  }

  lemma TailKeys<T>(xs: seq<T>, key: T -> string)
    requires xs != []
    ensures Keys(xs, key)[0] == key(xs[0]) && Keys(xs, key)[1..] == Keys(xs[1..], key)
  {
  }

  lemma KeyIn<T>(xs: seq<T>, key: T -> string, x: T)
    requires x in xs
    ensures key(x) in Keys(xs, key)
  {
    var i :| 0 <= i < |xs| && xs[i] == x;
    assert Keys(xs, key)[i] == key(x);
  }

  lemma TailRises<T>(xs: seq<T>, key: T -> string)
    requires StrictlySorted(Keys(xs, key)) && xs != []
    ensures StrictlySorted(Keys(xs[1..], key)) && xs[0] !in xs[1..]
  {
    hide *;
    TailKeys(xs, key);
    StrictTail(Keys(xs, key));
    if xs[0] in xs[1..] {
      KeyIn(xs[1..], key, xs[0]);
    }
  }
}
