/** Python's string order and `list.sort(key=...)`, which the event list is put
    through: a stable sort, ascending by a string key. */
module Sorting {
  import opened Filtering

  /** Python's `a < b` on strings: code point by code point, a proper prefix first. */
  predicate Less(a: string, b: string) {
    if a == [] then b != []
    else if b == [] then false
    else if a[0] != b[0] then a[0] < b[0]
    else Less(a[1..], b[1..])
  }

  /** Python's `a <= b` on strings. */
  predicate LessEq(a: string, b: string) {
    !Less(b, a)
  }

  lemma {:induction false} LessIrreflexive(a: string)
    ensures !Less(a, a)
  {
    if a != [] {
      LessIrreflexive(a[1..]);
    }
  }

  /** Any two different strings are ordered one way or the other, never both. */
  lemma {:induction false} LessTrichotomy(a: string, b: string)
    ensures a == b || Less(a, b) || Less(b, a)
    ensures !(Less(a, b) && Less(b, a))
  {
    if a != [] && b != [] && a[0] == b[0] {
      LessTrichotomy(a[1..], b[1..]);
      if a[1..] == b[1..] {
        assert a == [a[0]] + a[1..] && b == [b[0]] + b[1..];
      }
    }
  }

  lemma {:induction false} LessTransitive(a: string, b: string, c: string)
    requires Less(a, b) && Less(b, c)
    ensures Less(a, c)
  {
    if a != [] && a[0] == b[0] && b[0] == c[0] {
      LessTransitive(a[1..], b[1..], c[1..]);
    }
  }

  lemma LessEqTransitive(a: string, b: string, c: string)
    requires LessEq(a, b) && LessEq(b, c)
    ensures LessEq(a, c)
  {
    LessTrichotomy(a, b);
    LessTrichotomy(b, c);
    LessTrichotomy(a, c);
    if a != b && b != c {
      LessTransitive(a, b, c);
    }
  }

  /** Ascending by key: no later element has a smaller key than an earlier one. */
  ghost predicate SortedBy<T>(s: seq<T>, key: T -> string) {
    forall i, j :: 0 <= i < j < |s| ==> LessEq(key(s[i]), key(s[j]))
  }

  /** Place `x` in front of the first element whose key is not smaller than its own. */
  function Insert<T>(x: T, s: seq<T>, key: T -> string): (r: seq<T>)
    ensures multiset(r) == multiset(s) + multiset{x}
  {
    if s == [] then [x]
    else if !Less(key(s[0]), key(x)) then [x] + s
    else
      assert s == [s[0]] + s[1..];
      [s[0]] + Insert(x, s[1..], key)
  }

  /** `sorted(s, key=key)`, by insertion from the back, so that among equal keys the
      earlier element ends up first. */
  function SortBy<T>(s: seq<T>, key: T -> string): (r: seq<T>)
    ensures multiset(r) == multiset(s)
  {
    if s == [] then []
    else
      assert s == [s[0]] + s[1..];
      Insert(s[0], SortBy(s[1..], key), key)
  }

  lemma {:induction false} InsertSorted<T>(x: T, s: seq<T>, key: T -> string)
    requires SortedBy(s, key)
    ensures SortedBy(Insert(x, s, key), key)
  {
    if s == [] {
    } else if !Less(key(s[0]), key(x)) {
      forall j | 0 < j < |s| ensures LessEq(key(x), key(s[j])) {
        LessEqTransitive(key(x), key(s[0]), key(s[j]));
      }
    } else {
      InsertSorted(x, s[1..], key);
      var r := Insert(x, s[1..], key);
      LessTrichotomy(key(s[0]), key(x));
      assert LessEq(key(s[0]), key(x));
      forall y | y in multiset(r) ensures LessEq(key(s[0]), key(y)) {
        if y != x {
          assert y in multiset(s[1..]);
          var j :| 0 <= j < |s[1..]| && s[1..][j] == y;
          assert s[j + 1] == y;
        }
      }
      forall j | 0 <= j < |r| ensures LessEq(key(s[0]), key(r[j])) {
        assert r[j] in multiset(r);
      }
      assert ([s[0]] + r)[0] == s[0];
    }
  }

  /** The result is sorted by key. */
  lemma {:induction false} SortBySorted<T>(s: seq<T>, key: T -> string)
    ensures SortedBy(SortBy(s, key), key)
  {
    if s != [] {
      SortBySorted(s[1..], key);
      InsertSorted(s[0], SortBy(s[1..], key), key);
    }
  }

  function HasKey<T>(key: T -> string, k: string): T -> bool {
    x => key(x) == k
  }

  /** Inserting `x` puts it in front of every element that has its key. */
  lemma {:induction false} InsertStable<T>(x: T, s: seq<T>, key: T -> string, k: string)
    ensures Keep(Insert(x, s, key), HasKey(key, k)) ==
      (if key(x) == k then [x] else []) + Keep(s, HasKey(key, k))
  {
    var p := HasKey(key, k);
    if s == [] {
      KeepCons(x, [], p);
      assert Keep([], p) == [];
      assert [x] + [] == [x];
    } else if !Less(key(s[0]), key(x)) {
      KeepCons(x, s, p);
    } else {
      InsertStable(x, s[1..], key, k);
      KeepCons(s[0], Insert(x, s[1..], key), p);
      KeepCons(s[0], s[1..], p);
      assert [s[0]] + s[1..] == s;
      if key(x) == k {
        LessIrreflexive(key(x));
        assert key(s[0]) != k;
      }
    }
  }

  /** Stability: for every key, the elements with that key come out in the order
      they went in. */
  lemma {:induction false} SortByStable<T>(s: seq<T>, key: T -> string, k: string)
    ensures Keep(SortBy(s, key), HasKey(key, k)) == Keep(s, HasKey(key, k))
  {
    if s != [] {
      var t := SortBy(s[1..], key);
      assert SortBy(s, key) == Insert(s[0], t, key);
      InsertStable(s[0], t, key, k);
      SortByStable(s[1..], key, k);
      KeepCons(s[0], s[1..], HasKey(key, k));
      assert [s[0]] + s[1..] == s;
    }
  }
}
