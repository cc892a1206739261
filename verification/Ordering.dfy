/** The order Python gives the four-part sort keys of the gateway, and the stable sort
    (`sorted`, `list.sort`) that uses it. */
module Ordering {

  /** A sort key `(int, int, str, str)`, compared part by part. */
  datatype Key = Key(major: int, minor: int, name: string, id: string)

  /** Strings compare by code point, a proper prefix first. */
  predicate StringLess(a: string, b: string)
  {
    if b == [] then false
    else if a == [] then true
    else if a[0] != b[0] then a[0] < b[0]
    else StringLess(a[1..], b[1..])
  }

  predicate KeyLess(x: Key, y: Key)
  {
    x.major < y.major
    || (x.major == y.major
        && (x.minor < y.minor
            || (x.minor == y.minor
                && (StringLess(x.name, y.name)
                    || (x.name == y.name && StringLess(x.id, y.id))))))
  }

  predicate KeyLe(x: Key, y: Key)
  {
    x == y || KeyLess(x, y)
  }

  /** `a` ends, or has the smaller character, where it first departs from `b`. */
  predicate DepartsAt(a: string, b: string, k: nat)
  {
    k <= |a| && k < |b| && a[..k] == b[..k] && (k == |a| || a[k] < b[k])
  }

  ghost predicate Precedes(a: string, b: string)
  {
    exists k: nat :: DepartsAt(a, b, k)
  }

  lemma {:induction false} StringLessMeaning(a: string, b: string)
    ensures StringLess(a, b) <==> Precedes(a, b)
  {
    if a == [] || b == [] || a[0] != b[0] {
      assert StringLess(a, b) ==> DepartsAt(a, b, 0);
    } else {
      StringLessMeaning(a[1..], b[1..]);
      if k: nat :| DepartsAt(a[1..], b[1..], k) {
        assert a[..k + 1] == [a[0]] + a[1..][..k] && b[..k + 1] == [b[0]] + b[1..][..k];
        assert DepartsAt(a, b, k + 1);
      }
      if k: nat :| DepartsAt(a, b, k) {
        assert k > 0;
        assert a[..k] == [a[0]] + a[1..][..k - 1] && b[..k] == [b[0]] + b[1..][..k - 1];
        assert DepartsAt(a[1..], b[1..], k - 1);
      }
    }
  }

  lemma {:induction false} StringLessTotal(a: string, b: string)
    ensures a != b ==> StringLess(a, b) != StringLess(b, a)
    ensures a == b ==> !StringLess(a, b)
  {
    if a != [] && b != [] && a[0] == b[0] {
      assert a == [a[0]] + a[1..] && b == [b[0]] + b[1..];
      StringLessTotal(a[1..], b[1..]);
    }
  }

  lemma {:induction false} StringLessTransitive(a: string, b: string, c: string)
    requires StringLess(a, b) && StringLess(b, c)
    ensures StringLess(a, c)
  {
    if a != [] && a[0] == b[0] == c[0] {
      StringLessTransitive(a[1..], b[1..], c[1..]);
    }
  }

  lemma KeyLessTotal(x: Key, y: Key)
    ensures x != y ==> KeyLess(x, y) != KeyLess(y, x)
    ensures x == y ==> !KeyLess(x, y)
  {
    StringLessTotal(x.name, y.name);
    StringLessTotal(x.id, y.id);
  }

  lemma KeyLeTransitive(x: Key, y: Key, z: Key)
    requires KeyLe(x, y) && KeyLe(y, z)
    ensures KeyLe(x, z)
  {
    if x != y && y != z {
      if StringLess(x.name, y.name) && StringLess(y.name, z.name) {
        StringLessTransitive(x.name, y.name, z.name);
      }
      if StringLess(x.id, y.id) && StringLess(y.id, z.id) {
        StringLessTransitive(x.id, y.id, z.id);
      }
    }
  }

  function InsertOn<T>(x: T, xs: seq<T>, key: T -> Key): seq<T>
  {
    if xs == [] then [x]
    else if KeyLe(key(x), key(xs[0])) then [x] + xs
    else [xs[0]] + InsertOn(x, xs[1..], key)
  }

  /** Python's `sorted(xs, key=key)`. */
  function SortOn<T>(xs: seq<T>, key: T -> Key): seq<T>
  {
    if xs == [] then [] else InsertOn(xs[0], SortOn(xs[1..], key), key)
  }

  ghost predicate SortedOn<T>(xs: seq<T>, key: T -> Key)
  {
    forall i, j :: 0 <= i < j < |xs| ==> KeyLe(key(xs[i]), key(xs[j]))
  }

  /** The elements of `xs` with key `k`, in order. */
  ghost function WithKey<T>(xs: seq<T>, key: T -> Key, k: Key): seq<T>
  {
    if xs == [] then []
    else (if key(xs[0]) == k then [xs[0]] else []) + WithKey(xs[1..], key, k)
  }

  lemma {:induction false} InsertOnPermutes<T>(x: T, xs: seq<T>, key: T -> Key)
    ensures multiset(InsertOn(x, xs, key)) == multiset{x} + multiset(xs)
  {
    if xs == [] {
    } else {
      assert xs == [xs[0]] + xs[1..];
      if !KeyLe(key(x), key(xs[0])) {
        InsertOnPermutes(x, xs[1..], key);
      }
    }
  }

  lemma {:induction false} SortOnPermutes<T>(xs: seq<T>, key: T -> Key)
    ensures multiset(SortOn(xs, key)) == multiset(xs)
    ensures |SortOn(xs, key)| == |xs|
  {
    if xs == [] {
    } else {
      assert xs == [xs[0]] + xs[1..];
      SortOnPermutes(xs[1..], key);
      InsertOnPermutes(xs[0], SortOn(xs[1..], key), key);
      assert |multiset(SortOn(xs, key))| == |SortOn(xs, key)|;
    }
  }

  lemma PermutationMembers<T>(xs: seq<T>, ys: seq<T>, x: T)
    requires multiset(xs) == multiset(ys)
    ensures x in xs <==> x in ys
  {
    assert x in xs <==> x in multiset(xs);
    assert x in ys <==> x in multiset(ys);
  }

  lemma {:induction false} InsertOnSorted<T>(x: T, xs: seq<T>, key: T -> Key)
    requires SortedOn(xs, key)
    ensures SortedOn(InsertOn(x, xs, key), key)
  {
    var r := InsertOn(x, xs, key);
    if xs == [] {
    } else if KeyLe(key(x), key(xs[0])) {
      forall j | 0 < j < |r| ensures KeyLe(key(r[0]), key(r[j])) {
        if j > 1 { KeyLeTransitive(key(x), key(xs[0]), key(xs[j - 1])); }
      }
    } else {
      var tail := InsertOn(x, xs[1..], key);
      InsertOnSorted(x, xs[1..], key);
      InsertOnPermutes(x, xs[1..], key);
      KeyLessTotal(key(x), key(xs[0]));
      forall j | 0 <= j < |tail| ensures KeyLe(key(xs[0]), key(tail[j])) {
        assert tail[j] in multiset(tail);
        if tail[j] != x {
          assert tail[j] in xs[1..];
        }
      }
    }
  }

  lemma {:induction false} SortOnSorted<T>(xs: seq<T>, key: T -> Key)
    ensures SortedOn(SortOn(xs, key), key)
  {
    if xs == [] {
    } else {
      SortOnSorted(xs[1..], key);
      InsertOnSorted(xs[0], SortOn(xs[1..], key), key);
    }
  }

  /** A sorted list is left as it is. */
  lemma {:induction false} SortOnKeepsSorted<T>(xs: seq<T>, key: T -> Key)
    requires SortedOn(xs, key)
    ensures SortOn(xs, key) == xs
  {
    if xs == [] {
    } else {
      SortOnKeepsSorted(xs[1..], key);
      assert xs == [xs[0]] + xs[1..];
    }
  }

  lemma WithKeyCons<T>(x: T, xs: seq<T>, key: T -> Key, k: Key)
    ensures WithKey([x] + xs, key, k) == (if key(x) == k then [x] else []) + WithKey(xs, key, k)
  {
    assert ([x] + xs)[1..] == xs;
  }

  lemma {:induction false} InsertOnStable<T>(x: T, xs: seq<T>, key: T -> Key, k: Key)
    ensures WithKey(InsertOn(x, xs, key), key, k) == WithKey([x] + xs, key, k)
  {
    if xs == [] || KeyLe(key(x), key(xs[0])) {
      assert [x] + [] == [x];
    } else {
      var rest := xs[1..];
      InsertOnStable(x, rest, key, k);
      WithKeyCons(x, rest, key, k);
      WithKeyCons(xs[0], InsertOn(x, rest, key), key, k);
      WithKeyCons(xs[0], rest, key, k);
      WithKeyCons(x, xs, key, k);
      assert xs == [xs[0]] + rest;
      assert key(x) == k ==> key(xs[0]) != k;
    }
  }

  /** The sort is stable: elements with one key keep their order. */
  lemma {:induction false} SortOnStable<T>(xs: seq<T>, key: T -> Key, k: Key)
    ensures WithKey(SortOn(xs, key), key, k) == WithKey(xs, key, k)
  {
    if xs == [] {
    } else {
      SortOnStable(xs[1..], key, k);
      InsertOnStable(xs[0], SortOn(xs[1..], key), key, k);
      WithKeyCons(xs[0], SortOn(xs[1..], key), key, k);
    }
  }

  /** Keys tell the elements of `xs` apart. */
  ghost predicate KeysDistinguish<T>(xs: seq<T>, key: T -> Key)
  {
    forall x, y :: x in xs && y in xs && key(x) == key(y) ==> x == y
  }

  lemma SortedHeadsAgree<T>(xs: seq<T>, ys: seq<T>, key: T -> Key)
    requires SortedOn(xs, key) && SortedOn(ys, key)
    requires multiset(xs) == multiset(ys) && KeysDistinguish(xs, key)
    requires xs != []
    ensures ys != [] && xs[0] == ys[0]
  {
    PermutationMembers(xs, ys, xs[0]);
    var i :| 0 <= i < |ys| && ys[i] == xs[0];
    PermutationMembers(xs, ys, ys[0]);
    var j :| 0 <= j < |xs| && xs[j] == ys[0];
    KeyLessTotal(key(xs[0]), key(ys[0]));
  }

  lemma RestsArePermutations<T>(xs: seq<T>, ys: seq<T>)
    requires xs != [] && ys != [] && xs[0] == ys[0] && multiset(xs) == multiset(ys)
    ensures multiset(xs[1..]) == multiset(ys[1..])
  {
    assert xs == [xs[0]] + xs[1..];
    assert ys == [ys[0]] + ys[1..];
    assert multiset(xs[1..]) == multiset(xs) - multiset{xs[0]};
  }

  lemma {:induction false} SortedUnique<T>(xs: seq<T>, ys: seq<T>, key: T -> Key)
    requires SortedOn(xs, key) && SortedOn(ys, key)
    requires multiset(xs) == multiset(ys) && KeysDistinguish(xs, key)
    ensures xs == ys
  {
    if xs == [] {
      assert |multiset(ys)| == 0;
    } else {
      SortedHeadsAgree(xs, ys, key);
      RestsArePermutations(xs, ys);
      SortedUnique(xs[1..], ys[1..], key);
      assert xs == [xs[0]] + xs[1..] && ys == [ys[0]] + ys[1..];
    }
  }

  /** Sorting forgets the input order when the keys tell the elements apart. */
  lemma SortOnCanonical<T>(xs: seq<T>, ys: seq<T>, key: T -> Key)
    requires multiset(xs) == multiset(ys) && KeysDistinguish(xs, key)
    ensures SortOn(xs, key) == SortOn(ys, key)
  {
    SortOnPermutes(xs, key);
    SortOnPermutes(ys, key);
    SortOnSorted(xs, key);
    SortOnSorted(ys, key);
    forall x, y | x in SortOn(xs, key) && y in SortOn(xs, key) && key(x) == key(y) ensures x == y {
      PermutationMembers(xs, SortOn(xs, key), x);
      PermutationMembers(xs, SortOn(xs, key), y);
    }
    SortedUnique(SortOn(xs, key), SortOn(ys, key), key);
  }

  ghost predicate KeysDiffer<T>(xs: seq<T>, key: T -> Key)
  {
    forall i, j :: 0 <= i < j < |xs| ==> key(xs[i]) != key(xs[j])
  }

  lemma StrictDiffer<T>(xs: seq<T>, key: T -> Key)
    requires forall i, j :: 0 <= i < j < |xs| ==> KeyLess(key(xs[i]), key(xs[j]))
    ensures forall i, j :: 0 <= i < j < |xs| ==> xs[i] != xs[j]
  {
    forall i, j | 0 <= i < j < |xs| ensures xs[i] != xs[j] {
      KeyLessTotal(key(xs[i]), key(xs[j]));
    }
  }

  lemma {:induction false} WithKeyMember<T>(xs: seq<T>, key: T -> Key, i: nat)
    requires i < |xs|
    ensures xs[i] in WithKey(xs, key, key(xs[i]))
  {
    if i == 0 {
    } else {
      WithKeyMember(xs[1..], key, i - 1);
    }
  }

  lemma {:induction false} WithKeyTwice<T>(xs: seq<T>, key: T -> Key, i: nat, j: nat)
    requires i < j < |xs| && key(xs[i]) == key(xs[j])
    ensures |WithKey(xs, key, key(xs[i]))| >= 2
  {
    if i > 0 {
      WithKeyTwice(xs[1..], key, i - 1, j - 1);
    } else {
      WithKeyMember(xs[1..], key, j - 1);
    }
  }

  lemma {:induction false} WithKeyOnce<T>(xs: seq<T>, key: T -> Key, k: Key)
    requires KeysDiffer(xs, key)
    ensures |WithKey(xs, key, k)| <= 1
  {
    if xs == [] {
    } else {
      WithKeyOnce(xs[1..], key, k);
      if key(xs[0]) == k && WithKey(xs[1..], key, k) != [] {
        WithKeyOrigin(xs[1..], key, k, 0);
      }
    }
  }

  lemma {:induction false} WithKeyOrigin<T>(xs: seq<T>, key: T -> Key, k: Key, n: nat)
    requires n < |WithKey(xs, key, k)|
    ensures exists i :: 0 <= i < |xs| && xs[i] == WithKey(xs, key, k)[n] && key(xs[i]) == k
  {
    var here := if key(xs[0]) == k then 1 else 0;
    if n < here {
      assert xs[0] == WithKey(xs, key, k)[n];
    } else {
      WithKeyOrigin(xs[1..], key, k, n - here);
      var i :| 0 <= i < |xs[1..]| && xs[1..][i] == WithKey(xs[1..], key, k)[n - here] && key(xs[1..][i]) == k;
      assert xs[i + 1] == WithKey(xs, key, k)[n];
    }
  }

  /** Elements with different keys come out in strictly increasing order. */
  lemma SortOnStrict<T>(xs: seq<T>, key: T -> Key)
    requires KeysDiffer(xs, key)
    ensures forall i, j :: 0 <= i < j < |SortOn(xs, key)| ==> KeyLess(key(SortOn(xs, key)[i]), key(SortOn(xs, key)[j]))
  {
    var r := SortOn(xs, key);
    SortOnSorted(xs, key);
    forall i, j | 0 <= i < j < |r| ensures KeyLess(key(r[i]), key(r[j])) {
      if key(r[i]) == key(r[j]) {
        WithKeyTwice(r, key, i, j);
        SortOnStable(xs, key, key(r[i]));
        WithKeyOnce(xs, key, key(r[i]));
      }
    }
  }
}
