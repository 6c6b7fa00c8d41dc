/**
 * `filtered.sort(key=price_key)`: a stable sort by the key
 * `(price is None, price or inf)`, that is ascending price with the
 * unpriced entries after every priced one.
 */
module PriceSort {
  import opened Wrappers

  /** The order `price_key` induces on effective prices: `None` sorts last. */
  predicate PriceLe(a: Option<real>, b: Option<real>) {
    match (a, b)
    case (Some(x), Some(y)) => x <= y
    case (_, None) => true
    case (None, Some(_)) => false
  }

  /** `PriceLe` is a total preorder. */
  lemma PriceLeTotalPreorder(a: Option<real>, b: Option<real>, c: Option<real>)
    ensures PriceLe(a, a)
    ensures PriceLe(a, b) || PriceLe(b, a)
    ensures PriceLe(a, b) && PriceLe(b, c) ==> PriceLe(a, c)
    ensures PriceLe(a, b) && PriceLe(b, a) <==> a == b
  {
  }

  /** `s` is in non-decreasing key order. */
  ghost predicate SortedBy<T>(key: T -> Option<real>, s: seq<T>) {
    forall i, j :: 0 <= i < j < |s| ==> PriceLe(key(s[i]), key(s[j]))
  }

  /**
   * One insertion step: `x` goes after every entry whose key is not greater
   * than its own, scanning from the back, so it follows the entries with an
   * equal key.
   */
  function Insert<T>(key: T -> Option<real>, x: T, s: seq<T>): (r: seq<T>)
    ensures multiset(r) == multiset(s) + multiset{x}
    ensures |r| == |s| + 1
  {
    if s == [] || PriceLe(key(s[|s| - 1]), key(x)) then s + [x]
    else
      assert s == s[..|s| - 1] + [s[|s| - 1]];
      Insert(key, x, s[..|s| - 1]) + [s[|s| - 1]]
  }

  /** Insertion sort, front to back: the stable sort of `s` by `key`. */
  function SortBy<T>(key: T -> Option<real>, s: seq<T>): (r: seq<T>)
    ensures multiset(r) == multiset(s)
    ensures |r| == |s|
  {
    if s == [] then []
    else
      assert s == s[..|s| - 1] + [s[|s| - 1]];
      Insert(key, s[|s| - 1], SortBy(key, s[..|s| - 1]))
  }

  /** Inserting into a sorted sequence keeps it sorted. */
  lemma {:induction false} InsertSorted<T>(key: T -> Option<real>, x: T, s: seq<T>)
    requires SortedBy(key, s)
    ensures SortedBy(key, Insert(key, x, s))
  {
    if s != [] && !PriceLe(key(s[|s| - 1]), key(x)) {
      var init := s[..|s| - 1];
      var last := s[|s| - 1];
      assert SortedBy(key, init);
      InsertSorted(key, x, init);
      var r := Insert(key, x, init);
      forall e | e in multiset(r) ensures PriceLe(key(e), key(last)) {
        if e == x {
          PriceLeTotalPreorder(key(last), key(x), key(x));
        } else {
          assert e in multiset(init);
          var i :| 0 <= i < |init| && init[i] == e;
          assert s[i] == e;
        }
      }
      forall i, j | 0 <= i < j < |r| + 1 ensures PriceLe(key((r + [last])[i]), key((r + [last])[j])) {
        if j == |r| {
          assert r[i] in multiset(r);
        }
      }
    }
  }

  /** The result is in non-decreasing key order. */
  lemma {:induction false} SortBySorted<T>(key: T -> Option<real>, s: seq<T>)
    ensures SortedBy(key, SortBy(key, s))
  {
    if s != [] {
      SortBySorted(key, s[..|s| - 1]);
      InsertSorted(key, s[|s| - 1], SortBy(key, s[..|s| - 1]));
    }
  }

  /** The entries of `s` whose key is `k`, in order. */
  function WithKey<T>(key: T -> Option<real>, s: seq<T>, k: Option<real>): (r: seq<T>)
    ensures |r| <= |s|
  {
    if s == [] then []
    else WithKey(key, s[..|s| - 1], k) + (if key(s[|s| - 1]) == k then [s[|s| - 1]] else [])
  }

  /** A single entry is kept exactly when it has the key. */
  lemma WithKeySingle<T>(key: T -> Option<real>, x: T, k: Option<real>)
    ensures WithKey(key, [x], k) == if key(x) == k then [x] else []
  {
    assert [x][..0] == [];
  }

  /** `WithKey` distributes over concatenation. */
  lemma {:induction false} WithKeyAppend<T>(key: T -> Option<real>, s: seq<T>, t: seq<T>, k: Option<real>)
    ensures WithKey(key, s + t, k) == WithKey(key, s, k) + WithKey(key, t, k)
    decreases |t|
  {
    if t == [] {
      assert s + t == s;
    } else {
      assert (s + t)[..|s + t| - 1] == s + t[..|t| - 1];
      WithKeyAppend(key, s, t[..|t| - 1], k);
    }
  }

  /** Insertion adds `x` behind every entry that shares its key. */
  lemma {:induction false} InsertStable<T>(key: T -> Option<real>, x: T, s: seq<T>, k: Option<real>)
    ensures WithKey(key, Insert(key, x, s), k) == WithKey(key, s, k) + WithKey(key, [x], k)
  {
    if s == [] || PriceLe(key(s[|s| - 1]), key(x)) {
      WithKeyAppend(key, s, [x], k);
    } else {
      var init := s[..|s| - 1];
      var last := s[|s| - 1];
      InsertStable(key, x, init, k);
      WithKeyAppend(key, Insert(key, x, init), [last], k);
      WithKeyAppend(key, init, [last], k);
      assert s == init + [last];
      PriceLeTotalPreorder(key(last), key(x), key(x));
      assert key(last) != key(x);
    }
  }

  /** Stability: for every key, the entries with that key keep their relative order. */
  lemma {:induction false} SortByStable<T>(key: T -> Option<real>, s: seq<T>, k: Option<real>)
    ensures WithKey(key, SortBy(key, s), k) == WithKey(key, s, k)
  {
    if s != [] {
      var init := s[..|s| - 1];
      SortByStable(key, init, k);
      InsertStable(key, s[|s| - 1], SortBy(key, init), k);
      WithKeySingle(key, s[|s| - 1], k);
    }
  }

  /** An entry whose key is not below the last one's goes at the back. */
  lemma InsertAtEnd<T>(key: T -> Option<real>, x: T, s: seq<T>)
    requires s == [] || PriceLe(key(s[|s| - 1]), key(x))
    ensures Insert(key, x, s) == s + [x]
  {
  }

  /** The prefix of a sorted sequence is sorted. */
  lemma SortedInit<T>(key: T -> Option<real>, s: seq<T>)
    requires SortedBy(key, s) && s != []
    ensures SortedBy(key, s[..|s| - 1])
  {
    var init := s[..|s| - 1];
    forall i, j | 0 <= i < j < |init| ensures PriceLe(key(init[i]), key(init[j])) {
      assert init[i] == s[i] && init[j] == s[j];
    }
  }

  /** A sequence already in order is left as it is; in particular sorting twice is sorting once. */
  lemma {:induction false} SortBySortedIdentity<T>(key: T -> Option<real>, s: seq<T>)
    requires SortedBy(key, s)
    ensures SortBy(key, s) == s
  {
    if s != [] {
      var n := |s| - 1;
      var init := s[..n];
      SortedInit(key, s);
      SortBySortedIdentity(key, init);
      LastBeforeNext(key, s);
      InsertAtEnd(key, s[n], init);
      SortBySnoc(key, s);
      SplitLast(s);
    }
  }

  /** Sorting a non-empty sequence inserts its last entry into the sorted front. */
  lemma SortBySnoc<T>(key: T -> Option<real>, s: seq<T>)
    requires s != []
    ensures SortBy(key, s) == Insert(key, s[|s| - 1], SortBy(key, s[..|s| - 1]))
  {
  }

  /** A non-empty sequence is its front followed by its last entry. */
  lemma SplitLast<T>(s: seq<T>)
    requires s != []
    ensures s[..|s| - 1] + [s[|s| - 1]] == s
  {
  }

  /** In a sorted sequence the entry before the last is not above it. */
  lemma LastBeforeNext<T>(key: T -> Option<real>, s: seq<T>)
    requires SortedBy(key, s) && s != []
    ensures |s| == 1 || PriceLe(key(s[..|s| - 1][|s| - 2]), key(s[|s| - 1]))
  {
    if |s| > 1 {
      assert s[..|s| - 1][|s| - 2] == s[|s| - 2];
    }
  }

  /** Sorting is idempotent. */
  lemma SortByIdempotent<T>(key: T -> Option<real>, s: seq<T>)
    ensures SortBy(key, SortBy(key, s)) == SortBy(key, s)
  {
    SortBySorted(key, s);
    SortBySortedIdentity(key, SortBy(key, s));
  }

  /** `WithKey` keeps entries of `s` only, and every entry of `s` is kept under its own key. */
  lemma {:induction false} WithKeyMembers<T>(key: T -> Option<real>, s: seq<T>, k: Option<real>)
    ensures forall x :: x in WithKey(key, s, k) ==> x in s && key(x) == k
    ensures forall i :: 0 <= i < |s| && key(s[i]) == k ==> s[i] in WithKey(key, s, k)
  {
    if s != [] {
      var init := s[..|s| - 1];
      WithKeyMembers(key, init, k);
      assert s == init + [s[|s| - 1]];
      forall i | 0 <= i < |s| - 1 ensures s[i] == init[i] {
      }
    }
  }

  /** In a sorted sequence every entry's key is at most the last entry's key. */
  lemma AtMostLast<T>(key: T -> Option<real>, s: seq<T>, x: T)
    requires SortedBy(key, s) && x in s
    ensures PriceLe(key(x), key(s[|s| - 1]))
  {
    var i :| 0 <= i < |s| && s[i] == x;
    if i == |s| - 1 {
      PriceLeTotalPreorder(key(x), key(x), key(x));
    }
  }

  /** Sequences that agree on every key agree on being empty. */
  lemma SameKeysEmpty<T>(key: T -> Option<real>, t: seq<T>, u: seq<T>)
    requires forall k :: WithKey(key, t, k) == WithKey(key, u, k)
    requires t != []
    ensures u != []
  {
    WithKeyMembers(key, t, key(t[0]));
    WithKeyMembers(key, u, key(t[0]));
    assert t[0] in WithKey(key, t, key(t[0]));
  }

  /** Sorted sequences that agree on every key end with keys that are equal. */
  lemma SameLastKey<T>(key: T -> Option<real>, t: seq<T>, u: seq<T>)
    requires SortedBy(key, t) && SortedBy(key, u) && t != [] && u != []
    requires forall k :: WithKey(key, t, k) == WithKey(key, u, k)
    ensures key(t[|t| - 1]) == key(u[|u| - 1])
  {
    var a, b := t[|t| - 1], u[|u| - 1];
    WithKeyMembers(key, t, key(a));
    WithKeyMembers(key, u, key(a));
    WithKeyMembers(key, t, key(b));
    WithKeyMembers(key, u, key(b));
    assert a in WithKey(key, t, key(a));
    assert b in WithKey(key, u, key(b));
    AtMostLast(key, u, a);
    AtMostLast(key, t, b);
    PriceLeTotalPreorder(key(a), key(b), key(b));
  }

  /** `WithKey` of a sequence grown by one entry. */
  lemma WithKeySnoc<T>(key: T -> Option<real>, s: seq<T>, x: T, k: Option<real>)
    ensures WithKey(key, s + [x], k) == WithKey(key, s, k) + (if key(x) == k then [x] else [])
  {
    assert (s + [x])[..|s|] == s;
  }

  /** Two last entries with the same key: if the sequences agree on key `k`, so do their fronts, and the last entries are equal. */
  lemma DropLastSameKey<T>(key: T -> Option<real>, t: seq<T>, a: T, u: seq<T>, b: T, k: Option<real>)
    requires key(a) == key(b)
    requires WithKey(key, t + [a], k) == WithKey(key, u + [b], k)
    ensures WithKey(key, t, k) == WithKey(key, u, k)
    ensures key(a) == k ==> a == b
  {
    WithKeySnoc(key, t, a, k);
    WithKeySnoc(key, u, b, k);
    if key(a) == k {
      var wt, wu := WithKey(key, t, k) + [a], WithKey(key, u, k) + [b];
      assert wt == wu;
      assert wt[..|wt| - 1] == WithKey(key, t, k);
      assert wu[..|wu| - 1] == WithKey(key, u, k);
      assert wt[|wt| - 1] == a;
    }
  }

  /**
   * Two sequences in key order whose entries of each key come in the same
   * order are equal: a stable sort has exactly one possible result.
   */
  lemma {:induction false} SortedUnique<T>(key: T -> Option<real>, t: seq<T>, u: seq<T>)
    requires SortedBy(key, t) && SortedBy(key, u)
    requires forall k :: WithKey(key, t, k) == WithKey(key, u, k)
    ensures t == u
    decreases |t|
  {
    if t == [] {
      if u != [] {
        SameKeysEmpty(key, u, t);
      }
    } else {
      SameKeysEmpty(key, t, u);
      SameLastKey(key, t, u);
      var t', u' := t[..|t| - 1], u[..|u| - 1];
      var a, b := t[|t| - 1], u[|u| - 1];
      assert t == t' + [a];
      assert u == u' + [b];
      forall k ensures WithKey(key, t', k) == WithKey(key, u', k) {
        DropLastSameKey(key, t', a, u', b, k);
      }
      DropLastSameKey(key, t', a, u', b, key(a));
      assert SortedBy(key, t');
      assert SortedBy(key, u');
      SortedUnique(key, t', u');
    }
  }

  /** `SortBy` is the stable sort: any ordering of `s` that is sorted and keeps equal keys in order is it. */
  lemma StableSortIsSortBy<T>(key: T -> Option<real>, s: seq<T>, t: seq<T>)
    requires SortedBy(key, t)
    requires forall k :: WithKey(key, t, k) == WithKey(key, s, k)
    ensures t == SortBy(key, s)
  {
    SortBySorted(key, s);
    forall k ensures WithKey(key, t, k) == WithKey(key, SortBy(key, s), k) {
      SortByStable(key, s, k);
    }
    SortedUnique(key, t, SortBy(key, s));
  }
}
