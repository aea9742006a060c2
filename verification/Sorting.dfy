/** Ordered listings of dictionary values, and the code-point order of strings. */
module Sorting {

  /** Python's `<` on strings. */
  predicate StringLess(a: string, b: string) {
    if b == "" then false
    else if a == "" then true
    else a[0] < b[0] || (a[0] == b[0] && StringLess(a[1..], b[1..]))
  }

  lemma {:induction false} StringLessTotal(a: string, b: string)
    ensures a == b || StringLess(a, b) || StringLess(b, a)
    ensures !(StringLess(a, b) && StringLess(b, a)) && !StringLess(a, a)
  {
    if a != "" && b != "" {
      StringLessTotal(a[1..], b[1..]);
      StringLessTotal(a[1..], a[1..]);
      if a[0] == b[0] && a[1..] == b[1..] {
        assert a == [a[0]] + a[1..] && b == [b[0]] + b[1..];
      }
    } else if a != "" {
      StringLessTotal(a[1..], a[1..]);
    }
  }

  /** One string comes before another if it is a proper beginning of it, or is less where they first differ. */
  lemma {:induction false} StringLessMeaning(a: string, b: string)
    ensures StringLess(a, b) <==> exists k: nat :: LessAt(a, b, k)
  {
    if a != "" && b != "" && a[0] == b[0] {
      StringLessMeaning(a[1..], b[1..]);
      if k: nat :| LessAt(a[1..], b[1..], k) {
        assert a[..k + 1] == [a[0]] + a[1..][..k] && b[..k + 1] == [b[0]] + b[1..][..k];
        assert LessAt(a, b, k + 1);
      }
      if k: nat :| LessAt(a, b, k) {
        assert k > 0 && a[1..][..k - 1] == a[..k][1..] && b[1..][..k - 1] == b[..k][1..];
        assert LessAt(a[1..], b[1..], k - 1);
      }
    } else if b != "" {
      assert a == "" || a[0] < b[0] ==> LessAt(a, b, 0);
      assert forall k: nat :: LessAt(a, b, k) && k > 0 ==> a[..k][0] == b[..k][0];
    }
  }

  predicate LessAt(a: string, b: string, k: nat) {
    k <= |a| && k < |b| && a[..k] == b[..k] && (k == |a| || a[k] < b[k])
  }

  lemma {:induction false} StringLessTransitive(a: string, b: string, c: string)
    requires StringLess(a, b) && StringLess(b, c)
    ensures StringLess(a, c)
  {
    if a != "" && a[0] == b[0] && b[0] == c[0] {
      StringLessTransitive(a[1..], b[1..], c[1..]);
    }
  }

  ghost predicate StrictOrder<T(!new)>(less: (T, T) -> bool) {
    && (forall x :: !less(x, x))
    && (forall x, y, z :: less(x, y) && less(y, z) ==> less(x, z))
  }

  predicate Ascends<T>(less: (T, T) -> bool, s: seq<T>) {
    forall i, j :: 0 <= i < j < |s| ==> less(s[i], s[j])
  }

  function Insert<T>(less: (T, T) -> bool, x: T, s: seq<T>): (r: seq<T>)
    ensures |r| == |s| + 1
  {
    if s == [] || less(x, s[0]) then [x] + s else [s[0]] + Insert(less, x, s[1..])
  }

  lemma {:induction false} InsertElements<T>(less: (T, T) -> bool, x: T, s: seq<T>, y: T)
    ensures y in Insert(less, x, s) <==> y == x || y in s
  {
    if s != [] && !less(x, s[0]) {
      InsertElements(less, x, s[1..], y);
      assert s == [s[0]] + s[1..];
    }
  }

  lemma {:induction false} InsertAscends<T(!new)>(less: (T, T) -> bool, x: T, s: seq<T>)
    requires StrictOrder(less) && Ascends(less, s)
    requires forall y :: y in s ==> less(x, y) || less(y, x)
    ensures Ascends(less, Insert(less, x, s))
  {
    if s != [] && !less(x, s[0]) {
      var t := s[1..];
      assert forall i :: 0 <= i < |t| ==> t[i] == s[i + 1];
      InsertAscends(less, x, t);
      var r := Insert(less, x, t);
      forall i | 0 <= i < |r| ensures less(s[0], r[i]) {
        InsertElements(less, x, t, r[i]);
        if r[i] != x {
          var j :| 0 <= j < |t| && t[j] == r[i];
        } else {
          assert s[0] in s;
        }
      }
    }
  }

  /** `r` lists the values of `m`, each once, in strictly ascending order. */
  ghost predicate IsListing<K, V>(less: (V, V) -> bool, r: seq<V>, m: map<K, V>) {
    && Ascends(less, r)
    && |r| == |m|
    && (forall k :: k in m ==> m[k] in r)
    && (forall v :: v in r ==> exists k :: k in m && m[k] == v)
  }

  lemma ListOneMore<K, V(!new)>(less: (V, V) -> bool, r: seq<V>, m: map<K, V>, k: K, v: V)
    requires StrictOrder(less) && IsListing(less, r, m) && k !in m
    requires forall l :: l in m ==> less(m[l], v) || less(v, m[l])
    ensures IsListing(less, Insert(less, v, r), m[k := v])
  {
    var r', m' := Insert(less, v, r), m[k := v];
    InsertAscends(less, v, r);
    forall x ensures x in r' <==> x == v || x in r {
      InsertElements(less, v, r, x);
    }
    assert m'.Keys == m.Keys + {k};
    forall x | x in r' ensures exists l :: l in m' && m'[l] == x {
      if x == v {
        assert m'[k] == x;
      } else {
        var l :| l in m && m[l] == x;
        assert m'[l] == x;
      }
    }
  }

  /** `less` tells the values of different keys apart. */
  ghost predicate Comparable<K, V(!new)>(less: (V, V) -> bool, m: map<K, V>) {
    forall k, l :: k in m && l in m && k != l ==> less(m[k], m[l]) || less(m[l], m[k])
  }

  /** One more key is done. */
  lemma KeyDone<K, V>(m: map<K, V>, todo: set<K>, k: K)
    requires k in todo && k in m
    ensures (m - todo)[k := m[k]] == m - (todo - {k})
    ensures forall l :: l in m - todo ==> l in m && l != k && (m - todo)[l] == m[l]
  {
  }

  lemma NoneOrAllDone<K, V>(m: map<K, V>)
    ensures m - m.Keys == map[] && m - {} == m
  {
  }

  lemma ListStep<K, V(!new)>(less: (V, V) -> bool, r: seq<V>, m: map<K, V>, todo: set<K>, k: K)
    requires StrictOrder(less) && Comparable(less, m) && k in todo && k in m && IsListing(less, r, m - todo)
    ensures IsListing(less, Insert(less, m[k], r), m - (todo - {k}))
  {
    KeyDone(m, todo, k);
    ListOneMore(less, r, m - todo, k, m[k]);
  }

  /** `sorted(m.values(), key=...)`, for a key that tells all values of `m` apart. */
  method SortedValues<K(==), V(!new)>(less: (V, V) -> bool, m: map<K, V>) returns (r: seq<V>)
    requires StrictOrder(less)
    requires Comparable(less, m)
    ensures IsListing(less, r, m)
  {
    r := [];
    var todo := m.Keys;
    NoneOrAllDone(m);
    while todo != {}
      invariant todo <= m.Keys
      invariant IsListing(less, r, m - todo)
      decreases |todo|
    {
      var k :| k in todo;
      ListStep(less, r, m, todo, k);
      r := Insert(less, m[k], r);
      todo := todo - {k};
    }
  }

  /** There is only one ascending list of given values: the result does not depend on the
      order in which a dictionary yields them. */
  lemma {:induction false} AscendingUnique<V(!new)>(less: (V, V) -> bool, a: seq<V>, b: seq<V>)
    requires StrictOrder(less) && Ascends(less, a) && Ascends(less, b)
    requires forall v :: v in a <==> v in b
    ensures a == b
  {
    assert b == [] || b[0] in b;
    if a != [] {
      assert a[0] in b && (b != [] ==> b[0] in a);
      var i :| 0 <= i < |b| && b[i] == a[0];
      var j :| 0 <= j < |a| && a[j] == b[0];
      assert a[0] == b[0];
      var s, t := a[1..], b[1..];
      assert forall k :: 0 <= k < |s| ==> s[k] == a[k + 1];
      assert forall k :: 0 <= k < |t| ==> t[k] == b[k + 1];
      forall v ensures v in s <==> v in t {
        TailElements(less, a, v);
        TailElements(less, b, v);
      }
      AscendingUnique(less, s, t);
      assert a == [a[0]] + s && b == [b[0]] + t;
    }
  }

  lemma TailElements<V(!new)>(less: (V, V) -> bool, a: seq<V>, v: V)
    requires StrictOrder(less) && Ascends(less, a) && a != []
    ensures v in a[1..] <==> v in a && v != a[0]
  {
    assert a == [a[0]] + a[1..];
    if v in a[1..] {
      var i :| 0 <= i < |a[1..]| && a[1..][i] == v;
      assert less(a[0], a[i + 1]);
    }
  }
}
