/**
 * A stable sort into descending key order, what Python's
 * `sorted(xs, key=key, reverse=True)` computes, and the facts that pin its
 * result down: sorted, a permutation, stable, and unique with these.
 */
module StableSort {

  /** Keys never increase along `s`. */
  predicate SortedDesc<T>(key: T -> nat, s: seq<T>) {
    forall i, j :: 0 <= i < j < |s| ==> key(s[i]) >= key(s[j])
  }

  /** The elements of `s` whose key is `q`, in their order in `s`. */
  function WithKey<T>(key: T -> nat, s: seq<T>, q: nat): seq<T> {
    if s == [] then []
    else (if key(s[0]) == q then [s[0]] else []) + WithKey(key, s[1..], q)
  }

  /**
   * `r` orders the elements of `s` stably: for every key, the elements with
   * that key appear in `r` in the same order as in `s`.
   */
  ghost predicate StableOrder<T>(key: T -> nat, r: seq<T>, s: seq<T>) {
    forall q: nat :: WithKey(key, r, q) == WithKey(key, s, q)
  }

  /** Puts `x` in front of the first element whose key is not higher. */
  function Insert<T>(key: T -> nat, x: T, t: seq<T>): seq<T> {
    if t == [] || key(t[0]) <= key(x) then [x] + t
    else [t[0]] + Insert(key, x, t[1..])
  }

  /** Stable descending sort: insert each element in front of its sorted tail. */
  function Sort<T(==)>(key: T -> nat, s: seq<T>): (r: seq<T>)
    ensures SortedDesc(key, r)
    ensures multiset(r) == multiset(s)
  {
    if s == [] then []
    else
      InsertSorted(key, s[0], Sort(key, s[1..]));
      InsertPermutes(key, s[0], Sort(key, s[1..]));
      assert s == [s[0]] + s[1..];
      Insert(key, s[0], Sort(key, s[1..]))
  }

  /** Inserting adds `x` and keeps every other element. */
  lemma {:induction false} InsertPermutes<T>(key: T -> nat, x: T, t: seq<T>)
    ensures multiset(Insert(key, x, t)) == multiset(t) + multiset{x}
  {
    if t != [] && key(t[0]) > key(x) {
      InsertPermutes(key, x, t[1..]);
      assert t == [t[0]] + t[1..];
    }
  }

  /** Inserting below a bound keeps every key below that bound. */
  lemma {:induction false} InsertBounded<T>(key: T -> nat, x: T, t: seq<T>, b: nat)
    requires key(x) <= b
    requires forall j :: 0 <= j < |t| ==> key(t[j]) <= b
    ensures forall j :: 0 <= j < |Insert(key, x, t)| ==> key(Insert(key, x, t)[j]) <= b
  {
    if t != [] && key(t[0]) > key(x) {
      InsertBounded(key, x, t[1..], b);
    }
  }

  /** Inserting into a sorted sequence keeps it sorted. */
  lemma {:induction false} InsertSorted<T>(key: T -> nat, x: T, t: seq<T>)
    requires SortedDesc(key, t)
    ensures SortedDesc(key, Insert(key, x, t))
  {
    if t != [] && key(t[0]) > key(x) {
      InsertSorted(key, x, t[1..]);
      InsertBounded(key, x, t[1..], key(t[0]));
      assert Insert(key, x, t) == [t[0]] + Insert(key, x, t[1..]);
    }
  }

  /** The elements of key `q` in `[y] + s`. */
  lemma WithKeyCons<T>(key: T -> nat, y: T, s: seq<T>, q: nat)
    ensures WithKey(key, [y] + s, q) == (if key(y) == q then [y] else []) + WithKey(key, s, q)
  {
  }

  /** `WithKey` holds exactly the elements of `s` with key `q`. */
  lemma {:induction false} WithKeyMembers<T>(key: T -> nat, s: seq<T>, q: nat, y: T)
    ensures y in WithKey(key, s, q) <==> y in s && key(y) == q
  {
    if s != [] {
      WithKeyMembers(key, s[1..], q, y);
      assert s == [s[0]] + s[1..];
    }
  }

  /** Inserting `x` puts it in front of the other elements of its key. */
  lemma {:induction false} InsertStable<T>(key: T -> nat, x: T, t: seq<T>, q: nat)
    ensures WithKey(key, Insert(key, x, t), q) == (if key(x) == q then [x] else []) + WithKey(key, t, q)
  {
    if t != [] && key(t[0]) > key(x) {
      InsertStable(key, x, t[1..], q);
      WithKeyCons(key, t[0], Insert(key, x, t[1..]), q);
      WithKeyCons(key, t[0], t[1..], q);
      assert t == [t[0]] + t[1..];
    } else {
      WithKeyCons(key, x, t, q);
    }
  }

  /** The sort is stable: elements with equal keys keep their input order. */
  lemma {:induction false} SortStable<T>(key: T -> nat, s: seq<T>)
    ensures StableOrder(key, Sort(key, s), s)
  {
    if s != [] {
      SortStable(key, s[1..]);
      forall q: nat ensures WithKey(key, Sort(key, s), q) == WithKey(key, s, q) {
        InsertStable(key, s[0], Sort(key, s[1..]), q);
        WithKeyCons(key, s[0], s[1..], q);
        assert s == [s[0]] + s[1..];
      }
    }
  }

  /** The first elements of two stable sorted arrangements have equal keys. */
  lemma SameLeadingKey<T>(key: T -> nat, r1: seq<T>, r2: seq<T>)
    requires r1 != [] && r2 != []
    requires SortedDesc(key, r1) && SortedDesc(key, r2)
    requires StableOrder(key, r1, r2)
    ensures key(r1[0]) == key(r2[0])
  {
    var a, b := r1[0], r2[0];
    WithKeyMembers(key, r1, key(a), a);
    WithKeyMembers(key, r2, key(a), a);
    assert a in WithKey(key, r2, key(a));
    WithKeyMembers(key, r2, key(b), b);
    WithKeyMembers(key, r1, key(b), b);
    assert b in WithKey(key, r1, key(b));
    var i :| 0 <= i < |r2| && r2[i] in WithKey(key, r2, key(a)) && r2[i] == a;
    var j :| 0 <= j < |r1| && r1[j] in WithKey(key, r1, key(b)) && r1[j] == b;
  }

  /**
   * A sorted, stable arrangement is unique: two sequences sorted by key
   * that agree on the order within every key are equal. So every stable
   * descending sort returns what `Sort` returns.
   */
  lemma {:induction false} StableSortUnique<T>(key: T -> nat, r1: seq<T>, r2: seq<T>)
    requires SortedDesc(key, r1) && SortedDesc(key, r2)
    requires StableOrder(key, r1, r2)
    ensures r1 == r2
    decreases |r1|
  {
    if r1 == [] || r2 == [] {
      if r1 != [] {
        WithKeyMembers(key, r1, key(r1[0]), r1[0]);
        assert false;
      } else if r2 != [] {
        WithKeyMembers(key, r2, key(r2[0]), r2[0]);
        assert false;
      }
    } else {
      SameLeadingKey(key, r1, r2);
      var q0 := key(r1[0]);
      assert r1 == [r1[0]] + r1[1..] && r2 == [r2[0]] + r2[1..];
      WithKeyCons(key, r1[0], r1[1..], q0);
      WithKeyCons(key, r2[0], r2[1..], q0);
      assert WithKey(key, r1, q0) == WithKey(key, r2, q0);
      assert r1[0] == WithKey(key, r1, q0)[0] == r2[0];
      forall q: nat ensures WithKey(key, r1[1..], q) == WithKey(key, r2[1..], q) {
        WithKeyCons(key, r1[0], r1[1..], q);
        WithKeyCons(key, r2[0], r2[1..], q);
        assert WithKey(key, r1, q) == WithKey(key, r2, q);
        assert WithKey(key, r1, q) == (if key(r1[0]) == q then [r1[0]] else []) + WithKey(key, r1[1..], q);
        assert WithKey(key, r2, q) == (if key(r1[0]) == q then [r1[0]] else []) + WithKey(key, r2[1..], q);
        if key(r1[0]) == q {
          assert WithKey(key, r1[1..], q) == WithKey(key, r1, q)[1..];
          assert WithKey(key, r2[1..], q) == WithKey(key, r2, q)[1..];
        } else {
          assert WithKey(key, r1, q) == WithKey(key, r1[1..], q);
          assert WithKey(key, r2, q) == WithKey(key, r2[1..], q);
        }
      }
      StableSortUnique(key, r1[1..], r2[1..]);
    }
  }
}
