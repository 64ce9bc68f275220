/** The stable sort of keyed values, as `Array.prototype.sort` does it with a comparison of keys. */
module StableSort {

  datatype Keyed<T> = Keyed(key: int, value: T)

  /** `s` with `x` put behind everything not greater. */
  function Insert<T>(s: seq<Keyed<T>>, x: Keyed<T>): seq<Keyed<T>> {
    if s == [] || s[|s| - 1].key <= x.key then s + [x]
    else Insert(s[..|s| - 1], x) + [s[|s| - 1]]
  }

  function Sort<T>(s: seq<Keyed<T>>): seq<Keyed<T>> {
    if s == [] then [] else Insert(Sort(s[..|s| - 1]), s[|s| - 1])
  }

  /** The values of one key, in order. */
  function OfKey<T>(s: seq<Keyed<T>>, k: int): seq<Keyed<T>> {
    if s == [] then []
    else OfKey(s[..|s| - 1], k) + if s[|s| - 1].key == k then [s[|s| - 1]] else []
  }

  ghost predicate Sorted<T>(s: seq<Keyed<T>>) {
    forall i, j | 0 <= i < j < |s| :: s[i].key <= s[j].key
  }

  lemma {:induction false} InsertBelow<T>(s: seq<Keyed<T>>, x: Keyed<T>, bound: int)
    requires x.key <= bound && forall y <- s :: y.key <= bound
    ensures forall y <- Insert(s, x) :: y.key <= bound
  {
    if s != [] && s[|s| - 1].key > x.key {
      assert forall y <- s[..|s| - 1] :: y in s;
      InsertBelow(s[..|s| - 1], x, bound);
    }
  }

  lemma {:induction false} InsertSorts<T>(s: seq<Keyed<T>>, x: Keyed<T>)
    requires Sorted(s)
    ensures Sorted(Insert(s, x))
  {
    if s != [] && s[|s| - 1].key > x.key {
      var init := s[..|s| - 1];
      InsertSorts(init, x);
      forall y <- init ensures y.key <= s[|s| - 1].key { var i :| 0 <= i < |init| && init[i] == y; assert s[i] == y; }
      InsertBelow(init, x, s[|s| - 1].key);
      assert forall i | 0 <= i < |Insert(init, x)| :: Insert(init, x)[i] in Insert(init, x);
    }
  }

  lemma {:induction false} InsertOfKey<T>(s: seq<Keyed<T>>, x: Keyed<T>, k: int)
    requires Sorted(s)
    ensures OfKey(Insert(s, x), k) == OfKey(s, k) + if x.key == k then [x] else []
  {
    if s == [] || s[|s| - 1].key <= x.key {
      assert (s + [x])[..|s|] == s;
    } else {
      var init, last := s[..|s| - 1], s[|s| - 1];
      InsertOfKey(init, x, k);
      var r := Insert(init, x);
      assert (r + [last])[..|r|] == r;
      assert OfKey(r + [last], k) == OfKey(r, k) + if last.key == k then [last] else [];
    }
  }

  lemma {:induction false} SortKeeps<T>(s: seq<Keyed<T>>, k: int)
    ensures Sorted(Sort(s)) && OfKey(Sort(s), k) == OfKey(s, k)
  {
    if s != [] {
      SortKeeps(s[..|s| - 1], k);
      InsertSorts(Sort(s[..|s| - 1]), s[|s| - 1]);
      InsertOfKey(Sort(s[..|s| - 1]), s[|s| - 1], k);
    }
  }

  lemma {:induction false} OfKeyHolds<T>(s: seq<Keyed<T>>, k: int, x: Keyed<T>)
    ensures x in OfKey(s, k) <==> x in s && x.key == k
  {
    if s != [] {
      OfKeyHolds(s[..|s| - 1], k, x);
      assert s == s[..|s| - 1] + [s[|s| - 1]];
    }
  }

  /** The two lists have, for every key, the same values in the same order. */
  ghost predicate SamePerKey<T>(a: seq<Keyed<T>>, b: seq<Keyed<T>>) {
    forall k :: OfKey(a, k) == OfKey(b, k)
  }

  /** The last of one list is, by key, matched in the other. */
  lemma LastIsMatched<T>(a: seq<Keyed<T>>, b: seq<Keyed<T>>)
    requires SamePerKey(a, b) && a != []
    ensures b != [] && exists y <- b :: y.key == a[|a| - 1].key
  {
    var x := a[|a| - 1];
    OfKeyHolds(a, x.key, x);
    assert OfKey(a, x.key) == OfKey(b, x.key);
    OfKeyHolds(b, x.key, x);
  }

  lemma LastIsGreatest<T>(a: seq<Keyed<T>>, y: Keyed<T>)
    requires Sorted(a) && y in a
    ensures y.key <= a[|a| - 1].key
  {
  }

  lemma LastOfKey<T>(a: seq<Keyed<T>>)
    requires a != []
    ensures var x := a[|a| - 1]; var same := OfKey(a, x.key); same != [] && same[|same| - 1] == x
  {
  }

  lemma LastsAgree<T>(a: seq<Keyed<T>>, b: seq<Keyed<T>>)
    requires Sorted(a) && Sorted(b) && a != [] && b != [] && SamePerKey(a, b)
    ensures a[|a| - 1] == b[|b| - 1]
  {
    var x, y := a[|a| - 1], b[|b| - 1];
    LastIsMatched(a, b);
    LastIsMatched(b, a);
    var y' :| y' in b && y'.key == x.key;
    var x' :| x' in a && x'.key == y.key;
    LastIsGreatest(b, y');
    LastIsGreatest(a, x');
    LastOfKey(a);
    LastOfKey(b);
    assert OfKey(a, x.key) == OfKey(b, x.key);
  }

  lemma Cancel<T>(a: seq<T>, b: seq<T>, x: T)
    requires a + [x] == b + [x]
    ensures a == b
  {
    assert (a + [x])[..|a|] == a && (b + [x])[..|b|] == b;
  }

  lemma InitsAgree<T>(a: seq<Keyed<T>>, b: seq<Keyed<T>>)
    requires a != [] && b != [] && a[|a| - 1] == b[|b| - 1] && SamePerKey(a, b)
    ensures SamePerKey(a[..|a| - 1], b[..|b| - 1])
  {
    var last, a', b' := a[|a| - 1], a[..|a| - 1], b[..|b| - 1];
    forall k ensures OfKey(a', k) == OfKey(b', k) {
      assert OfKey(a, k) == OfKey(b, k);
      if last.key == k {
        Cancel(OfKey(a', k), OfKey(b', k), last);
      } else {
        assert OfKey(a', k) + [] == OfKey(a', k) && OfKey(b', k) + [] == OfKey(b', k);
      }
    }
  }

  /** A sorted list is determined by its values of each key. */
  lemma {:induction false} SortedIsUnique<T>(a: seq<Keyed<T>>, b: seq<Keyed<T>>)
    requires Sorted(a) && Sorted(b) && SamePerKey(a, b)
    ensures a == b
  {
    if a == [] {
      if b != [] { LastIsMatched(b, a); }
    } else {
      LastIsMatched(a, b);
      LastsAgree(a, b);
      InitsAgree(a, b);
      SortedIsUnique(a[..|a| - 1], b[..|b| - 1]);
      assert a == a[..|a| - 1] + [a[|a| - 1]] && b == b[..|b| - 1] + [b[|b| - 1]];
    }
  }

  /** Two lists sort to the same one exactly when, for every key, they have the same values in the same order. */
  lemma SortEqualIff<T>(a: seq<Keyed<T>>, b: seq<Keyed<T>>)
    ensures Sort(a) == Sort(b) <==> SamePerKey(a, b)
  {
    forall k ensures OfKey(Sort(a), k) == OfKey(a, k) && OfKey(Sort(b), k) == OfKey(b, k) {
      SortKeeps(a, k);
      SortKeeps(b, k);
    }
    SortKeeps(a, 0);
    SortKeeps(b, 0);
    if SamePerKey(a, b) {
      assert SamePerKey(Sort(a), Sort(b));
      SortedIsUnique(Sort(a), Sort(b));
    }
  }
}
