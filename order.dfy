/** Python's ordering of `str` values (lexicographic by code point, a proper prefix
    first) and `sorted()` on a list of strings. */
module Order {

  /** `a <= b` on Python strings. */
  predicate Leq(a: string, b: string)
    decreases |a|
  {
    a == [] || (b != [] && (a[0] < b[0] || (a[0] == b[0] && Leq(a[1..], b[1..]))))
  }

  lemma {:induction false} LeqTotal(a: string, b: string)
    ensures Leq(a, b) || Leq(b, a)
    decreases |a|
  {
    if a != [] && b != [] && a[0] == b[0] {
      LeqTotal(a[1..], b[1..]);
    }
  }

  lemma {:induction false} LeqTrans(a: string, b: string, c: string)
    requires Leq(a, b) && Leq(b, c)
    ensures Leq(a, c)
    decreases |a|
  {
    if a != [] && a[0] == b[0] && b[0] == c[0] {
      LeqTrans(a[1..], b[1..], c[1..]);
    }
  }

  lemma {:induction false} LeqAntisymmetric(a: string, b: string)
    requires Leq(a, b) && Leq(b, a)
    ensures a == b
    decreases |a|
  {
    if a != [] {
      LeqAntisymmetric(a[1..], b[1..]);
      assert a == [a[0]] + a[1..] && b == [b[0]] + b[1..];
    }
  }

  /** A common head does not change the order: `p + a <= p + b` exactly when
      `a <= b`. */
  lemma {:induction false} LeqCommonPrefix(p: string, a: string, b: string)
    ensures Leq(p + a, p + b) == Leq(a, b)
    decreases |p|
  {
    if p == [] {
      assert p + a == a && p + b == b;
    } else {
      assert (p + a)[1..] == p[1..] + a;
      assert (p + b)[1..] == p[1..] + b;
      LeqCommonPrefix(p[1..], a, b);
    }
  }

  ghost predicate Sorted(s: seq<string>) {
    forall i, j :: 0 <= i < j < |s| ==> Leq(s[i], s[j])
  }

  /** Insert `x` before the first element it does not exceed. */
  function Insert(x: string, s: seq<string>): seq<string>
    decreases |s|
  {
    if s == [] then [x]
    else if Leq(x, s[0]) then [x] + s
    else [s[0]] + Insert(x, s[1..])
  }

  /** `sorted(s)` (insertion sort; strings that compare equal are identical, so
      stability does not show). */
  function Sort(s: seq<string>): seq<string>
    decreases |s|
  {
    if s == [] then [] else Insert(s[0], Sort(s[1..]))
  }

  lemma {:induction false} InsertPermutes(x: string, s: seq<string>)
    ensures multiset(Insert(x, s)) == multiset(s) + multiset{x}
    decreases |s|
  {
    if s != [] && !Leq(x, s[0]) {
      InsertPermutes(x, s[1..]);
      assert s == [s[0]] + s[1..];
    }
  }

  lemma {:induction false} InsertSorted(x: string, s: seq<string>)
    requires Sorted(s)
    ensures Sorted(Insert(x, s))
    decreases |s|
  {
    if s != [] && Leq(x, s[0]) {
      var r := [x] + s;
      forall i, j | 0 <= i < j < |r| ensures Leq(r[i], r[j]) {
        if i == 0 && j > 1 {
          LeqTrans(x, s[0], s[j - 1]);
        } else if i > 0 {
          assert r[i] == s[i - 1] && r[j] == s[j - 1];
        }
      }
    } else if s != [] {
      var t := s[1..];
      InsertSorted(x, t);
      InsertPermutes(x, t);
      LeqTotal(x, s[0]);
      var u := Insert(x, t);
      forall k | 0 <= k < |u| ensures Leq(s[0], u[k]) {
        assert u[k] in multiset(u);
        if u[k] != x {
          assert u[k] in multiset(t);
          var m :| 0 <= m < |t| && t[m] == u[k];
          assert s[m + 1] == t[m];
        }
      }
      var r := [s[0]] + u;
      forall i, j | 0 <= i < j < |r| ensures Leq(r[i], r[j]) {
        if i > 0 {
          assert r[i] == u[i - 1] && r[j] == u[j - 1];
        }
      }
    }
  }

  /** `sorted(s)` is ascending and holds exactly the elements of `s`, each as
      often as in `s`. */
  lemma {:induction false} SortSpec(s: seq<string>)
    ensures Sorted(Sort(s))
    ensures multiset(Sort(s)) == multiset(s)
    decreases |s|
  {
    if s != [] {
      SortSpec(s[1..]);
      InsertSorted(s[0], Sort(s[1..]));
      InsertPermutes(s[0], Sort(s[1..]));
      assert s == [s[0]] + s[1..];
    }
  }

  /** Every element prefixed with `p`. */
  function PrefixAll(p: string, s: seq<string>): (r: seq<string>)
    ensures |r| == |s|
    ensures forall i :: 0 <= i < |s| ==> r[i] == p + s[i]
    decreases |s|
  {
    if s == [] then [] else [p + s[0]] + PrefixAll(p, s[1..])
  }

  lemma {:induction false} InsertPrefixAll(p: string, x: string, s: seq<string>)
    ensures Insert(p + x, PrefixAll(p, s)) == PrefixAll(p, Insert(x, s))
    decreases |s|
  {
    if s != [] {
      LeqCommonPrefix(p, x, s[0]);
      assert PrefixAll(p, s)[1..] == PrefixAll(p, s[1..]);
      InsertPrefixAll(p, x, s[1..]);
    }
  }

  /** Sorting strings that share a head `p` orders them by what follows it:
      `sorted([p + x for x in s]) == [p + x for x in sorted(s)]`. */
  lemma {:induction false} SortPrefixAll(p: string, s: seq<string>)
    ensures Sort(PrefixAll(p, s)) == PrefixAll(p, Sort(s))
    decreases |s|
  {
    if s != [] {
      assert PrefixAll(p, s)[1..] == PrefixAll(p, s[1..]);
      SortPrefixAll(p, s[1..]);
      InsertPrefixAll(p, s[0], Sort(s[1..]));
    }
  }
}
