/**
 Sums over maps, sizes of finite sets, and the ascending list of a set of keys.
 */
module Sums {

  ghost function Pick<K>(m: map<K, int>): (k: K)
    requires m.Keys != {}
    ensures k in m
  {
    var k :| k in m.Keys;
    k
  }

  lemma WithoutKey<K>(m: map<K, int>, k: K)
    requires k in m
    ensures (m - {k}).Keys == m.Keys - {k}
    ensures |m - {k}| == |m| - 1
  {
    assert (m - {k}).Keys == m.Keys - {k};
  }

  /** The sum of the values of a map. */
  ghost function Sum<K>(m: map<K, int>): int
    decreases |m|
  {
    if m.Keys == {} then 0
    else
      var k := Pick(m);
      WithoutKey(m, k);
      m[k] + Sum(m - {k})
  }

  lemma SumPicked<K>(m: map<K, int>)
    requires m.Keys != {}
    ensures Sum(m) == m[Pick(m)] + Sum(m - {Pick(m)})
  {
  }

  lemma SumEmpty<K>(m: map<K, int>)
    requires m.Keys == {}
    ensures Sum(m) == 0
  {
  }

  lemma RemoveTwo<K>(m: map<K, int>, j: K, k: K)
    requires j in m && k in m && j != k
    ensures m - {j} - {k} == m - {k} - {j}
    ensures (m - {j})[k] == m[k] && (m - {k})[j] == m[j]
  {
  }

  /** Any key may be taken out first. */
  lemma {:induction false} SumRemove<K>(m: map<K, int>, k: K)
    requires k in m
    ensures Sum(m) == m[k] + Sum(m - {k})
    decreases |m|
  {
    hide Sum, Pick;
    var j := Pick(m);
    SumPicked(m);
    if j == k {
    } else {
      WithoutKey(m, j);
      WithoutKey(m, k);
      RemoveTwo(m, j, k);
      SumRemove(m - {j}, k);
      SumRemove(m - {k}, j);
    }
  }

  /** Writing one entry changes the sum by the difference at that entry. */
  lemma SumUpdate<K>(m: map<K, int>, k: K, v: int)
    ensures Sum(m[k := v]) == Sum(m) - (if k in m then m[k] else 0) + v
  {
    SumRemove(m[k := v], k);
    if k in m {
      assert m[k := v] - {k} == m - {k};
      SumRemove(m, k);
    } else {
      assert m[k := v] - {k} == m;
    }
  }

  /** Sums are linear. */
  lemma {:induction false} SumLinear<K>(m: map<K, int>, n: map<K, int>, c: int, r: map<K, int>)
    requires m.Keys == n.Keys == r.Keys
    requires forall k :: k in m ==> r[k] == m[k] + c * n[k]
    ensures Sum(r) == Sum(m) + c * Sum(n)
    decreases |m|
  {
    hide Sum, Pick;
    if m.Keys == {} {
      SumEmpty(m);
      SumEmpty(n);
      SumEmpty(r);
    } else {
      var k := Pick(m);
      SumRemove(m, k);
      SumRemove(n, k);
      SumRemove(r, k);
      WithoutKey(m, k);
      WithoutKey(n, k);
      WithoutKey(r, k);
      SumLinear(m - {k}, n - {k}, c, r - {k});
      Distribute(c, n[k], Sum(n - {k}));
    }
  }

  lemma MulMonotone(a: nat, b: nat, c: nat, d: nat)
    requires a <= b && c <= d
    ensures a * c <= b * d
  {
    assert a * c <= b * c by { assert (b - a) * c >= 0; }
    assert b * c <= b * d by { assert b * (d - c) >= 0; }
  }

  lemma Distribute(c: int, x: int, y: int)
    ensures c * (x + y) == c * x + c * y
  {
  }

  /** A map with fewer keys and no larger entries, all non-negative, has no larger sum. */
  lemma {:induction false} SumMonotone<K>(m: map<K, int>, n: map<K, int>)
    requires forall k :: k in m ==> k in n && m[k] <= n[k]
    requires forall k :: k in n ==> 0 <= n[k]
    ensures Sum(m) <= Sum(n)
    decreases |n|
  {
    if n.Keys == {} {
      assert m.Keys == {};
    } else {
      var k := Pick(n);
      SumRemove(n, k);
      WithoutKey(n, k);
      if k in m {
        SumRemove(m, k);
        SumMonotone(m - {k}, n - {k});
      } else {
        SumMonotone(m, n - {k});
      }
    }
  }

  /** Entries that are zero may be left out of a sum. */
  lemma {:induction false} SumPadded<K>(m: map<K, int>, n: map<K, int>)
    requires m.Keys <= n.Keys
    requires forall k :: k in n ==> n[k] == (if k in m then m[k] else 0)
    ensures Sum(m) == Sum(n)
    decreases |n|
  {
    if n.Keys == {} {
      assert m.Keys == {};
    } else {
      var a := Pick(n);
      SumRemove(n, a);
      WithoutKey(n, a);
      if a in m {
        SumRemove(m, a);
        SumPadded(m - {a}, n - {a});
      } else {
        SumPadded(m, n - {a});
      }
    }
  }

  lemma SumNonNegative<K>(m: map<K, int>)
    requires forall k :: k in m ==> 0 <= m[k]
    ensures 0 <= Sum(m)
  {
    SumMonotone(map[], m);
  }

  /** No entry of a non-negative map exceeds the sum. */
  lemma SumAtLeastEntry<K>(m: map<K, int>, k: K)
    requires k in m
    requires forall j :: j in m ==> 0 <= m[j]
    ensures m[k] <= Sum(m)
  {
    SumRemove(m, k);
    SumNonNegative(m - {k});
  }

  /** A bound on every entry bounds the sum. */
  lemma {:induction false} SumBound<K>(m: map<K, int>, c: int)
    requires forall k :: k in m ==> m[k] <= c
    ensures Sum(m) <= |m| * c
    decreases |m|
  {
    if m.Keys == {} {
    } else {
      var k := Pick(m);
      SumRemove(m, k);
      WithoutKey(m, k);
      SumBound(m - {k}, c);
      assert |m| * c == (|m| - 1) * c + c;
    }
  }

  lemma {:induction false} SubsetSize<T>(a: set<T>, b: set<T>)
    requires a <= b
    ensures |a| <= |b|
    decreases a
  {
    if a == {} {
    } else {
      var x :| x in a;
      SubsetSize(a - {x}, b - {x});
    }
  }

  /** A sequence has at least as many positions as distinct elements. */
  lemma {:induction false} DistinctAtMostLength<T>(s: set<T>, list: seq<T>)
    requires forall x :: x in s ==> x in list
    ensures |s| <= |list|
    decreases |list|
  {
    if |list| == 0 {
      assert s == {};
    } else {
      var last := list[|list| - 1];
      forall x | x in s - {last} ensures x in list[..|list| - 1] {
        var i :| 0 <= i < |list| && list[i] == x;
        assert list[..|list| - 1][i] == x;
      }
      DistinctAtMostLength(s - {last}, list[..|list| - 1]);
    }
  }

  ghost predicate StrictlyAscending(s: seq<nat>) {
    forall i, j :: 0 <= i < j < |s| ==> s[i] < s[j]
  }

  lemma {:induction false} HasLeast(s: set<nat>) returns (m: nat)
    requires s != {}
    ensures m in s && forall x :: x in s ==> m <= x
    decreases |s|
  {
    m :| m in s;
    var rest := s - {m};
    assert forall x :: x in s ==> x == m || x in rest;
    if rest == {} {
    } else {
      var least := HasLeast(rest);
      if least < m {
        m := least;
      }
    }
  }

  /** The least element of a set. */
  function Least(s: set<nat>): (m: nat)
    requires s != {}
    ensures m in s && forall x :: x in s ==> m <= x
  {
    assert exists m :: m in s && forall x :: x in s ==> m <= x by {
      var m := HasLeast(s);
    }
    var m :| m in s && forall x :: x in s ==> m <= x;
    m
  }

  lemma LeastFirst(s: set<nat>, m: nat, rest: seq<nat>)
    requires m in s && forall x :: x in s ==> m <= x
    requires StrictlyAscending(rest) && forall x :: x in rest <==> x in s - {m}
    ensures StrictlyAscending([m] + rest)
    ensures forall x :: x in [m] + rest <==> x in s
  {
    var list := [m] + rest;
    forall i, j | 0 <= i < j < |list| ensures list[i] < list[j] {
      assert list[j] == rest[j - 1];
      assert rest[j - 1] in s - {m};
    }
    assert forall x :: x in list <==> x == m || x in rest;
  }

  /** The elements of a set in ascending order: how a range query lists the keys of a map. */
  function Ascending(s: set<nat>): (list: seq<nat>)
    ensures StrictlyAscending(list)
    ensures forall x :: x in list <==> x in s
    ensures |list| == |s|
    decreases |s|
  {
    if s == {} then [] else
      var m := Least(s);
      var rest := Ascending(s - {m});
      LeastFirst(s, m, rest);
      [m] + rest
  }

  /** Only one list is ascending and has these elements. */
  lemma {:induction false} AscendingUnique(a: seq<nat>, b: seq<nat>)
    requires StrictlyAscending(a) && StrictlyAscending(b)
    requires forall x :: x in a <==> x in b
    ensures a == b
    decreases |a|
  {
    if a == [] {
      assert forall i :: 0 <= i < |b| ==> b[i] in a;
    } else {
      assert a[0] in b && b != [];
      assert b[0] in a && a[0] == b[0];
      forall x ensures x in a[1..] <==> x in b[1..] {
        TailElement(a, x);
        TailElement(b, x);
      }
      AscendingUnique(a[1..], b[1..]);
      assert a == [a[0]] + a[1..] && b == [b[0]] + b[1..];
    }
  }

  /** In an ascending list, the elements from position `k` on are those after the one before `k`. */
  lemma SuffixElement(all: seq<nat>, k: nat, x: nat)
    requires StrictlyAscending(all) && k <= |all|
    ensures x in all[k..] <==> x in all && (k == 0 || all[k - 1] < x)
  {
    if x in all[k..] {
      var i :| 0 <= i < |all| - k && all[k..][i] == x;
      assert all[k + i] == x;
    }
    if x in all && (k == 0 || all[k - 1] < x) {
      var i :| 0 <= i < |all| && all[i] == x;
      assert i >= k;
      assert all[k..][i - k] == x;
    }
  }

  /** What is listed after the first `k` keys is the rest of the list. */
  lemma AscendingSuffix(s: set<nat>, k: nat, after: set<nat>)
    requires k <= |Ascending(s)|
    requires forall x :: x in after <==> x in s && (k == 0 || Ascending(s)[k - 1] < x)
    ensures Ascending(after) == Ascending(s)[k..]
  {
    hide Ascending;
    var all := Ascending(s);
    forall x ensures x in Ascending(after) <==> x in all[k..] {
      SuffixElement(all, k, x);
    }
    AscendingUnique(Ascending(after), all[k..]);
  }

  lemma TailElement(a: seq<nat>, x: nat)
    requires StrictlyAscending(a) && a != []
    ensures x in a[1..] <==> x in a && x != a[0]
  {
    if x in a && x != a[0] {
      var i :| 0 <= i < |a| && a[i] == x;
      assert a[1..][i - 1] == x;
    }
  }
}
