/**
 * Word/count tables in dictionary insertion order, and Python's
 * `sorted(table.items(), key=lambda x: x[1], reverse=True)`: a stable sort by
 * count, highest first, in which words with equal counts keep their table order.
 */
module Ranking {

  type Entry = (string, int)

  predicate NonIncreasing(s: seq<Entry>) {
    forall i, j :: 0 <= i < j < |s| ==> s[i].1 >= s[j].1
  }

  /** The entries of `s` whose count is `c`, in their order in `s`. */
  function WithCount(s: seq<Entry>, c: int): seq<Entry> {
    if s == [] then [] else (if s[0].1 == c then [s[0]] else []) + WithCount(s[1..], c)
  }

  /** Puts `x` before the first entry of `t` whose count is not above `x`'s. */
  function Insert(x: Entry, t: seq<Entry>): (r: seq<Entry>)
    ensures |r| == |t| + 1
  {
    if t == [] || x.1 >= t[0].1 then [x] + t else [t[0]] + Insert(x, t[1..])
  }

  lemma {:induction false} InsertKeepsOrder(x: Entry, t: seq<Entry>)
    requires NonIncreasing(t)
    ensures multiset(Insert(x, t)) == multiset([x] + t)
    ensures NonIncreasing(Insert(x, t))
    ensures WithCount(Insert(x, t), x.1) == [x] + WithCount(t, x.1)
    ensures forall c :: c != x.1 ==> WithCount(Insert(x, t), c) == WithCount(t, c)
  {
    InsertMultiset(x, t);
    InsertSorted(x, t);
    InsertWithCount(x, t);
  }

  lemma {:induction false} InsertMultiset(x: Entry, t: seq<Entry>)
    ensures multiset(Insert(x, t)) == multiset([x] + t)
  {
    if t != [] && x.1 < t[0].1 {
      InsertMultiset(x, t[1..]);
      assert t == [t[0]] + t[1..];
      assert multiset([x] + t) == multiset([t[0]] + ([x] + t[1..]));
    }
  }

  lemma {:induction false} InsertSorted(x: Entry, t: seq<Entry>)
    requires NonIncreasing(t)
    ensures NonIncreasing(Insert(x, t))
  {
    if t != [] && x.1 < t[0].1 {
      var u := Insert(x, t[1..]);
      InsertSorted(x, t[1..]);
      InsertHead(x, t[1..]);
      assert t[0].1 >= u[0].1;
      assert Insert(x, t) == [t[0]] + u;
    }
  }

  /** The head of `Insert(x, t)` is `x` or the head of `t`. */
  lemma {:induction false} InsertHead(x: Entry, t: seq<Entry>)
    ensures Insert(x, t)[0] == x || (t != [] && Insert(x, t)[0] == t[0])
  {
  }

  lemma {:induction false} InsertWithCount(x: Entry, t: seq<Entry>)
    ensures WithCount(Insert(x, t), x.1) == [x] + WithCount(t, x.1)
    ensures forall c :: c != x.1 ==> WithCount(Insert(x, t), c) == WithCount(t, c)
  {
    InsertWithOwnCount(x, t);
    forall c | c != x.1 ensures WithCount(Insert(x, t), c) == WithCount(t, c) {
      InsertWithOtherCount(x, t, c);
    }
  }

  lemma {:induction false} InsertWithOwnCount(x: Entry, t: seq<Entry>)
    ensures WithCount(Insert(x, t), x.1) == [x] + WithCount(t, x.1)
  {
    if t != [] && x.1 < t[0].1 {
      InsertWithOwnCount(x, t[1..]);
      WithCountCons(t[0], Insert(x, t[1..]), x.1);
      WithCountCons(t[0], t[1..], x.1);
      assert t == [t[0]] + t[1..];
    } else {
      WithCountCons(x, t, x.1);
    }
  }

  lemma {:induction false} WithCountCons(e: Entry, u: seq<Entry>, c: int)
    ensures WithCount([e] + u, c) == (if e.1 == c then [e] else []) + WithCount(u, c)
  {
    assert ([e] + u)[1..] == u;
  }

  lemma {:induction false} InsertWithOtherCount(x: Entry, t: seq<Entry>, c: int)
    requires c != x.1
    ensures WithCount(Insert(x, t), c) == WithCount(t, c)
  {
    if t != [] && x.1 < t[0].1 {
      InsertWithOtherCount(x, t[1..], c);
      WithCountCons(t[0], Insert(x, t[1..]), c);
      WithCountCons(t[0], t[1..], c);
      assert t == [t[0]] + t[1..];
    } else {
      WithCountCons(x, t, c);
    }
  }

  /** The stable descending sort of `s` by count. */
  function SortDesc(s: seq<Entry>): (r: seq<Entry>)
    ensures NonIncreasing(r)
    ensures multiset(r) == multiset(s)
    ensures |r| == |s|
    ensures forall c :: WithCount(r, c) == WithCount(s, c)
  {
    if s == [] then []
    else
      var t := SortDesc(s[1..]);
      InsertKeepsOrder(s[0], t);
      assert s == [s[0]] + s[1..];
      Insert(s[0], t)
  }

  /** `s[:n]` with Python's reading of a negative `n` (drop that many from the end). */
  function Take<T>(s: seq<T>, n: int): (r: seq<T>)
    ensures |r| <= |s|
    ensures n >= 0 ==> |r| == if n < |s| then n else |s|
    ensures n < 0 ==> |r| == if |s| + n >= 0 then |s| + n else 0
    ensures r == s[..|r|]
  {
    if n >= |s| then s
    else if n >= 0 then s[..n]
    else if |s| + n >= 0 then s[..|s| + n]
    else []
  }

  /** The words of a table, in order. */
  function Words(s: seq<Entry>): (r: seq<string>)
    ensures |r| == |s|
    ensures forall i :: 0 <= i < |s| ==> r[i] == s[i].0
  {
    if s == [] then [] else [s[0].0] + Words(s[1..])
  }

  /**
   * The `n` highest-count entries of `s`: at most `n` of them, highest count
   * first, every entry left out has a count no higher than every entry kept,
   * and equal counts in table order.
   */
  function TopN(s: seq<Entry>, n: nat): (r: seq<Entry>)
    ensures |r| == if n < |s| then n else |s|
    ensures NonIncreasing(r)
    ensures multiset(r) <= multiset(s)
    ensures r == SortDesc(s)[..|r|]
  {
    var sorted := SortDesc(s);
    var r := Take(sorted, n);
    assert sorted == r + sorted[|r|..];
    assert multiset(sorted) == multiset(r) + multiset(sorted[|r|..]);
    r
  }

  /** Everything `TopN` leaves out ranks no higher than anything it keeps. */
  lemma {:induction false} TopNCutsAtCount(s: seq<Entry>, n: nat, x: Entry)
    requires x in SortDesc(s)[|TopN(s, n)|..]
    ensures forall y :: y in TopN(s, n) ==> y.1 >= x.1
  {
    var sorted := SortDesc(s);
    var k := |TopN(s, n)|;
    var xi :| 0 <= xi < |sorted[k..]| && sorted[k..][xi] == x;
    forall y | y in TopN(s, n) ensures y.1 >= x.1 {
      var yi :| 0 <= yi < k && sorted[yi] == y;
      assert sorted[k + xi] == x;
    }
  }

  /**
   * Independent characterisation of the stable sort: a non-increasing
   * sequence that keeps, count by count, the entries of `s` in their order
   * is exactly `SortDesc(s)`.
   */
  lemma {:induction false} StableSortUnique(s: seq<Entry>, r: seq<Entry>)
    requires NonIncreasing(r)
    requires forall c :: WithCount(r, c) == WithCount(s, c)
    ensures r == SortDesc(s)
  {
    SortedByCountUnique(r, SortDesc(s));
  }

  lemma {:induction false} WithCountHead(s: seq<Entry>)
    ensures s != [] ==> WithCount(s, s[0].1) != [] && WithCount(s, s[0].1)[0] == s[0]
  {
  }

  lemma {:induction false} WithCountAbove(s: seq<Entry>, c: int)
    ensures NonIncreasing(s) && s != [] && s[0].1 < c ==> WithCount(s, c) == []
  {
    if NonIncreasing(s) && |s| > 1 && s[0].1 < c {
      WithCountAbove(s[1..], c);
    }
  }

  lemma {:induction false} SortedByCountUnique(a: seq<Entry>, b: seq<Entry>)
    requires NonIncreasing(a) && NonIncreasing(b)
    requires forall c :: WithCount(a, c) == WithCount(b, c)
    ensures a == b
    decreases |a| + |b|
  {
    WithCountHead(a);
    WithCountHead(b);
    if a == [] && b == [] {
    } else if a == [] || b == [] {
      assert false;
    } else if a[0].1 != b[0].1 {
      WithCountAbove(a, b[0].1);
      WithCountAbove(b, a[0].1);
      assert false;
    } else {
      var c0 := a[0].1;
      assert a[0] == b[0];
      forall c ensures WithCount(a[1..], c) == WithCount(b[1..], c) {
        assert WithCount(a, c) == WithCount(b, c);
        if c == c0 {
          assert WithCount(a[1..], c) == WithCount(a, c)[1..];
          assert WithCount(b[1..], c) == WithCount(b, c)[1..];
        } else {
          assert WithCount(a[1..], c) == WithCount(a, c);
          assert WithCount(b[1..], c) == WithCount(b, c);
        }
      }
      SortedByCountUnique(a[1..], b[1..]);
      assert a == [a[0]] + a[1..] && b == [b[0]] + b[1..];
    }
  }
}
