/**
 * `collections.Counter(tokens)` turned into a dict: one entry per distinct
 * token, in the order each token first occurs, holding its number of
 * occurrences.
 */
module Counting {
  import opened Ranking

  /** How many times `w` occurs in `s`. */
  function Occurrences(s: seq<string>, w: string): nat {
    if s == [] then 0 else Occurrences(s[..|s| - 1], w) + (if s[|s| - 1] == w then 1 else 0)
  }

  /** Index of the first occurrence of `w` in `s`. */
  function FirstIndex(s: seq<string>, w: string): (k: nat)
    requires w in s
    ensures k < |s| && s[k] == w && w !in s[..k]
  {
    if s[0] == w then 0 else FirstIndex(s[1..], w) + 1
  }

  predicate DistinctWords(t: seq<Entry>) {
    forall i, j :: 0 <= i < j < |t| ==> t[i].0 != t[j].0
  }

  /** `t.get(w, 0)`. */
  function Get(t: seq<Entry>, w: string): int {
    if t == [] then 0 else if t[0].0 == w then t[0].1 else Get(t[1..], w)
  }

  function Total(t: seq<Entry>): int {
    if t == [] then 0 else t[0].1 + Total(t[1..])
  }

  /** `counter[w] += 1`: an existing entry is updated where it stands, a new one goes last. */
  function Bump(t: seq<Entry>, w: string): seq<Entry> {
    if t == [] then [(w, 1)]
    else if t[0].0 == w then [(w, t[0].1 + 1)] + t[1..]
    else [t[0]] + Bump(t[1..], w)
  }

  lemma {:induction false} BumpFacts(t: seq<Entry>, w: string)
    requires DistinctWords(t)
    ensures DistinctWords(Bump(t, w))
    ensures Words(Bump(t, w)) == if w in Words(t) then Words(t) else Words(t) + [w]
    ensures forall v :: Get(Bump(t, w), v) == Get(t, v) + (if v == w then 1 else 0)
    ensures Total(Bump(t, w)) == Total(t) + 1
  {
    BumpWords(t, w);
    BumpDistinct(t, w);
    BumpGet(t, w);
    BumpTotal(t, w);
  }

  /** A bumped word keeps its place; a new word goes last. */
  lemma {:induction false} BumpWords(t: seq<Entry>, w: string)
    ensures Words(Bump(t, w)) == if w in Words(t) then Words(t) else Words(t) + [w]
  {
    if t != [] {
      assert Words(t) == [t[0].0] + Words(t[1..]);
      if t[0].0 != w {
        BumpWords(t[1..], w);
        assert Words(Bump(t, w)) == [t[0].0] + Words(Bump(t[1..], w));
      } else {
        assert Words(Bump(t, w)) == [w] + Words(t[1..]);
      }
    }
  }

  lemma {:induction false} BumpDistinct(t: seq<Entry>, w: string)
    requires DistinctWords(t)
    ensures DistinctWords(Bump(t, w))
  {
    var b := Bump(t, w);
    BumpWords(t, w);
    forall i, j | 0 <= i < j < |b| ensures b[i].0 != b[j].0 {
      assert b[i].0 == Words(b)[i] && b[j].0 == Words(b)[j];
      if j < |t| {
        assert Words(t)[i] == t[i].0 && Words(t)[j] == t[j].0;
      } else {
        assert Words(b)[i] == Words(t)[i];
      }
    }
  }

  lemma {:induction false} BumpGet(t: seq<Entry>, w: string)
    ensures forall v :: Get(Bump(t, w), v) == Get(t, v) + (if v == w then 1 else 0)
  {
    if t != [] && t[0].0 != w {
      BumpGet(t[1..], w);
    }
  }

  lemma {:induction false} BumpTotal(t: seq<Entry>, w: string)
    ensures Total(Bump(t, w)) == Total(t) + 1
  {
    if t != [] && t[0].0 != w {
      BumpTotal(t[1..], w);
    }
  }

  lemma {:induction false} GetAbsent(t: seq<Entry>, w: string)
    requires w !in Words(t)
    ensures Get(t, w) == 0
  {
    if t != [] {
      assert Words(t) == [t[0].0] + Words(t[1..]);
      GetAbsent(t[1..], w);
    }
  }

  /** In a table with distinct words, `Get` finds each entry's own count. */
  lemma {:induction false} GetAt(t: seq<Entry>, i: nat)
    requires DistinctWords(t) && i < |t|
    ensures Get(t, t[i].0) == t[i].1
  {
    if i > 0 {
      GetAt(t[1..], i - 1);
    }
  }

  /** The distinct elements of `s`, each at its first occurrence. */
  function Dedup(s: seq<string>): (r: seq<string>)
    ensures forall w :: w in r <==> w in s
  {
    if s == [] then []
    else
      var d := Dedup(s[..|s| - 1]);
      assert s == s[..|s| - 1] + [s[|s| - 1]];
      if s[|s| - 1] in d then d else d + [s[|s| - 1]]
  }

  /** `dict(Counter(tokens))`. */
  function Count(tokens: seq<string>): (r: seq<Entry>)
    ensures DistinctWords(r)
    ensures Words(r) == Dedup(tokens)
    ensures forall w :: Get(r, w) == Occurrences(tokens, w)
    ensures Total(r) == |tokens|
  {
    if tokens == [] then []
    else
      var t := Count(tokens[..|tokens| - 1]);
      BumpFacts(t, tokens[|tokens| - 1]);
      Bump(t, tokens[|tokens| - 1])
  }

  /**
   * What `count_frequencies` promises: the keys are exactly the distinct
   * tokens, each with its number of occurrences, and the counts add up to
   * the number of tokens.
   */
  lemma {:induction false} CountIsExact(tokens: seq<string>)
    ensures forall w :: w in Words(Count(tokens)) <==> w in tokens
    ensures forall i :: 0 <= i < |Count(tokens)| ==>
      Count(tokens)[i].1 == Occurrences(tokens, Count(tokens)[i].0) >= 1
    ensures Total(Count(tokens)) == |tokens|
  {
    var r := Count(tokens);
    forall i | 0 <= i < |r| ensures r[i].1 == Occurrences(tokens, r[i].0) >= 1 {
      GetAt(r, i);
      assert r[i].0 == Words(r)[i];
      OccursPositive(tokens, r[i].0);
    }
  }

  lemma {:induction false} OccursPositive(s: seq<string>, w: string)
    requires w in s
    ensures Occurrences(s, w) >= 1
  {
    if s[|s| - 1] != w {
      assert s == s[..|s| - 1] + [s[|s| - 1]];
      OccursPositive(s[..|s| - 1], w);
    }
  }

  /** Keys of the count table appear in the order of their first occurrence. */
  lemma {:induction false} CountFirstOccurrenceOrder(tokens: seq<string>, i: nat, j: nat)
    requires i < j < |Count(tokens)|
    ensures FirstIndex(tokens, Count(tokens)[i].0) < FirstIndex(tokens, Count(tokens)[j].0)
  {
    var r := Count(tokens);
    assert r[i].0 == Words(r)[i] && r[j].0 == Words(r)[j];
    DedupOrder(tokens, i, j);
  }

  lemma {:induction false} DedupOrder(s: seq<string>, i: nat, j: nat)
    requires i < j < |Dedup(s)|
    ensures Dedup(s)[i] in s && Dedup(s)[j] in s
    ensures FirstIndex(s, Dedup(s)[i]) < FirstIndex(s, Dedup(s)[j])
  {
    var p := s[..|s| - 1];
    var x := s[|s| - 1];
    var d := Dedup(p);
    assert s == p + [x];
    if j < |d| {
      DedupOrder(p, i, j);
      FirstIndexPrefix(p, x, d[i]);
      FirstIndexPrefix(p, x, d[j]);
    } else {
      assert x !in d && Dedup(s)[j] == x && x !in p;
      assert d[i] in p;
      FirstIndexPrefix(p, x, d[i]);
      FirstIndexAppendNew(p, x);
    }
  }

  lemma {:induction false} FirstIndexPrefix(p: seq<string>, x: string, w: string)
    requires w in p
    ensures w in p + [x] && FirstIndex(p + [x], w) == FirstIndex(p, w)
  {
    if p[0] != w {
      assert (p + [x])[1..] == p[1..] + [x];
      FirstIndexPrefix(p[1..], x, w);
    }
  }

  lemma {:induction false} FirstIndexAppendNew(p: seq<string>, x: string)
    requires x !in p
    ensures FirstIndex(p + [x], x) == |p|
  {
    if p != [] {
      assert (p + [x])[1..] == p[1..] + [x];
      FirstIndexAppendNew(p[1..], x);
    }
  }

  /** There are never more distinct elements than elements. */
  lemma {:induction false} DedupShorter(s: seq<string>)
    ensures |Dedup(s)| <= |s|
  {
    if s != [] {
      DedupShorter(s[..|s| - 1]);
    }
  }
}
