/**
 * The text statistics of the advanced processor: word and character
 * counts, averages and the count histogram of the frequency table. The
 * sentence and word tokenizers and `str.isalpha` are inputs.
 */
module Statistics {
  import opened Common
  import opened Ranking
  import opened Counting

  /** `sum(len(word) for word in tokens)`. */
  function SumLengths(tokens: seq<string>): nat {
    if tokens == [] then 0 else SumLengths(tokens[..|tokens| - 1]) + |tokens[|tokens| - 1]|
  }

  /** `sum(len(word_tokenize(s)) for s in sentences)`. */
  function SentenceWords(sentences: seq<string>, wordTokenize: string -> seq<string>): nat {
    if sentences == [] then 0
    else SentenceWords(sentences[..|sentences| - 1], wordTokenize) + |wordTokenize(sentences[|sentences| - 1])|
  }

  function Sum(s: seq<nat>): nat {
    if s == [] then 0 else Sum(s[..|s| - 1]) + s[|s| - 1]
  }

  function MoreThan(k: int): Entry -> bool {
    (e: Entry) => e.1 > k
  }

  /** Histogram buckets 1..n: bucket k holds the number of words counted exactly k times. */
  function Buckets(table: seq<Entry>, n: nat): (r: seq<nat>)
    ensures |r| == n
    ensures forall k :: 1 <= k <= n ==> r[k - 1] == |WithCount(table, k)|
  {
    if n == 0 then [] else Buckets(table, n - 1) + [|WithCount(table, n)|]
  }

  /**
   * Lines 792-795: the loop over counts 1 to 10, then the number of words
   * counted more than 10 times.
   */
  method FrequencyDistribution(table: seq<Entry>) returns (buckets: seq<nat>, more: nat)
    ensures buckets == Buckets(table, 10)
    ensures more == |Filter(table, MoreThan(10))|
  {
    buckets := [];
    var count := 1;
    while count < 11
      invariant 1 <= count <= 11
      invariant buckets == Buckets(table, count - 1)
    {
      buckets := buckets + [|WithCount(table, count)|];
      count := count + 1;
    }
    more := |Filter(table, MoreThan(10))|;
  }

  /** Every word of a table whose counts are positive lands in exactly one bucket or in "more". */
  lemma {:induction false} HistogramCoversTable(table: seq<Entry>, n: nat)
    requires forall e :: e in table ==> e.1 >= 1
    ensures Sum(Buckets(table, n)) + |Filter(table, MoreThan(n))| == |table|
  {
    if n == 0 {
      FilterAll(table, MoreThan(0));
    } else {
      HistogramCoversTable(table, n - 1);
      var b := Buckets(table, n);
      assert b[..n - 1] == Buckets(table, n - 1);
      SplitAbove(table, n);
    }
  }

  /** The words counted more than n-1 times are those counted n times and those counted more than n times. */
  lemma {:induction false} SplitAbove(table: seq<Entry>, n: int)
    ensures |Filter(table, MoreThan(n - 1))| == |WithCount(table, n)| + |Filter(table, MoreThan(n))|
  {
    if table != [] {
      SplitAbove(table[1..], n);
    }
  }

  /** The histogram of a counted table accounts for every distinct word. */
  lemma {:induction false} CountedHistogram(tokens: seq<string>)
    ensures Sum(Buckets(Count(tokens), 10)) + |Filter(Count(tokens), MoreThan(10))| == |Count(tokens)|
  {
    var t := Count(tokens);
    CountIsExact(tokens);
    forall e | e in t ensures e.1 >= 1 {
      var i :| 0 <= i < |t| && t[i] == e;
    }
    HistogramCoversTable(t, 10);
  }

  datatype Stats = Stats(
    totalWords: nat,
    uniqueWords: nat,
    totalCharacters: nat,
    alphaCharacters: nat,
    totalSentences: nat,
    avgWordLength: real,
    avgSentenceLength: real,
    lexicalDiversity: real,
    distribution: seq<nat>,
    more: nat,
    textLength: nat)

  /**
   * Lines 755-806, with `text_length` added at line 486: the averages are
   * 0 when there is nothing to average over.
   */
  method CalculateStatistics(text: string, tokens: seq<string>, table: seq<Entry>,
                             sentTokenize: string -> seq<string>,
                             wordTokenize: string -> seq<string>,
                             isAlpha: char -> bool) returns (st: Stats)
    ensures st.totalWords == |tokens| && st.uniqueWords == |table|
    ensures st.totalCharacters == st.textLength == |text|
    ensures st.alphaCharacters == |Filter(text, isAlpha)|
    ensures st.totalSentences == |sentTokenize(text)|
    ensures |tokens| == 0 ==> st.avgWordLength == 0.0 && st.lexicalDiversity == 0.0
    ensures |tokens| > 0 ==> st.avgWordLength == SumLengths(tokens) as real / |tokens| as real
    ensures |tokens| > 0 ==> st.lexicalDiversity == |table| as real / |tokens| as real
    ensures st.totalSentences == 0 ==> st.avgSentenceLength == 0.0
    ensures st.totalSentences > 0 ==>
      st.avgSentenceLength == SentenceWords(sentTokenize(text), wordTokenize) as real / st.totalSentences as real
    ensures |st.distribution| == 10
    ensures forall k :: 1 <= k <= 10 ==> st.distribution[k - 1] == |WithCount(table, k)|
    ensures st.more == |Filter(table, MoreThan(10))|
  {
    var avgWordLength, lexicalDiversity := 0.0, 0.0;
    if |tokens| > 0 {
      avgWordLength := SumLengths(tokens) as real / |tokens| as real;
      lexicalDiversity := |table| as real / |tokens| as real;
    }
    var sentences := sentTokenize(text);
    var avgSentenceLength := 0.0;
    if |sentences| > 0 {
      avgSentenceLength := SentenceWords(sentences, wordTokenize) as real / |sentences| as real;
    }
    var buckets, more := FrequencyDistribution(table);
    st := Stats(|tokens|, |table|, |text|, |Filter(text, isAlpha)|, |sentences|,
                avgWordLength, avgSentenceLength, lexicalDiversity, buckets, more, |text|);
  }

  /**
   * For a table counted from the tokens, lexical diversity lies in (0, 1]
   * whenever there are tokens.
   */
  lemma {:induction false} DiversityBounds(tokens: seq<string>)
    requires |tokens| > 0
    ensures 0.0 < |Count(tokens)| as real / |tokens| as real <= 1.0
  {
    DedupShorter(tokens);
    assert tokens[0] in Words(Count(tokens));
    RatioInUnit(|Count(tokens)|, |tokens|);
  }

  lemma {:induction false} RatioInUnit(u: nat, n: nat)
    requires 1 <= u <= n
    ensures 0.0 < u as real / n as real <= 1.0
  {
  }

  /** The average word length never exceeds the longest token. */
  lemma {:induction false} AverageAtMostLongest(tokens: seq<string>, longest: nat)
    requires forall t :: t in tokens ==> |t| <= longest
    ensures SumLengths(tokens) <= |tokens| * longest
  {
    if tokens != [] {
      var n := |tokens| - 1;
      assert forall t :: t in tokens[..n] ==> t in tokens;
      AverageAtMostLongest(tokens[..n], longest);
      assert tokens[n] in tokens;
      MulSucc(n, longest);
    }
  }

  lemma {:induction false} MulSucc(n: nat, m: nat)
    ensures (n + 1) * m == n * m + m
  {
  }
}
