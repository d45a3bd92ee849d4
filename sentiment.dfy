/**
 * Sentiment bookkeeping of the advanced processor. The polarity and
 * subjectivity scores come from an external analyser and are inputs here;
 * what is modelled is how they are categorised, capped and counted.
 */
module Sentiment {
  import opened Common
  import opened Ranking

  datatype Category = Positive | Negative | Neutral

  /** A sentence with the scores the analyser gave it. */
  datatype Scored = Scored(text: string, polarity: real, subjectivity: real)

  /**
   * The category of a text or sentence: positive above 0.2, negative below
   * -0.2, neutral on the closed interval between.
   */
  function Categorize(polarity: real): (c: Category)
    ensures c == Positive <==> polarity > 0.2
    ensures c == Negative <==> polarity < -0.2
    ensures c == Neutral <==> -0.2 <= polarity <= 0.2
  {
    if polarity > 0.2 then Positive else if polarity < -0.2 then Negative else Neutral
  }

  function Rank(c: Category): int {
    match c
    case Negative => -1
    case Neutral => 0
    case Positive => 1
  }

  /** A higher polarity never gets a lower category. */
  lemma {:induction false} CategorizeMonotone(p: real, q: real)
    requires p <= q
    ensures Rank(Categorize(p)) <= Rank(Categorize(q))
  {
  }

  datatype SubjectivityCategory = Subjective | Objective | Balanced

  /** Subjective above 0.6, objective below 0.4, neutral (`Balanced`) between. */
  function CategorizeSubjectivity(subjectivity: real): (c: SubjectivityCategory)
    ensures c == Subjective <==> subjectivity > 0.6
    ensures c == Objective <==> subjectivity < 0.4
    ensures c == Balanced <==> 0.4 <= subjectivity <= 0.6
  {
    if subjectivity > 0.6 then Subjective else if subjectivity < 0.4 then Objective else Balanced
  }

  // ---------------------------------------------------------------------
  // _analyze_sentiment

  /** A sentence as reported: its text cut to 100 characters, with "..." when it was longer. */
  function Shorten(text: string): (r: string)
    ensures |r| == if |text| > 100 then 103 else |text|
    ensures r[..if |text| > 100 then 100 else |text|] == text[..if |text| > 100 then 100 else |text|]
    ensures |text| <= 100 ==> r == text
  {
    if |text| > 100 then text[..100] + "..." else text
  }

  datatype Note = Note(text: string, polarity: real, subjectivity: real, sentiment: Category)

  function NoteOf(s: Scored): Note {
    Note(Shorten(s.text), s.polarity, s.subjectivity, Categorize(s.polarity))
  }

  /** The sentences of more than 5 characters, in order: only those are analysed. */
  function LongOnes(sentences: seq<Scored>): seq<Scored> {
    if sentences == [] then []
    else
      var s := sentences[|sentences| - 1];
      LongOnes(sentences[..|sentences| - 1]) + (if |s.text| > 5 then [s] else [])
  }

  /** `LongOnes` keeps exactly the sentences of more than 5 characters, in their order. */
  lemma {:induction false} LongOnesMembers(sentences: seq<Scored>)
    ensures |LongOnes(sentences)| <= |sentences|
    ensures forall s :: s in LongOnes(sentences) <==> s in sentences && |s.text| > 5
  {
    if sentences != [] {
      var n := |sentences| - 1;
      LongOnesMembers(sentences[..n]);
      assert sentences == sentences[..n] + [sentences[n]];
    }
  }

  /** The long sentences of a concatenation are those of each part. */
  lemma {:induction false} LongOnesAppend(a: seq<Scored>, b: seq<Scored>)
    ensures LongOnes(a + b) == LongOnes(a) + LongOnes(b)
  {
    if b == [] {
      assert a + b == a;
    } else {
      var n := |b| - 1;
      LongOnesAppend(a, b[..n]);
      assert (a + b)[..|a + b| - 1] == a + b[..n];
    }
  }

  /** The sentences that are analysed: the first 15 of more than 5 characters. */
  function Analysed(sentences: seq<Scored>): (r: seq<Scored>)
    ensures |r| <= 15
    ensures forall s :: s in r ==> s in sentences && |s.text| > 5
  {
    var r := Take(LongOnes(sentences), 15);
    LongOnesMembers(sentences);
    assert forall s :: s in r ==> s in LongOnes(sentences);
    r
  }

  /** The texts of the sentences of category `c`, in order. */
  function TextsIn(a: seq<Scored>, c: Category): seq<string> {
    if a == [] then []
    else TextsIn(a[..|a| - 1], c) + (if Categorize(a[|a| - 1].polarity) == c then [a[|a| - 1].text] else [])
  }

  datatype Report = Report(
    overallPolarity: real,
    overallSubjectivity: real,
    overall: Category,
    positiveCount: nat,
    negativeCount: nat,
    neutralCount: nat,
    positiveExamples: seq<string>,
    negativeExamples: seq<string>,
    neutralExamples: seq<string>,
    analysis: seq<Note>)

  /**
   * Lines 676-753: the overall category, then one pass over the sentences
   * that skips short ones, sorts each analysed one into one of three
   * lists and stops once 15 have been analysed. The breakdown gives the
   * list lengths, the examples the first 3 of each list and the analysis
   * the first 10 notes.
   */
  method AnalyzeSentiment(polarity: real, subjectivity: real, sentences: seq<Scored>) returns (r: Report)
    ensures r.overall == Categorize(polarity)
    ensures r.positiveCount == |TextsIn(Analysed(sentences), Positive)|
    ensures r.negativeCount == |TextsIn(Analysed(sentences), Negative)|
    ensures r.neutralCount == |TextsIn(Analysed(sentences), Neutral)|
    ensures r.positiveExamples == Take(TextsIn(Analysed(sentences), Positive), 3)
    ensures r.negativeExamples == Take(TextsIn(Analysed(sentences), Negative), 3)
    ensures r.neutralExamples == Take(TextsIn(Analysed(sentences), Neutral), 3)
    ensures r.analysis == Take(Map(Analysed(sentences), NoteOf), 10)
  {
    var positive, negative, neutral, notes := ClassifySentences(sentences);
    r := Report(polarity, subjectivity, Categorize(polarity),
                |positive|, |negative|, |neutral|,
                Take(positive, 3), Take(negative, 3), Take(neutral, 3),
                Take(notes, 10));
  }

  /** The three lists and the notes kept for the analysed sentences `done`. */
  predicate Tallied(done: seq<Scored>, positive: seq<string>, negative: seq<string>, neutral: seq<string>,
                    notes: seq<Note>) {
    && positive == TextsIn(done, Positive)
    && negative == TextsIn(done, Negative)
    && neutral == TextsIn(done, Neutral)
    && notes == Map(done, NoteOf)
  }

  /** The sentence loop of lines 703-737. */
  method ClassifySentences(sentences: seq<Scored>)
    returns (positive: seq<string>, negative: seq<string>, neutral: seq<string>, notes: seq<Note>)
    ensures Tallied(Analysed(sentences), positive, negative, neutral, notes)
  {
    positive, negative, neutral, notes := [], [], [], [];
    ghost var done: seq<Scored> := [];
    var i := 0;
    while i < |sentences|
      invariant 0 <= i <= |sentences|
      invariant done == LongOnes(sentences[..i])
      invariant |done| < 15
      invariant Tallied(done, positive, negative, neutral, notes)
    {
      var s := sentences[i];
      assert sentences[..i + 1][..i] == sentences[..i];
      if |s.text| > 5 {
        positive, negative, neutral, notes := Record(positive, negative, neutral, notes, done, s);
        done := done + [s];
        if |notes| >= 15 {
          AnalysedStopsAt(sentences, i + 1);
          return;
        }
      }
      i := i + 1;
    }
    assert sentences[..i] == sentences;
    AnalysedWhole(sentences);
  }

  /** Fewer than 15 long-enough sentences: all of them are analysed. */
  lemma {:induction false} AnalysedWhole(sentences: seq<Scored>)
    requires |LongOnes(sentences)| < 15
    ensures Analysed(sentences) == LongOnes(sentences)
  {
  }

  /** One analysed sentence: its text goes to the list of its category and its note is appended. */
  method Record(positive: seq<string>, negative: seq<string>, neutral: seq<string>, notes: seq<Note>,
                ghost done: seq<Scored>, s: Scored)
    returns (positive': seq<string>, negative': seq<string>, neutral': seq<string>, notes': seq<Note>)
    requires Tallied(done, positive, negative, neutral, notes)
    ensures Tallied(done + [s], positive', negative', neutral', notes')
  {
    AnalyseStep(done, s);
    positive', negative', neutral' := positive, negative, neutral;
    var sentiment := Categorize(s.polarity);
    if sentiment == Positive {
      positive' := positive + [s.text];
    } else if sentiment == Negative {
      negative' := negative + [s.text];
    } else {
      neutral' := neutral + [s.text];
    }
    notes' := notes + [Note(Shorten(s.text), s.polarity, s.subjectivity, sentiment)];
  }

  lemma {:induction false} AnalyseStep(done: seq<Scored>, s: Scored)
    ensures forall c :: TextsIn(done + [s], c) == TextsIn(done, c) + (if Categorize(s.polarity) == c then [s.text] else [])
    ensures Map(done + [s], NoteOf) == Map(done, NoteOf) + [NoteOf(s)]
  {
    assert (done + [s])[..|done|] == done;
  }

  /** Once 15 sentences of `sentences[..k]` are long enough, the rest are never looked at. */
  lemma {:induction false} AnalysedStopsAt(sentences: seq<Scored>, k: nat)
    requires k <= |sentences| && |LongOnes(sentences[..k])| == 15
    ensures Analysed(sentences) == LongOnes(sentences[..k])
  {
    assert sentences == sentences[..k] + sentences[k..];
    LongOnesAppend(sentences[..k], sentences[k..]);
  }

  /**
   * The breakdown partitions the analysed sentences: every analysed
   * sentence is counted in exactly one category, so the three counts add up
   * to at most 15.
   */
  lemma {:induction false} TextsPartition(a: seq<Scored>)
    ensures |TextsIn(a, Positive)| + |TextsIn(a, Negative)| + |TextsIn(a, Neutral)| == |a|
  {
    if a != [] {
      TextsPartition(a[..|a| - 1]);
    }
  }

  lemma {:induction false} BreakdownAtMost15(sentences: seq<Scored>)
    ensures |TextsIn(Analysed(sentences), Positive)| + |TextsIn(Analysed(sentences), Negative)|
            + |TextsIn(Analysed(sentences), Neutral)| <= 15
  {
    TextsPartition(Analysed(sentences));
  }

  /** Every example of a category is the text of an analysed sentence of that category. */
  lemma {:induction false} TextsInOrigin(a: seq<Scored>, c: Category, t: string)
    requires t in TextsIn(a, c)
    ensures exists s :: s in a && s.text == t && Categorize(s.polarity) == c
  {
    var n := |a| - 1;
    if t in TextsIn(a[..n], c) {
      TextsInOrigin(a[..n], c, t);
      var s :| s in a[..n] && s.text == t && Categorize(s.polarity) == c;
      assert s in a;
    } else {
      assert a[n] in a;
    }
  }

  // ---------------------------------------------------------------------
  // analyze_sentiment_advanced

  datatype Counts = Counts(positive: nat, negative: nat, neutral: nat)

  function Above(x: real): Scored -> bool { (s: Scored) => s.polarity > x }
  function Below(x: real): Scored -> bool { (s: Scored) => s.polarity < x }
  function Between(lo: real, hi: real): Scored -> bool { (s: Scored) => lo <= s.polarity <= hi }

  /** Lines 333-335: sentences above 0.1, below -0.1, and from -0.1 to 0.1 inclusive. */
  function SentenceCounts(sentences: seq<Scored>): (r: Counts)
    ensures r.positive == |Filter(sentences, Above(0.1))|
    ensures r.negative == |Filter(sentences, Below(-0.1))|
    ensures r.neutral == |Filter(sentences, Between(-0.1, 0.1))|
    ensures r.positive + r.negative + r.neutral == |sentences|
  {
    CountsPartition(sentences);
    Counts(|Filter(sentences, Above(0.1))|, |Filter(sentences, Below(-0.1))|,
           |Filter(sentences, Between(-0.1, 0.1))|)
  }

  lemma {:induction false} CountsPartition(s: seq<Scored>)
    ensures |Filter(s, Above(0.1))| + |Filter(s, Below(-0.1))| + |Filter(s, Between(-0.1, 0.1))| == |s|
  {
    if s != [] {
      CountsPartition(s[1..]);
    }
  }

  datatype AdvancedReport = AdvancedReport(
    polarity: real,
    subjectivity: real,
    category: Category,
    subjectivityCategory: SubjectivityCategory,
    sentences: seq<Scored>,
    counts: Counts)

  /**
   * Lines 285-335: the categories of the whole text and the three sentence
   * counts, which partition the sentence list.
   */
  function AnalyzeSentimentAdvanced(polarity: real, subjectivity: real, sentences: seq<Scored>): (r: AdvancedReport)
    ensures r.category == Categorize(polarity)
    ensures r.subjectivityCategory == CategorizeSubjectivity(subjectivity)
    ensures r.sentences == sentences
    ensures r.counts.positive == |Filter(sentences, Above(0.1))|
    ensures r.counts.negative == |Filter(sentences, Below(-0.1))|
    ensures r.counts.neutral == |Filter(sentences, Between(-0.1, 0.1))|
    ensures r.counts.positive + r.counts.negative + r.counts.neutral == |sentences|
  {
    AdvancedReport(polarity, subjectivity, Categorize(polarity), CategorizeSubjectivity(subjectivity),
                   sentences, SentenceCounts(sentences))
  }

  /**
   * The two analyses use different cut-offs: a sentence that
   * `_analyze_sentiment` calls positive is also counted positive by
   * `analyze_sentiment_advanced`, but not conversely (0.15 is positive
   * in the count and neutral in the category).
   */
  lemma {:induction false} CutOffsDiffer(s: Scored)
    ensures Categorize(s.polarity) == Positive ==> Above(0.1)(s)
    ensures Categorize(s.polarity) == Negative ==> Below(-0.1)(s)
    ensures Above(0.1)(Scored("", 0.15, 0.0)) && Categorize(0.15) == Neutral
  {
  }
}
