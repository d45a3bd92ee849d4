/**
 * The text side of `WordCloudProcessor` (backend/utils/wordcloud_processor.py):
 * token filtering, frequency counting, the inclusive min/max thresholds, the
 * checks made before the cloud is laid out, the colour and background name
 * tables and the top-N list. NLTK's tokenizer, `str.isnumeric` and the
 * stopword list are inputs; the layout library itself is not modelled.
 */
module WordCloudProc {
  import opened Common
  import opened Ranking
  import opened Counting

  /** Python's `string.punctuation`. */
  const PUNCTUATION: string := "!\"#$%&'()*+,-./:;<=>?@[\\]^_`{|}~"

  /**
   * The first filter of `preprocess_text`. `token not in string.punctuation`
   * is Python's substring test, so `"!"` and `"()"` are dropped but `"..."`
   * (not a contiguous piece of the constant) is kept.
   */
  predicate PassesPunctuationAndNumber(t: string, isNumeric: string -> bool) {
    !IsSubstring(t, PUNCTUATION) && !isNumeric(t)
  }

  /** Single characters are dropped, except the words "a" and "i". */
  predicate LongEnough(t: string) {
    |t| > 1 || t == "a" || t == "i"
  }

  /** The custom stopwords, lower-cased. */
  function CustomSet(custom: seq<string>): set<string> {
    set w | w in custom :: Lower(w)
  }

  function PunctPred(isNumeric: string -> bool): string -> bool {
    t => PassesPunctuationAndNumber(t, isNumeric)
  }

  function LengthPred(): string -> bool {
    t => LongEnough(t)
  }

  function NotIn(words: set<string>): string -> bool {
    t => t !in words
  }

  /**
   * `preprocess_text(text, remove_stopwords, custom_stopwords)`, given the
   * tokens NLTK produces from `text.lower()`. An empty custom list behaves
   * like `None`.
   */
  function Preprocess(tokens: seq<string>, removeStopwords: bool, custom: seq<string>,
                      stopWords: set<string>, isNumeric: string -> bool): seq<string>
  {
    var t1 := Filter(tokens, PunctPred(isNumeric));
    var t2 := Filter(t1, LengthPred());
    if removeStopwords then
      var t3 := Filter(t2, NotIn(stopWords));
      if |custom| > 0 then Filter(t3, NotIn(CustomSet(custom))) else t3
    else t2
  }

  /** The one condition a token must meet to survive `Preprocess`. */
  predicate Kept(t: string, removeStopwords: bool, custom: seq<string>,
                 stopWords: set<string>, isNumeric: string -> bool)
  {
    && PassesPunctuationAndNumber(t, isNumeric)
    && LongEnough(t)
    && (removeStopwords ==> t !in stopWords && t !in CustomSet(custom))
  }

  function KeptPred(removeStopwords: bool, custom: seq<string>,
                    stopWords: set<string>, isNumeric: string -> bool): string -> bool
  {
    t => Kept(t, removeStopwords, custom, stopWords, isNumeric)
  }

  /**
   * The chain of filters is one order-preserving filter: the result is the
   * input with exactly the tokens failing `Kept` deleted.
   */
  lemma {:induction false} PreprocessIsOneFilter(tokens: seq<string>, removeStopwords: bool, custom: seq<string>,
                              stopWords: set<string>, isNumeric: string -> bool)
    ensures Preprocess(tokens, removeStopwords, custom, stopWords, isNumeric)
         == Filter(tokens, KeptPred(removeStopwords, custom, stopWords, isNumeric))
  {
    FirstTwoStages(tokens, isNumeric);
    if removeStopwords {
      StopwordStages(tokens, custom, stopWords, isNumeric);
    } else {
      FilterExt(tokens, BasicPred(isNumeric), KeptPred(removeStopwords, custom, stopWords, isNumeric));
    }
  }

  /** The punctuation/number test and the length test together. */
  function BasicPred(isNumeric: string -> bool): string -> bool {
    t => PassesPunctuationAndNumber(t, isNumeric) && LongEnough(t)
  }

  /** The basic tests and the library stopword test together. */
  function NonStopPred(stopWords: set<string>, isNumeric: string -> bool): string -> bool {
    t => PassesPunctuationAndNumber(t, isNumeric) && LongEnough(t) && t !in stopWords
  }

  lemma {:induction false} FirstTwoStages(tokens: seq<string>, isNumeric: string -> bool)
    ensures Filter(Filter(tokens, PunctPred(isNumeric)), LengthPred()) == Filter(tokens, BasicPred(isNumeric))
  {
    FilterFilter(tokens, PunctPred(isNumeric), LengthPred(), BasicPred(isNumeric));
  }

  lemma {:induction false} StopwordStages(tokens: seq<string>, custom: seq<string>,
                                          stopWords: set<string>, isNumeric: string -> bool)
    ensures var t3 := Filter(Filter(tokens, BasicPred(isNumeric)), NotIn(stopWords));
      (if |custom| > 0 then Filter(t3, NotIn(CustomSet(custom))) else t3)
        == Filter(tokens, KeptPred(true, custom, stopWords, isNumeric))
  {
    FilterFilter(tokens, BasicPred(isNumeric), NotIn(stopWords), NonStopPred(stopWords, isNumeric));
    if |custom| > 0 {
      FilterFilter(tokens, NonStopPred(stopWords, isNumeric), NotIn(CustomSet(custom)),
                   KeptPred(true, custom, stopWords, isNumeric));
    } else {
      assert CustomSet(custom) == {};
      FilterExt(tokens, NonStopPred(stopWords, isNumeric), KeptPred(true, custom, stopWords, isNumeric));
    }
  }

  /**
   * What `preprocess_text` promises: an order-preserving selection of the
   * tokens; every kept token is neither punctuation nor numeric, has length
   * above one or is "a" or "i"; with `remove_stopwords` it is neither a
   * stopword nor (case-insensitively) a custom stopword; and every token
   * meeting these conditions is kept.
   */
  lemma {:induction false} PreprocessKeeps(tokens: seq<string>, removeStopwords: bool, custom: seq<string>,
                        stopWords: set<string>, isNumeric: string -> bool)
    ensures var r := Preprocess(tokens, removeStopwords, custom, stopWords, isNumeric);
      && IsSubsequence(r, tokens)
      && (forall t :: t in r ==> t in tokens && Kept(t, removeStopwords, custom, stopWords, isNumeric))
      && (forall t :: t in tokens && Kept(t, removeStopwords, custom, stopWords, isNumeric) ==> t in r)
  {
    PreprocessIsOneFilter(tokens, removeStopwords, custom, stopWords, isNumeric);
    FilterIsSubsequence(tokens, KeptPred(removeStopwords, custom, stopWords, isNumeric));
  }

  /** Without `remove_stopwords`, neither stopword list has any effect. */
  lemma {:induction false} StopwordsIgnoredWhenNotRemoving(tokens: seq<string>, custom1: seq<string>, custom2: seq<string>,
                                        stop1: set<string>, stop2: set<string>, isNumeric: string -> bool)
    ensures Preprocess(tokens, false, custom1, stop1, isNumeric)
         == Preprocess(tokens, false, custom2, stop2, isNumeric)
  {
  }

  /** A custom stopword removes its lower-cased form only when stopwords are removed. */
  lemma {:induction false} CustomStopwordRemoved(tokens: seq<string>, custom: seq<string>, w: string,
                              stopWords: set<string>, isNumeric: string -> bool)
    requires w in custom
    ensures Lower(w) !in Preprocess(tokens, true, custom, stopWords, isNumeric)
  {
    PreprocessKeeps(tokens, true, custom, stopWords, isNumeric);
  }

  /**
   * The substring test keeps multi-character punctuation such as "..." and
   * drops every single punctuation mark, the empty token and runs like "()".
   */
  lemma {:induction false} PunctuationIsSubstringTest(tokens: seq<string>, removeStopwords: bool, custom: seq<string>,
                                   stopWords: set<string>, isNumeric: string -> bool)
    requires !isNumeric("...")
    ensures "..." in tokens && (removeStopwords ==> "..." !in stopWords && "..." !in CustomSet(custom))
            ==> "..." in Preprocess(tokens, removeStopwords, custom, stopWords, isNumeric)
    ensures var r := Preprocess(tokens, removeStopwords, custom, stopWords, isNumeric);
            "!" !in r && "()" !in r && "" !in r
  {
    SubstringsOfPunctuation();
    PreprocessKeeps(tokens, removeStopwords, custom, stopWords, isNumeric);
  }

  lemma {:induction false} SubstringsOfPunctuation()
    ensures IsSubstring("!", PUNCTUATION) && IsSubstring("()", PUNCTUATION) && IsSubstring("", PUNCTUATION)
    ensures !IsSubstring("...", PUNCTUATION) && !IsSubstring("ok", PUNCTUATION)
  {
    assert OccursAt("!", PUNCTUATION, 0);
    assert OccursAt("", PUNCTUATION, 0);
    assert PUNCTUATION[7] == '(' && PUNCTUATION[8] == ')';
    assert PUNCTUATION[7..9] == [PUNCTUATION[7], PUNCTUATION[8]];
    assert OccursAt("()", PUNCTUATION, 7);
    forall i | 0 <= i <= |PUNCTUATION| - 3 ensures !OccursAt("...", PUNCTUATION, i) {
      assert PUNCTUATION[i..i + 3][0] == PUNCTUATION[i];
      assert PUNCTUATION[i..i + 3][1] == PUNCTUATION[i + 1];
    }
    LetterTokensAreNotPunctuation("ok");
  }

  /** A token starting with an ASCII letter is never a piece of the punctuation constant. */
  lemma {:induction false} LetterTokensAreNotPunctuation(t: string)
    requires |t| > 0 && ('a' <= t[0] <= 'z' || 'A' <= t[0] <= 'Z')
    ensures !IsSubstring(t, PUNCTUATION)
  {
    forall i | 0 <= i <= |PUNCTUATION| - |t| ensures !OccursAt(t, PUNCTUATION, i) {
      assert PUNCTUATION[i..i + |t|][0] == PUNCTUATION[i];
    }
  }

  // ---------------------------------------------------------------------
  // Frequency thresholds

  /** A frequency bound as `generate_wordcloud` reads it: `None` when absent or not `int()`-able. */
  function Bound(v: Value): Option<int> {
    if v.VNone? then None else IntCoerce(v)
  }

  predicate InBounds(f: int, lo: Option<int>, hi: Option<int>) {
    (lo.None? || f >= lo.value) && (hi.None? || f <= hi.value)
  }

  function BoundsPred(lo: Option<int>, hi: Option<int>): Entry -> bool {
    (e: Entry) => InBounds(e.1, lo, hi)
  }

  function AtLeast(m: int): Entry -> bool {
    (e: Entry) => e.1 >= m
  }

  function AtMost(m: int): Entry -> bool {
    (e: Entry) => e.1 <= m
  }

  /** One pass of the threshold loop: keep the entries that `keep` accepts, in order. */
  method KeepWhere(table: seq<Entry>, keep: Entry -> bool) returns (r: seq<Entry>)
    ensures r == Filter(table, keep)
  {
    r := [];
    var i := 0;
    while i < |table|
      invariant 0 <= i <= |table|
      invariant r == Filter(table[..i], keep)
    {
      FilterPrefixStep(table, i, keep);
      if keep(table[i]) {
        r := r + [table[i]];
      }
      i := i + 1;
    }
    assert table[..i] == table;
  }

  /**
   * Lines 329-361: the min filter, then the max filter, each skipped when
   * its bound is `None` or `int()` of it fails.
   */
  method ApplyThresholds(table: seq<Entry>, minFrequency: Value, maxFrequency: Value)
    returns (r: seq<Entry>)
    ensures r == Filter(table, BoundsPred(Bound(minFrequency), Bound(maxFrequency)))
  {
    r := table;
    var lo := Bound(minFrequency);
    if lo.Some? {
      r := KeepWhere(r, AtLeast(lo.value));
    }
    var afterMin := r;
    var hi := Bound(maxFrequency);
    if hi.Some? {
      r := KeepWhere(r, AtMost(hi.value));
    }
    var both := BoundsPred(lo, hi);
    if lo.Some? && hi.Some? {
      FilterFilter(table, AtLeast(lo.value), AtMost(hi.value), both);
    } else if lo.Some? {
      FilterExt(table, AtLeast(lo.value), both);
    } else if hi.Some? {
      FilterExt(table, AtMost(hi.value), both);
    } else {
      FilterAll(table, both);
    }
  }

  /**
   * The thresholded table is a sub-table of the original with unchanged
   * counts, and an entry survives exactly when its count lies within both
   * inclusive bounds.
   */
  lemma {:induction false} ThresholdMeaning(table: seq<Entry>, lo: Option<int>, hi: Option<int>)
    ensures var r := Filter(table, BoundsPred(lo, hi));
      && IsSubsequence(r, table)
      && (forall e :: e in r <==> e in table && InBounds(e.1, lo, hi))
  {
    FilterIsSubsequence(table, BoundsPred(lo, hi));
  }

  /** A bound that is absent or fails `int()` leaves the table untouched. */
  lemma {:induction false} UncoercibleBoundsSkipped(table: seq<Entry>, minFrequency: Value, maxFrequency: Value)
    requires IntCoerce(minFrequency).None? && IntCoerce(maxFrequency).None?
    ensures Filter(table, BoundsPred(Bound(minFrequency), Bound(maxFrequency))) == table
  {
    FilterAll(table, BoundsPred(Bound(minFrequency), Bound(maxFrequency)));
  }

  /** Raising the minimum can only remove entries: `min=k` keeps a selection of what `min=k-1` keeps. */
  lemma {:induction false} MinThresholdMonotone(table: seq<Entry>, k: int, hi: Option<int>)
    ensures IsSubsequence(Filter(table, BoundsPred(Some(k), hi)), Filter(table, BoundsPred(Some(k - 1), hi)))
  {
    var weak := BoundsPred(Some(k - 1), hi);
    var strong := BoundsPred(Some(k), hi);
    FilterFilter(table, weak, strong, strong);
    FilterIsSubsequence(Filter(table, weak), strong);
  }

  // ---------------------------------------------------------------------
  // Colour scheme and background names

  const COLOR_MAPS: map<string, string> := map[
    "reds" := "Reds", "blues" := "Blues", "greens" := "Greens", "purples" := "Purples",
    "greys" := "Greys", "spectral" := "Spectral", "coolwarm" := "coolwarm",
    "viridis" := "viridis", "plasma" := "plasma", "inferno" := "inferno",
    "magma" := "magma", "cividis" := "cividis", "rainbow" := "rainbow"]

  /** Background names; `None` is the transparent background. */
  const BACKGROUNDS: map<string, Option<string>> := map[
    "lightred" := Some("#fff0f0"), "lightgrey" := Some("#f0f0f0"), "darkgrey" := Some("#333333"),
    "lightblue" := Some("#e6f7ff"), "lightgreen" := Some("#e6fff0"), "transparent" := None,
    "white" := Some("#ffffff"), "black" := Some("#000000")]

  /** `color_map_translation.get(color_scheme.lower(), color_scheme)`. */
  function ColorMapName(scheme: string): string {
    if Lower(scheme) in COLOR_MAPS then COLOR_MAPS[Lower(scheme)] else scheme
  }

  /** `background_color_translation.get(background_color.lower(), background_color)`. */
  function BackgroundColor(background: string): Option<string> {
    if Lower(background) in BACKGROUNDS then BACKGROUNDS[Lower(background)] else Some(background)
  }

  /**
   * Names are matched ignoring ASCII case; an unknown name is passed on as
   * given, in its original case; "transparent" (in any case) becomes `None`.
   */
  lemma {:induction false} ColorNamesCaseInsensitive(a: string, b: string)
    requires Lower(a) == Lower(b)
    ensures Lower(a) in COLOR_MAPS ==> ColorMapName(a) == ColorMapName(b)
    ensures Lower(a) !in COLOR_MAPS ==> ColorMapName(a) == a && ColorMapName(b) == b
    ensures Lower(a) in BACKGROUNDS ==> BackgroundColor(a) == BackgroundColor(b)
    ensures Lower(a) !in BACKGROUNDS ==> BackgroundColor(a) == Some(a)
    ensures Lower(a) == "transparent" ==> BackgroundColor(b) == None
  {
  }

  // ---------------------------------------------------------------------
  // generate_wordcloud, up to the call into the layout library

  datatype GenerateError =
    | NoValidWords          // "No valid words found after preprocessing"
    | NoWordsMeetThreshold  // "No words meet the frequency threshold criteria."

  /** Everything `generate_wordcloud` hands to `WordCloud(...)` that it computes itself. */
  datatype CloudRequest = CloudRequest(
    frequencies: seq<Entry>,
    maxWords: int,
    colormap: string,
    background: Option<string>,
    mask: Option<seq<seq<int>>>,
    topWords: seq<Entry>)

  datatype Outcome<T, E> = Ok(value: T) | Err(error: E)

  /**
   * Lines 319-419 and 445: preprocess, refuse an empty token list, count,
   * threshold, refuse an empty table, clamp `max_words`, translate the
   * colour names, and never pass a mask, whatever `mask_shape` says.
   */
  method PrepareCloud(tokens: seq<string>, removeStopwords: bool, custom: seq<string>,
                      stopWords: set<string>, isNumeric: string -> bool,
                      maskShape: string, minFrequency: Value, maxFrequency: Value,
                      maxWords: int, colorScheme: string, background: string)
    returns (r: Outcome<CloudRequest, GenerateError>)
    ensures var words := Preprocess(tokens, removeStopwords, custom, stopWords, isNumeric);
      var table := Filter(Count(words), BoundsPred(Bound(minFrequency), Bound(maxFrequency)));
      && (words == [] <==> r == Err(NoValidWords))
      && (words != [] && table == [] <==> r == Err(NoWordsMeetThreshold))
      && (r.Ok? ==>
            && r.value.frequencies == table
            && r.value.maxWords == (if maxWords < |table| then maxWords else |table|)
            && r.value.colormap == ColorMapName(colorScheme)
            && r.value.background == BackgroundColor(background)
            && r.value.mask == None
            && r.value.topWords == TopN(table, 10))
  {
    var words := Preprocess(tokens, removeStopwords, custom, stopWords, isNumeric);
    if words == [] {
      return Err(NoValidWords);
    }
    var table := ApplyThresholds(Count(words), minFrequency, maxFrequency);
    if table == [] {
      return Err(NoWordsMeetThreshold);
    }
    var effective := if |table| < maxWords then |table| else maxWords;
    r := Ok(CloudRequest(table, effective, ColorMapName(colorScheme), BackgroundColor(background),
                         None, TopN(table, 10)));
  }

  /** Every word handed to the layout is a preprocessed token within the bounds, with its exact count. */
  lemma {:induction false} CloudWordsAreCountedTokens(words: seq<string>, lo: Option<int>, hi: Option<int>, e: Entry)
    requires e in Filter(Count(words), BoundsPred(lo, hi))
    ensures e.0 in words && e.1 == Occurrences(words, e.0) && InBounds(e.1, lo, hi)
  {
    var t := Count(words);
    ThresholdMeaning(t, lo, hi);
    CountIsExact(words);
    var i :| 0 <= i < |t| && t[i] == e;
    assert Words(t)[i] == e.0;
  }

  // ---------------------------------------------------------------------
  // get_top_n_words

  /** A frequency value as it may arrive: an int, or a string from stored JSON. */
  datatype FreqValue = IntFreq(n: int) | StrFreq(s: string)

  /** `int(freq)` for a string, falling back to 1 when that fails; an int is kept. */
  function AsCount(v: FreqValue): int {
    match v
    case IntFreq(n) => n
    case StrFreq(s) => if ParseInt(s).Some? then ParseInt(s).value else 1
  }

  function Converted(freqs: seq<(string, FreqValue)>): (t: seq<Entry>)
    ensures |t| == |freqs|
    ensures forall i :: 0 <= i < |freqs| ==> t[i] == (freqs[i].0, AsCount(freqs[i].1))
  {
    seq(|freqs|, i requires 0 <= i < |freqs| => (freqs[i].0, AsCount(freqs[i].1)))
  }

  /**
   * `get_top_n_words(word_frequencies, n)`: convert every value in a loop,
   * then the first `n` of the stable descending sort (Python's reading of
   * `[:n]`, so a negative `n` drops entries from the end).
   */
  method GetTopNWords(freqs: seq<(string, FreqValue)>, n: int) returns (top: seq<Entry>)
    ensures top == Take(SortDesc(Converted(freqs)), n)
    ensures n >= 0 ==> |top| == if n < |freqs| then n else |freqs|
    ensures NonIncreasing(top)
    ensures multiset(top) <= multiset(Converted(freqs))
  {
    var converted: seq<Entry> := [];
    var i := 0;
    while i < |freqs|
      invariant 0 <= i <= |freqs|
      invariant converted == Converted(freqs[..i])
    {
      converted := converted + [(freqs[i].0, AsCount(freqs[i].1))];
      i := i + 1;
    }
    assert freqs[..i] == freqs;
    var sorted := SortDesc(converted);
    top := Take(sorted, n);
    assert sorted == top + sorted[|top|..];
    assert multiset(sorted) == multiset(top) + multiset(sorted[|top|..]);
  }

  /** A count stored as its decimal string reads back as itself. */
  lemma {:induction false} StringCountsReadBack(n: int)
    ensures AsCount(StrFreq(IntToString(n))) == n
  {
    ParseIntRoundTrip(n);
  }

  /** A string that, once stripped, starts with neither a digit nor a sign (such as "many") counts as 1. */
  lemma {:induction false} UnreadableCountIsOne(s: string)
    requires var t := Strip(s); t != [] && !IsAsciiDigit(t[0]) && t[0] != '-' && t[0] != '+'
    ensures AsCount(StrFreq(s)) == 1
  {
    var t := Strip(s);
    assert !AllDigits(t);
  }
}
