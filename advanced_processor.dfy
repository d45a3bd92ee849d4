/**
 * The text pipeline of `AdvancedWordCloudProcessor`
 * (backend/utils/advanced_processor.py): its own `preprocess_text`, the
 * sentence-by-sentence token loop of `_process_text`, the combined
 * frequency filter, the `processed_text` handed to the cloud, the top-50
 * table and the context snippets of `_extract_word_context`. NLTK's
 * tokenizers and lemmatizer, `str.isnumeric`, `str.isdigit`, the `\w`
 * character class, the regular-expression word search and the stopword
 * lists are inputs.
 */
module AdvancedProc {
  import opened Common
  import opened Ranking
  import opened Counting
  import opened WordCloudProc

  /** The language services the processor calls but does not implement. */
  datatype Services = Services(
    nltkStopwords: set<string>,            // `stopwords.words('english')`
    cloudStopwords: set<string>,           // `wordcloud.STOPWORDS`
    tokenize: string -> seq<string>,       // `word_tokenize`
    lemmatizer: string -> string,          // `WordNetLemmatizer().lemmatize`
    isNumeric: string -> bool,             // `str.isnumeric`
    isDigit: string -> bool,               // `str.isdigit`
    isWordChar: char -> bool)              // membership in the `\w` class

  /** The settings `_process_text` reads, with the source's defaults supplied by the caller. */
  datatype Options = Options(
    removeStopwords: bool,
    custom: seq<string>,
    lemmatize: bool,
    minWordLength: int,
    removeNumbers: bool,
    minFrequency: Value,
    maxFrequency: Value)

  // ---------------------------------------------------------------------
  // preprocess_text

  function NotPunctuation(): string -> bool {
    t => !IsSubstring(t, PUNCTUATION)
  }

  function AtLeastChars(n: int): string -> bool {
    t => |t| >= n
  }

  /** The tests of the first two stages, taken together. */
  predicate Accepted(t: string, removeNumbers: bool, minWordLength: int, sv: Services) {
    |t| >= minWordLength && !IsSubstring(t, PUNCTUATION) && (removeNumbers ==> !sv.isNumeric(t))
  }

  function AcceptedPred(removeNumbers: bool, minWordLength: int, sv: Services): string -> bool {
    t => Accepted(t, removeNumbers, minWordLength, sv)
  }

  /**
   * The first two stages: punctuation (and numbers when asked), then tokens
   * shorter than `min_word_length`. Together they are one order-preserving
   * filter: a token is kept exactly when it passes both tests.
   */
  function Kept(tokens: seq<string>, removeNumbers: bool, minWordLength: int, sv: Services): (r: seq<string>)
    ensures r == Filter(tokens, AcceptedPred(removeNumbers, minWordLength, sv))
    ensures IsSubsequence(r, tokens)
    ensures forall t :: t in tokens ==> (t in r <==> Accepted(t, removeNumbers, minWordLength, sv))
  {
    var first := if removeNumbers then PunctPred(sv.isNumeric) else NotPunctuation();
    var r := Filter(Filter(tokens, first), AtLeastChars(minWordLength));
    FilterFilter(tokens, first, AtLeastChars(minWordLength), AcceptedPred(removeNumbers, minWordLength, sv));
    FilterIsSubsequence(tokens, AcceptedPred(removeNumbers, minWordLength, sv));
    r
  }

  /** The third stage: lemmatize each kept token, when asked. */
  function Lemmatized(kept: seq<string>, lemmatize: bool, sv: Services): (r: seq<string>)
    ensures |r| == |kept|
    ensures forall k :: 0 <= k < |r| ==> r[k] == if lemmatize then sv.lemmatizer(kept[k]) else kept[k]
  {
    if lemmatize then Map(kept, sv.lemmatizer) else kept
  }

  /** The last stage: the library stopwords, then the lower-cased custom ones, when asked. */
  function WithoutStopwords(words: seq<string>, removeStopwords: bool, custom: seq<string>, sv: Services): (r: seq<string>)
    ensures |r| <= |words| && IsSubsequence(r, words)
    ensures forall x :: x in words ==> (x in r <==> NotStopword(x, removeStopwords, custom, sv))
  {
    StopwordStagesAreOneFilter(words, removeStopwords, custom, sv);
    FilterIsSubsequence(words, NotStopwordPred(removeStopwords, custom, sv));
    StopwordStages(words, removeStopwords, custom, sv)
  }

  /** The library stopwords, then the custom ones only when the list is non-empty. */
  function StopwordStages(words: seq<string>, removeStopwords: bool, custom: seq<string>, sv: Services): seq<string> {
    if removeStopwords then
      var t4 := Filter(words, NotIn(sv.nltkStopwords));
      if |custom| > 0 then Filter(t4, NotIn(CustomSet(custom))) else t4
    else words
  }

  lemma {:induction false} StopwordStagesAreOneFilter(words: seq<string>, removeStopwords: bool, custom: seq<string>,
                                                      sv: Services)
    ensures StopwordStages(words, removeStopwords, custom, sv) == Filter(words, NotStopwordPred(removeStopwords, custom, sv))
  {
    var keep := NotStopwordPred(removeStopwords, custom, sv);
    if !removeStopwords {
      FilterAll(words, keep);
    } else if |custom| > 0 {
      FilterFilter(words, NotIn(sv.nltkStopwords), NotIn(CustomSet(custom)), keep);
    } else {
      assert CustomSet(custom) == {};
      FilterExt(words, NotIn(sv.nltkStopwords), keep);
    }
  }

  /** The stopword test of the last stage, applied to the (lemmatized) token. */
  predicate NotStopword(x: string, removeStopwords: bool, custom: seq<string>, sv: Services) {
    removeStopwords ==> x !in sv.nltkStopwords && x !in CustomSet(custom)
  }

  function NotStopwordPred(removeStopwords: bool, custom: seq<string>, sv: Services): string -> bool {
    x => NotStopword(x, removeStopwords, custom, sv)
  }

  /** The form a kept token takes after the third stage. */
  function LemmaOf(lemmatize: bool, sv: Services): string -> string {
    t => if lemmatize then sv.lemmatizer(t) else t
  }

  /**
   * `preprocess_text` of the advanced processor: drop punctuation (and
   * numbers when asked), drop tokens shorter than `min_word_length`, then
   * lemmatize, then remove stopwords.
   */
  function PreprocessAdvanced(tokens: seq<string>, removeStopwords: bool, custom: seq<string>,
                              lemmatize: bool, removeNumbers: bool, minWordLength: int,
                              sv: Services): seq<string>
  {
    WithoutStopwords(Lemmatized(Kept(tokens, removeNumbers, minWordLength, sv), lemmatize, sv), removeStopwords, custom, sv)
  }

  /** An output token is the (lemmatized) form of an input token that passed the first two stages. */
  predicate AcceptedFrom(x: string, tokens: seq<string>, removeNumbers: bool, minWordLength: int,
                         lemmatize: bool, sv: Services) {
    exists t :: t in tokens && Accepted(t, removeNumbers, minWordLength, sv) && x == LemmaOf(lemmatize, sv)(t)
  }

  /**
   * The whole chain keeps order and decides each token by its own tests:
   * the output is a selection, in input order, of the (lemmatized) forms of
   * the tokens that were long enough and not punctuation (nor numeric, when
   * numbers are removed); such a form is in the output exactly when it is
   * no stopword. The length test applies to the token before
   * lemmatization, while the stopword test applies to the lemma.
   */
  lemma {:induction false} PreprocessAdvancedOrigin(tokens: seq<string>, removeStopwords: bool, custom: seq<string>,
                                 lemmatize: bool, removeNumbers: bool, minWordLength: int, sv: Services)
    ensures var r := PreprocessAdvanced(tokens, removeStopwords, custom, lemmatize, removeNumbers, minWordLength, sv);
      && |r| <= |tokens|
      && IsSubsequence(r, Map(Filter(tokens, AcceptedPred(removeNumbers, minWordLength, sv)), LemmaOf(lemmatize, sv)))
      && (forall x :: x in r ==> AcceptedFrom(x, tokens, removeNumbers, minWordLength, lemmatize, sv)
                                 && NotStopword(x, removeStopwords, custom, sv))
      && (forall t :: t in tokens && Accepted(t, removeNumbers, minWordLength, sv)
                      && NotStopword(LemmaOf(lemmatize, sv)(t), removeStopwords, custom, sv)
                      ==> LemmaOf(lemmatize, sv)(t) in r)
  {
    var kept := Kept(tokens, removeNumbers, minWordLength, sv);
    var t3 := Lemmatized(kept, lemmatize, sv);
    var r := WithoutStopwords(t3, removeStopwords, custom, sv);
    assert t3 == Map(kept, LemmaOf(lemmatize, sv));
    forall x | x in r ensures AcceptedFrom(x, tokens, removeNumbers, minWordLength, lemmatize, sv) {
      var k :| 0 <= k < |t3| && t3[k] == x;
      assert kept[k] in kept;
    }
    forall t | t in tokens && Accepted(t, removeNumbers, minWordLength, sv)
               && NotStopword(LemmaOf(lemmatize, sv)(t), removeStopwords, custom, sv)
      ensures LemmaOf(lemmatize, sv)(t) in r
    {
      var k :| 0 <= k < |kept| && kept[k] == t;
      assert t3[k] == LemmaOf(lemmatize, sv)(t);
    }
  }

  /**
   * The length check precedes lemmatization and the stopword check follows
   * it: with WordNet's lemma "wa" for "was", a minimum length of 3 and
   * "was" a stopword, the token "was" comes out as "wa", shorter than the
   * minimum.
   */
  lemma {:induction false} LemmaMayBeShorterThanMinimum(sv: Services)
    requires sv.lemmatizer("was") == "wa" && "was" in sv.nltkStopwords && "wa" !in sv.nltkStopwords
    requires !sv.isNumeric("was")
    ensures PreprocessAdvanced(["was"], true, [], true, true, 3, sv) == ["wa"]
  {
    LetterTokensAreNotPunctuation("was");
    assert Filter(["was"], PunctPred(sv.isNumeric)) == ["was"];
    assert Filter(["was"], AtLeastChars(3)) == ["was"];
    assert Map(["was"], sv.lemmatizer) == ["wa"];
    assert Filter(["wa"], NotIn(sv.nltkStopwords)) == ["wa"];
  }

  // ---------------------------------------------------------------------
  // _process_text: the token loop

  /** `re.sub(r'[^\w\s]', '', word)`. */
  function Clean(word: string, sv: Services): (r: string)
    ensures |r| <= |word|
  {
    Filter(word, (c: char) => sv.isWordChar(c) || IsSpace(c))
  }

  /** `set(STOPWORDS) if remove_stopwords else set()`, plus the lower-cased custom stopwords. */
  function StopSet(o: Options, sv: Services): set<string> {
    (if o.removeStopwords then sv.cloudStopwords else {}) + CustomSet(o.custom)
  }

  /** What the inner loop appends for one word, or `None` when a `continue` skips it. */
  function Step(word: string, o: Options, sv: Services): Option<string> {
    var w := Clean(word, sv);
    if w == [] then None
    else if o.removeNumbers && sv.isDigit(w) then None
    else if |w| < o.minWordLength then None
    else if Lower(w) in StopSet(o, sv) then None
    else Some(if o.lemmatize then sv.lemmatizer(w) else w)
  }

  /** The tokens the inner loop appends for the words of one sentence. */
  function WordTokens(words: seq<string>, o: Options, sv: Services): seq<string> {
    if words == [] then []
    else
      var last := Step(words[|words| - 1], o, sv);
      WordTokens(words[..|words| - 1], o, sv) + (if last.Some? then [last.value] else [])
  }

  /** The tokens of `_process_text` for a list of sentences. */
  function SentenceTokens(sentences: seq<string>, o: Options, sv: Services): seq<string> {
    if sentences == [] then []
    else
      SentenceTokens(sentences[..|sentences| - 1], o, sv)
        + WordTokens(sv.tokenize(Lower(sentences[|sentences| - 1])), o, sv)
  }

  /** Lines 545-574: for each sentence, for each token of its lower-cased text, skip or append. */
  method CollectTokens(sentences: seq<string>, o: Options, sv: Services) returns (tokens: seq<string>)
    ensures tokens == SentenceTokens(sentences, o, sv)
  {
    tokens := [];
    var s := 0;
    while s < |sentences|
      invariant 0 <= s <= |sentences|
      invariant tokens == SentenceTokens(sentences[..s], o, sv)
    {
      var words := sv.tokenize(Lower(sentences[s]));
      tokens := AppendWordTokens(tokens, words, o, sv);
      assert sentences[..s + 1][..s] == sentences[..s];
      s := s + 1;
    }
    assert sentences[..s] == sentences;
  }

  /** The inner loop: the accepted words of one sentence, appended to `tokens`. */
  method AppendWordTokens(tokens: seq<string>, words: seq<string>, o: Options, sv: Services)
    returns (tokens': seq<string>)
    ensures tokens' == tokens + WordTokens(words, o, sv)
  {
    tokens' := tokens;
    var k := 0;
    while k < |words|
      invariant 0 <= k <= |words|
      invariant tokens' == tokens + WordTokens(words[..k], o, sv)
    {
      assert words[..k + 1][..k] == words[..k];
      var step := Step(words[k], o, sv);
      if step.Some? {
        tokens' := tokens' + [step.value];
      }
      k := k + 1;
    }
    assert words[..k] == words;
  }

  /**
   * Each appended token comes from a word of some sentence that is
   * non-empty once cleaned, not all digits when numbers are removed, at
   * least `min_word_length` long and not a stopword, all checked before
   * the optional lemmatization.
   */
  lemma {:induction false} TokensComeFromAcceptedWords(sentences: seq<string>, o: Options, sv: Services, t: string)
    requires t in SentenceTokens(sentences, o, sv)
    ensures exists s, word :: s in sentences && word in sv.tokenize(Lower(s)) && Step(word, o, sv) == Some(t)
  {
    var n := |sentences| - 1;
    var prefix := sentences[..n];
    var words := sv.tokenize(Lower(sentences[n]));
    if t in SentenceTokens(prefix, o, sv) {
      TokensComeFromAcceptedWords(prefix, o, sv, t);
      var s, word :| s in prefix && word in sv.tokenize(Lower(s)) && Step(word, o, sv) == Some(t);
      assert s in sentences;
    } else {
      WordTokensOrigin(words, o, sv, t);
      assert sentences[n] in sentences;
    }
  }

  lemma {:induction false} WordTokensOrigin(words: seq<string>, o: Options, sv: Services, t: string)
    requires t in WordTokens(words, o, sv)
    ensures exists word :: word in words && Step(word, o, sv) == Some(t)
  {
    var n := |words| - 1;
    if t in WordTokens(words[..n], o, sv) {
      WordTokensOrigin(words[..n], o, sv, t);
      var word :| word in words[..n] && Step(word, o, sv) == Some(t);
      assert word in words;
    } else {
      assert Step(words[n], o, sv) == Some(t);
    }
  }

  /** An accepted word meets every check of the loop. */
  lemma {:induction false} StepAccepts(word: string, o: Options, sv: Services)
    ensures Step(word, o, sv).Some? <==>
      var w := Clean(word, sv);
      && w != []
      && !(o.removeNumbers && sv.isDigit(w))
      && |w| >= o.minWordLength
      && Lower(w) !in StopSet(o, sv)
    ensures Step(word, o, sv).Some? ==>
      Step(word, o, sv).value == if o.lemmatize then sv.lemmatizer(Clean(word, sv)) else Clean(word, sv)
  {
  }

  /**
   * The library stopwords apply only with `remove_stopwords`, while the
   * custom stopwords are added either way.
   */
  lemma {:induction false} StopSetMeaning(o: Options, sv: Services)
    ensures forall c :: c in o.custom ==> Lower(c) in StopSet(o, sv)
    ensures !o.removeStopwords ==> StopSet(o, sv) == CustomSet(o.custom)
    ensures o.removeStopwords ==> sv.cloudStopwords <= StopSet(o, sv)
  {
  }

  // ---------------------------------------------------------------------
  // _process_text: the combined frequency filter and processed_text

  /**
   * Lines 581-623: one pass over the table, deciding each word against the
   * minimum and then the maximum; a bound whose `int()` fails is skipped.
   */
  method FilterByFrequency(table: seq<Entry>, minFrequency: Value, maxFrequency: Value)
    returns (filtered: seq<Entry>)
    ensures filtered == Filter(table, BoundsPred(Bound(minFrequency), Bound(maxFrequency)))
  {
    // `int()` of a bound gives the same answer on every pass, so it is taken once.
    var lo, hi := Bound(minFrequency), Bound(maxFrequency);
    var keep := BoundsPred(lo, hi);
    filtered := [];
    var i := 0;
    while i < |table|
      invariant 0 <= i <= |table|
      invariant filtered == Filter(table[..i], keep)
    {
      var (word, freq) := table[i];
      var keepWord := true;
      if lo.Some? && freq < lo.value {
        keepWord := false;
      }
      if keepWord && hi.Some? && freq > hi.value {
        keepWord := false;
      }
      FilterPrefixStep(table, i, keep);
      if keepWord {
        filtered := filtered + [(word, freq)];
      }
      i := i + 1;
    }
    assert table[..i] == table;
  }

  function InTable(table: seq<Entry>): string -> bool {
    t => t in Words(table)
  }

  function CountInBounds(tokens: seq<string>, lo: Option<int>, hi: Option<int>): string -> bool {
    t => InBounds(Occurrences(tokens, t), lo, hi)
  }

  /** The result of `_process_text`. */
  datatype Processed = Processed(processedText: string, tokens: seq<string>, table: seq<Entry>)

  /**
   * `_process_text`: collect the tokens, count them, filter the counts
   * when either bound is given, and join the tokens whose word is still in
   * the table.
   */
  method ProcessText(sentences: seq<string>, o: Options, sv: Services) returns (p: Processed)
    ensures p.tokens == SentenceTokens(sentences, o, sv)
    ensures p.table == Filter(Count(p.tokens), BoundsPred(Bound(o.minFrequency), Bound(o.maxFrequency)))
    ensures p.processedText == JoinSpace(Filter(p.tokens, InTable(p.table)))
  {
    var tokens := CollectTokens(sentences, o, sv);
    var table := Count(tokens);
    if o.minFrequency != VNone || o.maxFrequency != VNone {
      table := FilterByFrequency(table, o.minFrequency, o.maxFrequency);
    } else {
      FilterAll(table, BoundsPred(Bound(o.minFrequency), Bound(o.maxFrequency)));
    }
    p := Processed(JoinSpace(Filter(tokens, InTable(table))), tokens, table);
  }

  /**
   * `processed_text` keeps, in order and with repetitions, exactly the
   * tokens whose own number of occurrences lies within the bounds.
   */
  lemma {:induction false} ProcessedTextMeaning(tokens: seq<string>, lo: Option<int>, hi: Option<int>)
    ensures Filter(tokens, InTable(Filter(Count(tokens), BoundsPred(lo, hi))))
         == Filter(tokens, CountInBounds(tokens, lo, hi))
  {
    var table := Filter(Count(tokens), BoundsPred(lo, hi));
    forall t | t in tokens ensures InTable(table)(t) == CountInBounds(tokens, lo, hi)(t) {
      WordInFilteredTable(tokens, lo, hi, t);
    }
    FilterExt(tokens, InTable(table), CountInBounds(tokens, lo, hi));
  }

  lemma {:induction false} WordInFilteredTable(tokens: seq<string>, lo: Option<int>, hi: Option<int>, t: string)
    requires t in tokens
    ensures t in Words(Filter(Count(tokens), BoundsPred(lo, hi))) <==> InBounds(Occurrences(tokens, t), lo, hi)
  {
    var c := Count(tokens);
    var table := Filter(c, BoundsPred(lo, hi));
    if t in Words(table) {
      var i :| 0 <= i < |table| && Words(table)[i] == t;
      CountEntryWord(tokens, table[i]);
    }
    if InBounds(Occurrences(tokens, t), lo, hi) {
      CountEntry(tokens, t);
      var e := (t, Occurrences(tokens, t));
      assert e in table;
      var i :| 0 <= i < |table| && table[i] == e;
      assert Words(table)[i] == t;
    }
  }

  /** Every token has its entry, with its number of occurrences, in the count table. */
  lemma {:induction false} CountEntry(tokens: seq<string>, t: string)
    requires t in tokens
    ensures (t, Occurrences(tokens, t)) in Count(tokens)
  {
    var c := Count(tokens);
    CountIsExact(tokens);
    assert t in Words(c);
    var k :| 0 <= k < |c| && Words(c)[k] == t;
    assert c[k].0 == t;
  }

  /** Every entry of the count table holds its word's number of occurrences. */
  lemma {:induction false} CountEntryWord(tokens: seq<string>, e: Entry)
    requires e in Count(tokens)
    ensures e.1 == Occurrences(tokens, e.0)
  {
    var c := Count(tokens);
    CountIsExact(tokens);
    var k :| 0 <= k < |c| && c[k] == e;
  }

  /** The filtered table never has more words than there are tokens, so lexical diversity is at most 1. */
  lemma {:induction false} UniqueAtMostTotal(tokens: seq<string>, lo: Option<int>, hi: Option<int>)
    ensures |Filter(Count(tokens), BoundsPred(lo, hi))| <= |Count(tokens)| <= |tokens|
  {
    DedupShorter(tokens);
  }

  // ---------------------------------------------------------------------
  // _extract_word_context

  /**
   * The snippet for a sentence in which the word matched at
   * `[start, end)`: short sentences whole, longer ones cut to 100
   * characters either side of the match, with "..." marking each cut side.
   */
  function Snippet(sentence: string, start: nat, end: nat): string {
    if |sentence| <= 200 then sentence
    else
      var lo := if start >= 100 then start - 100 else 0;
      var hi := if end + 100 <= |sentence| then end + 100 else |sentence|;
      (if lo > 0 then "..." else "") + Slice(sentence, lo, hi) + (if hi < |sentence| then "..." else "")
  }

  /**
   * What a snippet is: the sentence itself up to 200 characters; beyond
   * that the window around the match, clamped to the sentence, with the
   * ellipses exactly on the truncated sides.
   */
  lemma {:induction false} SnippetShape(sentence: string, start: nat, end: nat)
    requires start <= end <= |sentence|
    ensures |sentence| <= 200 ==> Snippet(sentence, start, end) == sentence
    ensures |sentence| > 200 ==>
      var lo := if start >= 100 then start - 100 else 0;
      var hi := if end + 100 <= |sentence| then end + 100 else |sentence|;
      && Snippet(sentence, start, end)
         == (if lo > 0 then "..." else "") + sentence[lo..hi] + (if hi < |sentence| then "..." else "")
      && hi - lo <= end - start + 200
  {
  }

  /** The matched text always appears inside its snippet. */
  lemma {:induction false} SnippetContainsMatch(sentence: string, start: nat, end: nat)
    requires start <= end <= |sentence|
    ensures IsSubstring(sentence[start..end], Snippet(sentence, start, end))
  {
    if |sentence| <= 200 {
      assert Snippet(sentence, start, end) == sentence;
      assert OccursAt(sentence[start..end], sentence, start);
    } else {
      LongSnippetContainsMatch(sentence, start, end);
    }
  }

  lemma {:induction false} LongSnippetContainsMatch(sentence: string, start: nat, end: nat)
    requires start <= end <= |sentence| && |sentence| > 200
    ensures IsSubstring(sentence[start..end], Snippet(sentence, start, end))
  {
    var lo := if start >= 100 then start - 100 else 0;
    var hi := if end + 100 <= |sentence| then end + 100 else |sentence|;
    var mid := sentence[lo..hi];
    SnippetShape(sentence, start, end);
    OccursInMiddle(if lo > 0 then "..." else "", mid, if hi < |sentence| then "..." else "", start - lo, end - lo);
    SliceOfSlice(sentence, lo, hi, start - lo, end - lo);
  }

  lemma {:induction false} SliceOfSlice(s: string, lo: nat, hi: nat, a: nat, b: nat)
    requires lo <= hi <= |s| && a <= b <= hi - lo
    ensures s[lo..hi][a..b] == s[lo + a..lo + b]
  {
    forall k | 0 <= k < b - a ensures s[lo..hi][a..b][k] == s[lo + a..lo + b][k] {
      assert s[lo..hi][a..b][k] == s[lo..hi][a + k] == s[lo + a + k];
    }
  }

  /** A piece of the middle part occurs in the concatenation. */
  lemma {:induction false} OccursInMiddle(pre: string, mid: string, post: string, a: nat, b: nat)
    requires a <= b <= |mid|
    ensures IsSubstring(mid[a..b], pre + mid + post)
  {
    WindowInside(pre, mid, post, a, b);
    assert OccursAt(mid[a..b], pre + mid + post, |pre| + a);
  }

  lemma {:induction false} WindowInside(pre: string, mid: string, post: string, a: nat, b: nat)
    requires a <= b <= |mid|
    ensures (pre + mid + post)[|pre| + a..|pre| + b] == mid[a..b]
  {
    var all := pre + mid + post;
    forall k | a <= k < b ensures all[|pre| + k] == mid[k] {
    }
  }

  /** The snippets of every sentence in which `find` locates `word`, in sentence order. */
  function AllSnippets(word: string, sentences: seq<string>, find: (string, string) -> Option<(nat, nat)>): seq<string> {
    if sentences == [] then []
    else
      var s := sentences[|sentences| - 1];
      var m := find(word, Lower(s));
      AllSnippets(word, sentences[..|sentences| - 1], find) + (if m.Some? then [Snippet(s, m.value.0, m.value.1)] else [])
  }

  lemma {:induction false} AllSnippetsPrefix(word: string, sentences: seq<string>,
                                             find: (string, string) -> Option<(nat, nat)>, k: nat)
    requires k <= |sentences|
    ensures |AllSnippets(word, sentences[..k], find)| <= |AllSnippets(word, sentences, find)|
    ensures AllSnippets(word, sentences, find)[..|AllSnippets(word, sentences[..k], find)|]
         == AllSnippets(word, sentences[..k], find)
    decreases |sentences|
  {
    if k < |sentences| {
      var n := |sentences| - 1;
      assert sentences[..n][..k] == sentences[..k];
      AllSnippetsPrefix(word, sentences[..n], find, k);
    } else {
      assert sentences[..k] == sentences;
    }
  }

  /** The words of the context table, most frequent first: the top 20 of the counts. */
  function ContextWords(table: seq<Entry>): seq<string> {
    Words(TopN(table, 20))
  }

  /**
   * The inner loop of lines 649-672 for one word: a snippet per matching
   * sentence, stopping once there are 3.
   */
  method SnippetsFor(word: string, sentences: seq<string>, find: (string, string) -> Option<(nat, nat)>)
    returns (snippets: seq<string>)
    ensures snippets == Take(AllSnippets(word, sentences, find), 3)
  {
    snippets := [];
    var k := 0;
    while k < |sentences|
      invariant 0 <= k <= |sentences|
      invariant snippets == AllSnippets(word, sentences[..k], find)
      invariant |snippets| < 3
    {
      assert sentences[..k + 1][..k] == sentences[..k];
      var m := find(word, Lower(sentences[k]));
      if m.Some? {
        snippets := snippets + [Snippet(sentences[k], m.value.0, m.value.1)];
        if |snippets| >= 3 {
          k := k + 1;
          break;
        }
      }
      k := k + 1;
    }
    AllSnippetsPrefix(word, sentences, find, k);
    if k == |sentences| {
      assert sentences[..k] == sentences;
    }
  }

  /** The context entries for `words`, in order: each word with its first 3 snippets, if it has any. */
  function ContextOf(words: seq<string>, sentences: seq<string>,
                     find: (string, string) -> Option<(nat, nat)>): seq<(string, seq<string>)>
  {
    if words == [] then []
    else
      var w := words[|words| - 1];
      var snippets := Take(AllSnippets(w, sentences, find), 3);
      ContextOf(words[..|words| - 1], sentences, find) + (if snippets != [] then [(w, snippets)] else [])
  }

  /**
   * Lines 641-674: for each of the 20 most frequent words, collect its
   * snippets; a word with no match gets no entry.
   */
  method ExtractWordContext(table: seq<Entry>, sentences: seq<string>,
                            find: (string, string) -> Option<(nat, nat)>)
    returns (context: seq<(string, seq<string>)>)
    ensures context == ContextOf(ContextWords(table), sentences, find)
  {
    var top := ContextWords(table);
    context := CollectContext(top, sentences, find);
  }

  /** The outer loop of lines 647-674 over the chosen words. */
  method CollectContext(words: seq<string>, sentences: seq<string>,
                        find: (string, string) -> Option<(nat, nat)>)
    returns (context: seq<(string, seq<string>)>)
    ensures context == ContextOf(words, sentences, find)
  {
    context := [];
    var t := 0;
    while t < |words|
      invariant 0 <= t <= |words|
      invariant context == ContextOf(words[..t], sentences, find)
    {
      var word := words[t];
      var snippets := SnippetsFor(word, sentences, find);
      ContextOfStep(words, t, sentences, find);
      if snippets != [] {
        context := context + [(word, snippets)];
      }
      t := t + 1;
    }
    assert words[..t] == words;
  }

  lemma {:induction false} ContextOfStep(words: seq<string>, t: nat, sentences: seq<string>,
                                         find: (string, string) -> Option<(nat, nat)>)
    requires t < |words|
    ensures var snippets := Take(AllSnippets(words[t], sentences, find), 3);
      ContextOf(words[..t + 1], sentences, find)
        == ContextOf(words[..t], sentences, find) + (if snippets != [] then [(words[t], snippets)] else [])
  {
    assert words[..t + 1][..t] == words[..t];
  }

  /**
   * The context table: no more entries than words (so at most 20), every
   * key one of the words, each with 1 to 3 snippets that are the first
   * matches in sentence order.
   */
  lemma {:induction false} ContextEntries(words: seq<string>, sentences: seq<string>,
                                          find: (string, string) -> Option<(nat, nat)>)
    ensures var c := ContextOf(words, sentences, find);
      && |c| <= |words|
      && (forall i :: 0 <= i < |c| ==>
            && c[i].0 in words
            && c[i].1 == Take(AllSnippets(c[i].0, sentences, find), 3)
            && 1 <= |c[i].1| <= 3)
  {
    if words != [] {
      var n := |words| - 1;
      ContextEntries(words[..n], sentences, find);
      var c := ContextOf(words, sentences, find);
      var prev := ContextOf(words[..n], sentences, find);
      forall i | 0 <= i < |c|
        ensures c[i].0 in words && c[i].1 == Take(AllSnippets(c[i].0, sentences, find), 3) && 1 <= |c[i].1| <= 3
      {
        if i < |prev| {
          assert c[i] == prev[i];
          assert prev[i].0 in words[..n];
        } else {
          assert c[i].0 == words[n];
        }
      }
    }
  }

  /** Every word with at least one match has an entry. */
  lemma {:induction false} ContextComplete(words: seq<string>, sentences: seq<string>,
                                           find: (string, string) -> Option<(nat, nat)>, w: string)
    requires w in words && AllSnippets(w, sentences, find) != []
    ensures exists i :: 0 <= i < |ContextOf(words, sentences, find)| && ContextOf(words, sentences, find)[i].0 == w
  {
    var n := |words| - 1;
    var c := ContextOf(words, sentences, find);
    var prev := ContextOf(words[..n], sentences, find);
    var last := Take(AllSnippets(words[n], sentences, find), 3);
    assert c == prev + (if last != [] then [(words[n], last)] else []);
    if words[n] == w {
      assert |last| >= 1;
      assert c[|prev|].0 == w;
    } else {
      assert words == words[..n] + [words[n]];
      ContextComplete(words[..n], sentences, find, w);
      var i :| 0 <= i < |prev| && prev[i].0 == w;
      assert c[i] == prev[i];
    }
  }

  /** The context covers only the 20 most frequent words. */
  lemma {:induction false} ContextOfTopWords(table: seq<Entry>, sentences: seq<string>, find: (string, string) -> Option<(nat, nat)>)
    ensures |ContextOf(ContextWords(table), sentences, find)| <= 20
  {
    ContextEntries(ContextWords(table), sentences, find);
  }

  // ---------------------------------------------------------------------
  // generate_advanced_wordcloud: bounds handed on and the top-50 table

  /** Lines 444-458: a present bound becomes `int(bound)`, or `None` when that raises. */
  function CoercedBound(v: Value): (r: Value)
    ensures r.VNone? || r.VInt?
    ensures r.VInt? <==> IntCoerce(v).Some?
  {
    if v.VNone? then VNone
    else match IntCoerce(v)
      case Some(n) => VInt(n)
      case None => VNone
  }

  /**
   * Coercing the bounds before handing them to the cloud generator changes
   * nothing there: it would apply the same `int()` and skip the same bounds.
   */
  lemma {:induction false} CoercionKeepsThresholds(v: Value)
    ensures Bound(CoercedBound(v)) == Bound(v)
    ensures CoercedBound(CoercedBound(v)) == CoercedBound(v)
  {
  }

  /**
   * Lines 493-495: the 50 highest counts of the filtered table, highest
   * first, ties in table order.
   */
  function TopWords(table: seq<Entry>): (r: seq<Entry>)
    ensures |r| == if |table| < 50 then |table| else 50
    ensures NonIncreasing(r)
    ensures multiset(r) <= multiset(table)
    ensures r == SortDesc(table)[..|r|]
    ensures forall x :: x in SortDesc(table)[|r|..] ==> forall y :: y in r ==> y.1 >= x.1
  {
    var r := TopN(table, 50);
    forall x | x in SortDesc(table)[|r|..] ensures forall y :: y in r ==> y.1 >= x.1 {
      TopNCutsAtCount(table, 50, x);
    }
    r
  }
}
