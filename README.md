# Word-cloud backend: a Dafny model of its decision logic

The backend turns a text into a word cloud plus analytics. The layout of the
cloud is done by an external library; everything the backend computes
around that call is modelled here:

- the two token pipelines (`WordCloudProcessor.preprocess_text` and the
  advanced processor's `preprocess_text` / `_process_text`);
- frequency counting in first-occurrence order, and the inclusive min/max
  thresholds, whose bounds are skipped when `int()` of them fails;
- the two "empty" errors and the `max_words` clamp;
- the stable top-N tables (10, 20 and 50);
- the shape masks of `create_mask` and `get_shape_preview`, as exact
  integer grids;
- the context snippets, sentiment bookkeeping and text statistics of the
  advanced processor;
- the file-extension and extraction decisions, and the HTML whitespace
  cleanup;
- the password, e-mail and token checks of the authentication blueprint;
- the request checks of the Flask routes: text length, bound coercion,
  `ensure_str_keys`, preview dimensions and CSV row order.

Modules follow the source files:

| module | file |
|---|---|
| `Common` | Python built-ins the backend relies on: `strip`, `int()`, `str()`, slicing, filtering |
| `Ranking` | `sorted(..., key=count, reverse=True)` (stable), `[:n]` |
| `Counting` | `dict(Counter(tokens))` |
| `WordCloudProc` | text side of `backend/utils/wordcloud_processor.py` |
| `Masks` | shape grids of `backend/utils/wordcloud_processor.py` |
| `AdvancedProc` | `backend/utils/advanced_processor.py`: pipelines, filter, context, top-50 |
| `Sentiment` | sentiment categories and counts in `backend/utils/advanced_processor.py` |
| `Statistics` | `_calculate_statistics` in `backend/utils/advanced_processor.py` |
| `FileProc` | `backend/utils/file_processor.py` |
| `Auth` | `backend/auth.py` |
| `App` | `backend/app.py` |

Tables (Python dicts) are sequences of `(word, count)` pairs in insertion
order, because the stable sort breaks ties by that order.

Some parts of the system are inputs to the model rather than modelled:
- NLTK's tokenizers, lemmatizer and stopword lists.
- `str.isnumeric`, `str.isdigit`, `str.isalpha` and the `\w` class.
- The regular-expression word search.
- TextBlob's polarity scores.
- The file system.
- Token verification.

Each of these is a function parameter.

Shapes are stated with the float factors cleared:
- The circle is `25·d² < 16·m²`.
- Cloud circle centres are `(width·b/10, height·a/10)`, with every length multiplied by 10.
- `int(w * (i/h))` is modelled as floor division of `w·i` by `h`.

`token not in string.punctuation` is a substring test, so `"..."` is kept
while `"()"` is dropped.

## Model

| member | source | states |
|---|---|---|
| WordCloudProc.PreprocessIsOneFilter | backend/utils/wordcloud_processor.py:82-101 | the chain of list comprehensions equals one order-preserving filter by a single acceptance condition |
| WordCloudProc.PreprocessKeeps | backend/utils/wordcloud_processor.py:82-101 | result is a subsequence of the tokens. A token is kept iff it is not a punctuation substring, not numeric, longer than 1 or "a"/"i", and (with remove_stopwords) neither a stopword nor a lower-cased custom stopword |
| WordCloudProc.StopwordsIgnoredWhenNotRemoving | backend/utils/wordcloud_processor.py:93-99 | without remove_stopwords, neither the stopword set nor the custom list has any effect |
| WordCloudProc.CustomStopwordRemoved | backend/utils/wordcloud_processor.py:96-99 | a custom stopword's lower-cased form never survives when stopwords are removed |
| WordCloudProc.PunctuationIsSubstringTest | backend/utils/wordcloud_processor.py:85-86 | "..." survives (not a substring of the punctuation constant) while "!", "()" and "" are dropped |
| WordCloudProc.LetterTokensAreNotPunctuation | backend/utils/wordcloud_processor.py:85-86 | a token starting with an ASCII letter passes the punctuation test |
| Counting.Count | backend/utils/wordcloud_processor.py:103-113 | distinct keys, keys are the deduplicated tokens in first-occurrence order, every value is the occurrence count, values sum to the number of tokens |
| Counting.CountIsExact | backend/utils/wordcloud_processor.py:103-113 | a word is a key iff it is a token; each entry holds its occurrence count; total equals len(tokens) |
| Counting.CountFirstOccurrenceOrder | backend/utils/wordcloud_processor.py:113 | key i comes before key j exactly in the order of their first occurrences in the tokens |
| Counting.BumpFacts | backend/utils/wordcloud_processor.py:113 | one `counter[w] += 1`: keys stay distinct, an existing key keeps its place, a new key goes last, only w's count rises by 1 |
| Counting.DedupShorter | backend/utils/wordcloud_processor.py:113 | never more distinct words than tokens |
| WordCloudProc.KeepWhere | backend/utils/wordcloud_processor.py:334-340 | one threshold loop builds exactly the order-preserving filter of the table |
| WordCloudProc.ApplyThresholds | backend/utils/wordcloud_processor.py:329-361 | min pass then max pass equal one filter by both inclusive bounds; a bound that is None or fails int() is skipped |
| WordCloudProc.ThresholdMeaning | backend/utils/wordcloud_processor.py:329-361 | the result is a sub-table with unchanged counts, and an entry survives iff min <= count <= max |
| WordCloudProc.UncoercibleBoundsSkipped | backend/utils/wordcloud_processor.py:342-344 | bounds whose int() fails leave the table untouched |
| WordCloudProc.MinThresholdMonotone | backend/utils/wordcloud_processor.py:329-341 | raising the minimum only removes entries |
| WordCloudProc.ColorNamesCaseInsensitive | backend/utils/wordcloud_processor.py:370-400 | names are looked up lower-cased; unknown names pass through in their original case; "transparent" gives None |
| WordCloudProc.PrepareCloud | backend/utils/wordcloud_processor.py:319-419 | empty token list raises "No valid words…", empty thresholded table raises "No words meet…"; otherwise the table, max_words = min(len, max_words), translated colours, mask None and the top 10 |
| WordCloudProc.CloudWordsAreCountedTokens | backend/utils/wordcloud_processor.py:325-361 | every word handed to the layout is a token, with its exact count, inside the bounds |
| WordCloudProc.Converted | backend/utils/wordcloud_processor.py:267-275 | each value converted in place: an int kept, a string read by int() or 1 when that fails |
| WordCloudProc.GetTopNWords | backend/utils/wordcloud_processor.py:262-277 | the first n of the stable descending sort of the converted table: length min(n, len), non-increasing, a sub-multiset |
| WordCloudProc.StringCountsReadBack | backend/utils/wordcloud_processor.py:269-271 | a count stored as its decimal string converts back to itself |
| WordCloudProc.UnreadableCountIsOne | backend/utils/wordcloud_processor.py:272-273 | a string that does not start with a digit or sign counts as 1 |
| Ranking.SortDesc | backend/utils/wordcloud_processor.py:277 | non-increasing, a permutation, and for every count the entries with that count keep their order (stability) |
| Ranking.StableSortUnique | backend/utils/wordcloud_processor.py:277 | any non-increasing sequence that keeps each count's entries in table order is exactly the sort result |
| Ranking.InsertKeepsOrder | backend/utils/wordcloud_processor.py:277 | inserting one entry into a sorted list keeps it sorted, adds exactly that entry, and puts it first among equal counts |
| Ranking.Take | backend/utils/wordcloud_processor.py:277 | `[:n]` is a prefix of length min(n, len) for n >= 0, Python's from-the-end reading for negative n |
| Ranking.TopN | backend/utils/advanced_processor.py:642 | the first n of the stable sort: length min(n, len), non-increasing, a sub-multiset |
| Ranking.TopNCutsAtCount | backend/utils/advanced_processor.py:642 | every entry left out has a count no higher than every entry kept |
| Masks.Render | backend/utils/wordcloud_processor.py:145-154 | an elementwise numpy grid is the h×w picture of its shape |
| Masks.TriangleShape | backend/utils/wordcloud_processor.py:162-169 | row 0 empty; each row one in-bounds run of floor((w-1)·i/(h-1)) cells from (w-lw)//2; widths non-decreasing; last row width-1 cells from column 0 |
| Masks.TriangleRowInBounds | backend/utils/wordcloud_processor.py:166-169 | a row's run lies inside the grid |
| Masks.LineWidthMonotone | backend/utils/wordcloud_processor.py:167 | the triangle never narrows downwards |
| Masks.TriangleMask | backend/utils/wordcloud_processor.py:163-169 | the row loop fills a fresh height×width array with exactly the triangle pixels |
| Masks.PaintCircle | backend/utils/wordcloud_processor.py:179-183 | one circle applied to every pixel: set to 255 (create_mask) or +255 mod 256 (preview) inside, unchanged outside |
| Masks.CloudMask | backend/utils/wordcloud_processor.py:171-183 | a zeroed grid with the five circles applied in order |
| Masks.CloudUnionMeaning | backend/utils/wordcloud_processor.py:179-183 | create_mask's cloud is 255 exactly where some circle covers the pixel |
| Masks.CloudSumMeaning | backend/utils/wordcloud_processor.py:555-562 | the preview cloud holds 255·c mod 256 for c covering circles, i.e. 256-c |
| Masks.CloudMasksAgreeOnSupport | backend/utils/wordcloud_processor.py:179-183 | both clouds mark the same pixels; overlaps are below 255 only in the preview |
| Masks.DiamondInsideCircle | backend/utils/wordcloud_processor.py:145-154 | the scaled diamond lies inside the circle |
| Masks.CircleInsideSquare | backend/utils/wordcloud_processor.py:145-149 | the circle lies strictly within min(cx, cy) of the centre |
| Masks.PreviewDiamondIsLarger | backend/utils/wordcloud_processor.py:532-540 | the preview diamond contains create_mask's and is strictly larger (pixel (50, 95) on 100×100) |
| Masks.PixelsAreBytes | backend/utils/wordcloud_processor.py:149 | every pixel is a uint8; all but the preview cloud's are 0 or 255 |
| Masks.CreateMask | backend/utils/wordcloud_processor.py:115-235 | "none" is no mask (a full 255 grid for preview); circle, diamond (0.8 scale) and cloud grids; triangle raises for height 1; unknown names are no mask |
| Masks.ShapePreview | backend/utils/wordcloud_processor.py:476-589 | "none" and unknown names give the full 255 grid; unscaled diamond; uint8-summed cloud; a one-row triangle ends in the transparent image |
| AdvancedProc.Kept | backend/utils/advanced_processor.py:125-133 | the two comprehensions are one order-preserving filter: the result is a subsequence of the tokens, and an input token is kept iff it is not a punctuation substring, not numeric when numbers are removed, and at least min_word_length long |
| AdvancedProc.Lemmatized | backend/utils/advanced_processor.py:136-137 | same length; each token is its lemma when lemmatizing, else itself |
| AdvancedProc.WithoutStopwords | backend/utils/advanced_processor.py:140-145 | a subsequence of the words, in order; a word is kept iff remove_stopwords is off or it is neither an NLTK stopword nor a lower-cased custom stopword |
| AdvancedProc.StopwordStagesAreOneFilter | backend/utils/advanced_processor.py:140-145 | the NLTK pass and the custom pass (skipped for an empty list) together equal one filter by the stopword test |
| AdvancedProc.PreprocessAdvancedOrigin | backend/utils/advanced_processor.py:122-147 | the output is a subsequence of the lemmas of the accepted tokens, in input order; every output token is the lemma of an input token that passed the punctuation, number and length tests and is no stopword; conversely the lemma of every accepted token that is no stopword is in the output |
| AdvancedProc.LemmaMayBeShorterThanMinimum | backend/utils/advanced_processor.py:133-141 | the length test precedes lemmatization: "was" comes out as the too-short lemma "wa" |
| AdvancedProc.Clean | backend/utils/advanced_processor.py:552 | removing non-word, non-space characters never lengthens a word |
| AdvancedProc.CollectTokens | backend/utils/advanced_processor.py:545-574 | the nested loop appends exactly the accepted (and lemmatized) words of every sentence, in order |
| AdvancedProc.AppendWordTokens | backend/utils/advanced_processor.py:550-574 | the inner loop appends exactly the accepted words of one sentence |
| AdvancedProc.TokensComeFromAcceptedWords | backend/utils/advanced_processor.py:545-574 | every token stems from a word of some sentence that passed all the skip tests |
| AdvancedProc.StepAccepts | backend/utils/advanced_processor.py:552-572 | a word is appended iff cleaned it is non-empty, not all digits when numbers are removed, long enough and not a stopword; the appended form is its lemma when lemmatizing |
| AdvancedProc.StopSetMeaning | backend/utils/advanced_processor.py:535-539 | custom stopwords apply even without remove_stopwords; the library set only with it |
| AdvancedProc.FilterByFrequency | backend/utils/advanced_processor.py:581-623 | the one-pass filter equals the inclusive-bounds filter; a bound whose int() fails is skipped for every word |
| AdvancedProc.ProcessText | backend/utils/advanced_processor.py:511-628 | the tokens, the count table filtered by the bounds, and processed_text = the tokens whose word survived, joined by spaces |
| AdvancedProc.ProcessedTextMeaning | backend/utils/advanced_processor.py:626 | processed_text keeps, in order and with repetitions, exactly the tokens whose own count is within the bounds |
| AdvancedProc.WordInFilteredTable | backend/utils/advanced_processor.py:581-626 | a token's word is in the filtered table iff its occurrence count is within the bounds |
| AdvancedProc.UniqueAtMostTotal | backend/utils/advanced_processor.py:577-623 | the filtered table is no larger than the table, which is no larger than the token list |
| AdvancedProc.SnippetShape | backend/utils/advanced_processor.py:652-668 | up to 200 characters the sentence itself; beyond, the window [start-100, end+100] clamped, with "..." exactly on the cut sides |
| AdvancedProc.SnippetContainsMatch | backend/utils/advanced_processor.py:652-668 | the matched text always occurs inside its snippet |
| AdvancedProc.SnippetsFor | backend/utils/advanced_processor.py:649-672 | the inner loop keeps the first 3 snippets of the matching sentences, in sentence order |
| AdvancedProc.ExtractWordContext | backend/utils/advanced_processor.py:641-674 | the context of the top 20 words, each with its first 3 snippets; no entry for a word without a match |
| AdvancedProc.CollectContext | backend/utils/advanced_processor.py:647-674 | the outer loop produces the context entries of the chosen words in order |
| AdvancedProc.ContextEntries | backend/utils/advanced_processor.py:645-674 | no more entries than words; every key one of the words with 1 to 3 snippets that are its first matches |
| AdvancedProc.ContextComplete | backend/utils/advanced_processor.py:648-668 | every word with a match has an entry |
| AdvancedProc.ContextOfTopWords | backend/utils/advanced_processor.py:642-643 | the context has at most 20 entries |
| AdvancedProc.CoercedBound | backend/utils/advanced_processor.py:444-458 | a bound becomes an int exactly when int() succeeds, else None |
| AdvancedProc.CoercionKeepsThresholds | backend/utils/advanced_processor.py:444-466 | coercing before the call changes no threshold decision, and coercing twice equals once |
| AdvancedProc.TopWords | backend/utils/advanced_processor.py:493-495 | exactly the first min(50, len) entries of the stable descending sort (ties in table order): non-increasing, a sub-multiset of the table, and everything left out ranks no higher than everything kept |
| Sentiment.Categorize | backend/utils/advanced_processor.py:692-697 | positive iff polarity > 0.2, negative iff < -0.2, neutral iff in [-0.2, 0.2] |
| Sentiment.CategorizeMonotone | backend/utils/advanced_processor.py:692-697 | a higher polarity never gets a lower category |
| Sentiment.CategorizeSubjectivity | backend/utils/advanced_processor.py:319-324 | subjective iff > 0.6, objective iff < 0.4, neutral in [0.4, 0.6] |
| Sentiment.Shorten | backend/utils/advanced_processor.py:725 | the first 100 characters, plus "..." exactly when the text was longer |
| Sentiment.LongOnesMembers | backend/utils/advanced_processor.py:712 | exactly the sentences of more than 5 characters are kept, in order |
| Sentiment.Analysed | backend/utils/advanced_processor.py:707-733 | at most 15 sentences are analysed, all longer than 5 characters |
| Sentiment.AnalyzeSentiment | backend/utils/advanced_processor.py:676-753 | overall category; breakdown counts are the list lengths; examples the first 3 of each list; analysis the first 10 notes |
| Sentiment.ClassifySentences | backend/utils/advanced_processor.py:703-733 | the loop leaves the three lists and the notes of exactly the analysed sentences |
| Sentiment.Record | backend/utils/advanced_processor.py:713-729 | one analysed sentence goes to its category's list and adds its note |
| Sentiment.AnalysedStopsAt | backend/utils/advanced_processor.py:731-733 | once 15 sentences have been analysed, the rest are never looked at |
| Sentiment.TextsPartition | backend/utils/advanced_processor.py:714-722 | every analysed sentence is in exactly one of the three lists |
| Sentiment.BreakdownAtMost15 | backend/utils/advanced_processor.py:746-750 | the three breakdown counts add up to at most 15 |
| Sentiment.TextsInOrigin | backend/utils/advanced_processor.py:737-739 | every example is the text of an analysed sentence of that category |
| Sentiment.SentenceCounts | backend/utils/advanced_processor.py:333-335 | positive is the number of sentences above 0.1, negative those below -0.1, neutral those in [-0.1, 0.1]; the three add up to the number of sentences |
| Sentiment.CountsPartition | backend/utils/advanced_processor.py:333-335 | above 0.1, below -0.1 and [-0.1, 0.1] partition the sentences |
| Sentiment.AnalyzeSentimentAdvanced | backend/utils/advanced_processor.py:285-337 | both categories, the sentence list, and counts that are the sizes of the above-0.1, below--0.1 and [-0.1, 0.1] classes, summing to the number of sentences |
| Sentiment.CutOffsDiffer | backend/utils/advanced_processor.py:311-316 | a sentence categorised positive is counted positive, but not conversely (0.15) |
| Statistics.Buckets | backend/utils/advanced_processor.py:792-794 | bucket k holds the number of words counted exactly k times |
| Statistics.FrequencyDistribution | backend/utils/advanced_processor.py:792-795 | the range loop fills buckets 1..10, and "more" counts the words above 10 |
| Statistics.HistogramCoversTable | backend/utils/advanced_processor.py:792-795 | for positive counts, the buckets plus "more" account for every word exactly once |
| Statistics.CountedHistogram | backend/utils/advanced_processor.py:792-795 | the histogram of a counted table sums to its number of words |
| Statistics.CalculateStatistics | backend/utils/advanced_processor.py:755-806 | word, unique, character, alpha and sentence counts; averages and diversity 0 without tokens or sentences, else the quotients; histogram; text_length |
| Statistics.DiversityBounds | backend/utils/advanced_processor.py:776 | for a counted table and non-empty tokens, lexical diversity lies in (0, 1] |
| Statistics.AverageAtMostLongest | backend/utils/advanced_processor.py:775 | the average word length never exceeds the longest token |
| FileProc.Ext | backend/utils/file_processor.py:49 | splitext: empty, or a dot-led suffix of the path with no other dot and no slash |
| FileProc.ExtOfName | backend/utils/file_processor.py:49 | in a plain name the extension starts at the last dot unless only dots precede it |
| FileProc.ExtOfStem | backend/utils/file_processor.py:49-51 | stem.ext has extension .ext ("report.doc" gives .doc) |
| FileProc.DotFileHasNoExt | backend/utils/file_processor.py:49-55 | ".htm" alone has no extension, so it is unsupported |
| FileProc.Fields | backend/utils/file_processor.py:72 | `split()` pieces are non-empty runs of non-whitespace that, concatenated, give exactly the non-whitespace characters of the text in order; there is no piece iff the text is all whitespace |
| FileProc.RunsSplit | backend/utils/file_processor.py:72 | whitespace between two texts separates their fields: the fields of a + w + b are those of a followed by those of b |
| FileProc.ExtractTextFromFile | backend/utils/file_processor.py:29-80 | a raising getsize is the processing error, then too large, then unsupported type; a raising reader is the processing error and an empty or all-whitespace text is "no text content"; on success word and character counts, size and type |
| FileProc.BatchProcessFiles | backend/utils/file_processor.py:280-287 | one result per path, in order, each the extraction result tagged with its path |
| FileProc.ValidateFile | backend/utils/file_processor.py:289-338 | first failing check among exists, is-file, getsize (raising gives the validation error), size, extension (unsupported with the extension); valid carries the size and the extension |
| FileProc.ValidFilesPassTheSameChecks | backend/utils/file_processor.py:41-55 | a valid file fails extraction only on its reader or empty text, with the same size and type |
| FileProc.SplitLines | backend/utils/file_processor.py:262 | `splitlines()` pieces contain no line break, and each line followed by its removed break ("\r\n" or a single break character, nothing after the last line) rebuilds the text |
| FileProc.LineEndsAreBreaks | backend/utils/file_processor.py:262 | every removed line end is "\r\n" or a single break character, except an empty one after the last line |
| FileProc.SplitDouble | backend/utils/file_processor.py:263 | `split("  ")` gives at least one piece, none with a double space, and joining the pieces with "  " gives back the text |
| FileProc.ChunksAreClean | backend/utils/file_processor.py:262-264 | every surviving chunk is non-empty, stripped, without breaks or double spaces |
| FileProc.CleanWhitespaceShape | backend/utils/file_processor.py:262-264 | the cleaned text has no line breaks, no two adjacent spaces and no whitespace at either end |
| FileProc.CleanWhitespaceIdempotent | backend/utils/file_processor.py:262-264 | cleaning twice equals cleaning once |
| FileProc.CleanWhitespaceKeepsWords | backend/utils/file_processor.py:262-264 | cleaning changes only whitespace: the cleaned text has exactly the same `split()` words, in order |
| Auth.SplitOn | backend/auth.py:21 | `split(" ")` gives at least one piece, none containing the separator |
| Auth.SplitJoin | backend/auth.py:21 | joining the pieces with the separator gives back the string |
| Auth.SplitOnHasSecond | backend/auth.py:21-23 | there is a second piece iff the separator occurs |
| Auth.ParseAuthorization | backend/auth.py:18-26 | invalid format iff the header has no space; otherwise the token is the second field, and an empty one is a missing token |
| Auth.BearerHeader | backend/auth.py:18-21 | "scheme token" yields the token |
| Auth.DoubleSpaceHeader | backend/auth.py:21-26 | two spaces after the scheme count as a missing token |
| Auth.TokenRequired | backend/auth.py:12-41 | every rejection is a 401: "Invalid token format" without a space, "Token is missing" without a header or with an empty second field, "Token has expired", "Invalid token" for a bad token or an unknown user; allowed iff a token parses, verifies and names an existing user, who is passed on |
| Auth.AdminRequired | backend/auth.py:42-50 | allowed iff the session user is authenticated with role "admin", else 403 |
| Auth.UpdateUserRole | backend/auth.py:315-345 | a token denial passes through unchanged, then 403 without an admin session, 404 "User not found", 400 "Invalid role"; updated iff token, admin, existing user and (if given) an allowed role; the role and is_active change as requested and nothing else |
| Auth.UpdateKeepsRolesAllowed | backend/auth.py:327-331 | an update never introduces a role outside user/admin/enterprise |
| Auth.ValidatePassword | backend/auth.py:56-70 | valid iff at least 8 long with an upper, a lower and a digit; otherwise the first failing check's message |
| Auth.PasswordMessageDecides | backend/auth.py:56-70 | the flag is true iff the message is "Password is valid" |
| Auth.MatchesEmailIffPattern | backend/auth.py:53 | the search-free reading accepts exactly the strings of the pattern local@domain.tld |
| Auth.ValidateEmail | backend/auth.py:51-54 | accepted iff the string, or the string less one final newline, matches local@domain.tld |
| Auth.EmailHasOneAt | backend/auth.py:51-54 | an accepted address contains exactly one "@" |
| Auth.EmailExamples | backend/auth.py:53 | "a@b.cd\n" is accepted; "a@b.c" is not |
| Common.Strip | backend/app.py:254 | `strip()` gives a trimmed contiguous piece, only whitespace removed at either end |
| Common.StripEmptyIffAllSpace | backend/app.py:254-260 | the stripped text is empty iff the text is all whitespace |
| Common.ParseInt | backend/app.py:282 | `int(s)` succeeds iff s is, after whitespace, an optional sign and decimal digits |
| Common.ParseIntRoundTrip | backend/app.py:282 | `int(str(n)) == n` |
| Common.Filter | backend/utils/wordcloud_processor.py:85-99 | a comprehension filter: no longer, members exactly the input elements meeting the condition |
| Common.FilterFilter | backend/utils/wordcloud_processor.py:85-99 | two filters in a row equal one filter by both conditions |
| Common.FilterIsSubsequence | backend/utils/wordcloud_processor.py:85-99 | a filter keeps order |
| App.ValidateText | backend/app.py:245-276 | no body first, then a non-string text is a 500, then empty after strip, shorter than 10, longer than 1 048 576; accepted text is stripped and within bounds |
| App.CoerceSettings | backend/app.py:279-295 | coercion keeps the key set |
| App.Settings.CoerceFrequencies | backend/app.py:279-295 | the settings dict is updated in place to the coerced settings |
| App.CoerceSettingsMeaning | backend/app.py:279-295 | other keys untouched; a present bound is int(bound) or None exactly when int() fails; coercing twice equals once |
| App.IndexOfKey | backend/app.py:350 | the first position holding the key, or the length |
| App.EnsureStrKeys | backend/app.py:348-354 | lists keep their length, dicts never grow, scalars are unchanged |
| App.StrKeyEntriesMeaning | backend/app.py:349-350 | the converted dict has one entry per distinct str(key), in order of first occurrence, each holding the converted value of the last entry with that str(key) |
| App.EveryKeySurvives | backend/app.py:349-350 | every key of the input dict appears in the result as its str() |
| App.NoNewKeys | backend/app.py:349-350 | every key of the result is str() of some input key |
| App.StrKeyItems | backend/app.py:352 | list items converted one for one |
| App.EnsureStrKeysNormal | backend/app.py:348-354 | the result has only string keys, distinct, at every depth |
| App.UpsertNormal | backend/app.py:350 | storing under a string key keeps a dict's keys distinct and stringified |
| App.NormalUnchanged | backend/app.py:348-354 | a value with string keys everywhere is returned unchanged |
| App.EnsureStrKeysIdempotent | backend/app.py:348-354 | applying the conversion twice equals applying it once |
| App.IntKeysBecomeStrings | backend/app.py:350 | an int-keyed histogram comes back with "1" as key, in order |
| App.MaskPreview | backend/app.py:467-520 | a non-integer dimension is a 500, one outside [50, 1000] a 400, else an h×w preview that shows the requested shape (default "none"): circle, unscaled diamond, triangle, uint8-summed cloud, or the full grid |
| App.ExportCsv | backend/app.py:418-429 | the header row, then a row per word in stable descending order of frequency |
| App.CsvRowsDescending | backend/app.py:428-429 | the frequency column reads back as the counts, non-increasing |

## Left out

- Word placement and rendering: the layout library, matplotlib, PNG and base64 encoding. They are external, so the model ends at what is handed to the layout.
- NLTK, TextBlob, textstat, langdetect, gensim and sklearn are function parameters. `extract_keywords`, `perform_topic_modeling`, `analyze_readability`, `extract_entities` and `detect_language` only wrap them.
- Star and heart masks: they use trigonometry, PIL drawing and a float curve. `Masks.CreateMask`, `Masks.ShapePreview` and `App.MaskPreview` require a shape other than these two.
- Float boundary effects: `width*0.3`, `min(...)*0.8` and the like are modelled by their exact rational intent. A pixel on a float rounding boundary may differ.
- Masks.LineWidth: the triangle row width `int(w * (i/h))` is exact floor division here, while the source rounds `i/h` to binary floating point first. When the product should be a whole number it can fall just below it: in a square grid (`w == h`) with `h = 49`, `(1/49)*49` is `0.9999999999999999`, so on a 50×50 triangle row 1 is empty in the source and one pixel wide in the model.
- `round(...)` of the reported averages and polarities, and `processing_time`. Averages are exact rationals.
- `WordCloudProcessor.extract_word_context`: its pattern matches only a literal `\b…\b` around the word (a backslash-b written out in the sentence), and the advanced pipeline discards its result.
- `generate_color_function`: it reads an attribute that does not exist, so it is dead code.
- `convert_numpy_types`: runtime dispatch on numpy scalar classes.
- File and URL I/O: the PDF, DOCX, CSV, Excel and HTML readers, `requests` and `extract_text_from_url`. Readers are a parameter returning text or failure; the URL route's cleanup is the same `CleanWhitespace`.
- models.py, Flask routing, JWT signing, password hashing, the database, Celery, SocketIO and the frontend are outside the model.
- Common.Lower: lower-casing is ASCII only; Python's full Unicode case mapping is not modelled.
- Common.ParseInt: `int()` is modelled for ASCII digits with an optional sign. Underscore separators and non-ASCII digits are not modelled.
- Common.IntCoerce: `int()` of an infinite float raises OverflowError, which the source does not catch; decoded JSON values here are finite.
- Auth.ValidatePassword: `\d` is taken as the ASCII digits only; Python also matches other Unicode decimal digits.
- Masks.ShapePreview: PIL failures other than the one-row triangle's division by zero are not modelled.
- Sentiment.AnalyzeSentimentAdvanced: the per-sentence and whole-analysis exception fallbacks are not modelled; the analyser is assumed to answer.
- App.ValidateText: a JSON body that is a non-empty list or scalar, which makes `.get` raise, is not modelled; the body is a dict or a JSON `null`. A body that is not JSON or is malformed makes `get_json()` raise, which the route answers with a 500; that parse failure is not modelled either.
- App.CoerceSettings: a `settings` value that is not a JSON object (`null`, a list, a string) is not modelled; settings are a map here. For `null` the membership test at line 279 raises and the route answers with a 500.
- App.ExportCsv: rows are lists of fields; the CSV quoting of `csv.writer` is not modelled.
- AdvancedProc.FilterByFrequency: `int()` of each bound is computed once rather than per word, which gives the same result.
- Auth.TokenRequired: `jwt.decode` and the user lookup are one function parameter giving expired, invalid or a user id. A token that verifies but carries no `user_id` makes `data['user_id']` raise a KeyError that nothing catches, which ends in a 500; that outcome is not one of the modelled verdicts.
- Auth.UpdateUserRole: a request body that is not a JSON object, which the source answers with a 500, is not modelled; the body is a dict.
