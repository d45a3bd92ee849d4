/**
 * The decisions of `FileProcessor` (backend/utils/file_processor.py): the
 * extension of a path as `os.path.splitext` finds it, the table of
 * supported extensions, the order in which extraction and validation
 * fail, word and character counts, and the whitespace cleanup applied to
 * text taken from HTML. The file system (existence, size) and the format
 * readers are inputs.
 */
module FileProc {
  import opened Common

  // ---------------------------------------------------------------------
  // os.path.splitext and the supported extensions

  /** Lines 16-24: the extensions with an extractor. `.doc` and `.xls` are not among them. */
  const SUPPORTED: set<string> := {".txt", ".pdf", ".docx", ".csv", ".xlsx", ".html", ".htm"}

  /** Line 26: 16 MiB. */
  const MAX_FILE_SIZE: nat := 16 * 1024 * 1024

  /** `p.rfind(c)`: the last index of `c` in `p`, or -1. */
  function LastIndex(p: string, c: char): (r: int)
    ensures -1 <= r < |p|
    ensures r >= 0 ==> p[r] == c
    ensures forall k :: r < k < |p| ==> p[k] != c
  {
    if p == [] then -1
    else if p[|p| - 1] == c then |p| - 1
    else LastIndex(p[..|p| - 1], c)
  }

  /**
   * The extension `os.path.splitext` returns for a POSIX path: from the
   * last dot of the last path component, provided that dot is preceded in
   * the component by something other than dots; otherwise empty.
   */
  function Ext(p: string): (r: string)
    ensures r == [] || (r[0] == '.' && '.' !in r[1..] && '/' !in r)
    ensures |r| <= |p| && r == p[|p| - |r|..]
  {
    var sep := LastIndex(p, '/');
    var dot := LastIndex(p, '.');
    if dot > sep && exists k :: sep + 1 <= k < dot && p[k] != '.' then
      p[dot..]
    else []
  }

  /** What the source compares against its table: the extension of the lower-cased path. */
  function FileType(path: string): string {
    Ext(Lower(path))
  }

  /** For a name without directories, the extension starts at the last dot unless only dots precede it. */
  lemma {:induction false} ExtOfName(p: string, d: nat)
    requires d < |p| && p[d] == '.' && '/' !in p
    requires forall k :: d < k < |p| ==> p[k] != '.'
    ensures Ext(p) == if exists k :: 0 <= k < d && p[k] != '.' then p[d..] else []
  {
    assert LastIndex(p, '.') == d;
    if LastIndex(p, '/') >= 0 {
      assert p[LastIndex(p, '/')] in p;
    }
  }

  /**
   * A name `stem.ext` whose stem does not start with a dot has extension
   * `.ext` (`report.doc` gives `.doc`, `a.tar.gz` gives `.gz`).
   */
  lemma {:induction false} ExtOfStem(stem: string, ext: string)
    requires stem != [] && stem[0] != '.' && '/' !in stem
    requires '/' !in ext && '.' !in ext
    ensures Ext(stem + "." + ext) == "." + ext
  {
    var p := stem + "." + ext;
    var d := |stem|;
    assert p[..d] == stem && p[d..] == "." + ext;
    assert forall k :: d < k < |p| ==> p[k] == ext[k - d - 1];
    assert '/' !in p by {
      assert forall k :: 0 <= k < |p| ==> p[k] in stem || p[k] == '.' || p[k] in ext;
    }
    ExtOfName(p, d);
  }

  /** A dot file such as `.htm` has no extension, so it is refused as unsupported. */
  lemma {:induction false} DotFileHasNoExt(name: string)
    requires '.' !in name && '/' !in name
    ensures Ext("." + name) == []
  {
    var p := "." + name;
    assert forall k :: 0 < k < |p| ==> p[k] == name[k - 1];
    ExtOfName(p, 0);
  }

  // ---------------------------------------------------------------------
  // str.split() and the word count

  /** The number of non-whitespace characters at the front of `s`. */
  function Run(s: string): (n: nat)
    ensures n <= |s|
    ensures forall k :: 0 <= k < n ==> !IsSpace(s[k])
    ensures n < |s| ==> IsSpace(s[n])
  {
    if s == [] || IsSpace(s[0]) then 0 else Run(s[1..]) + 1
  }

  /**
   * `s.split()`: the maximal runs of non-whitespace characters. Put back
   * together they are the non-whitespace characters of `s`, in order, and
   * a whitespace gap always separates two of them (`RunsSplit`).
   */
  function Fields(s: string): (r: seq<string>)
    ensures forall f :: f in r ==> f != [] && forall k :: 0 <= k < |f| ==> !IsSpace(f[k])
    ensures Concat(r) == NonSpace(s)
    ensures r == [] <==> AllSpace(s)
  {
    RunsCover(s);
    RunsEmptyIffAllSpace(s);
    Runs(s)
  }

  /** The runs of non-whitespace characters, left to right. */
  function Runs(s: string): (r: seq<string>)
    ensures forall f :: f in r ==> f != [] && forall k :: 0 <= k < |f| ==> !IsSpace(f[k])
    decreases |s|
  {
    if s == [] then []
    else if IsSpace(s[0]) then Runs(s[1..])
    else [s[..Run(s)]] + Runs(s[Run(s)..])
  }

  lemma {:induction false} RunsCover(s: string)
    ensures Concat(Runs(s)) == NonSpace(s)
    decreases |s|
  {
    if s != [] {
      if IsSpace(s[0]) {
        RunsCover(s[1..]);
      } else {
        var n := Run(s);
        RunsCover(s[n..]);
        NonSpaceOfRun(s, n);
        ConcatCons(s[..n], Runs(s[n..]));
      }
    }
  }

  /** The non-whitespace characters of `s`, in order. */
  function NonSpace(s: string): string {
    if s == [] then [] else (if IsSpace(s[0]) then [] else [s[0]]) + NonSpace(s[1..])
  }

  /** `''.join(parts)`. */
  function Concat(parts: seq<string>): string {
    if parts == [] then [] else parts[0] + Concat(parts[1..])
  }

  lemma {:induction false} ConcatCons(p: string, parts: seq<string>)
    ensures Concat([p] + parts) == p + Concat(parts)
  {
    assert ([p] + parts)[1..] == parts;
  }

  /** A leading run of non-spaces is kept whole. */
  lemma {:induction false} NonSpaceOfRun(s: string, n: nat)
    requires n <= |s| && forall k :: 0 <= k < n ==> !IsSpace(s[k])
    ensures NonSpace(s) == s[..n] + NonSpace(s[n..])
  {
    if n > 0 {
      NonSpaceOfRun(s[1..], n - 1);
      assert s[1..][n - 1..] == s[n..];
      assert s[..n] == [s[0]] + s[1..][..n - 1];
    }
  }

  /** A text has a word exactly when it is not all whitespace. */
  lemma {:induction false} RunsEmptyIffAllSpace(s: string)
    ensures Runs(s) == [] <==> AllSpace(s)
  {
    if s != [] && IsSpace(s[0]) {
      RunsEmptyIffAllSpace(s[1..]);
      if AllSpace(s[1..]) {
        assert forall k :: 1 <= k < |s| ==> s[k] == s[1..][k - 1];
      }
    }
  }

  /** `Run` is the one index with non-spaces before it and a space (or the end) at it. */
  lemma {:induction false} RunUnique(s: string, m: nat)
    requires m <= |s| && (forall k :: 0 <= k < m ==> !IsSpace(s[k])) && (m < |s| ==> IsSpace(s[m]))
    ensures Run(s) == m
  {
  }

  /** Whitespace in front of a text adds no field. */
  lemma {:induction false} RunsSpacePrefix(w: string, s: string)
    requires AllSpace(w)
    ensures Runs(w + s) == Runs(s)
  {
    if w == [] {
      assert w + s == s;
    } else {
      assert (w + s)[0] == w[0] && IsSpace(w[0]);
      assert (w + s)[1..] == w[1..] + s;
      RunsSpacePrefix(w[1..], s);
    }
  }

  /**
   * A whitespace gap separates fields: the fields of `a + w + b` are those
   * of `a` followed by those of `b` (a gap may be empty only at the end).
   */
  lemma {:induction false} RunsSplit(a: string, w: string, b: string)
    requires AllSpace(w) && (w == [] ==> b == [])
    ensures Runs(a + w + b) == Runs(a) + Runs(b)
    decreases |a|
  {
    if a == [] {
      RunsSpacePrefix(w, b);
      assert a + w + b == w + b;
    } else if IsSpace(a[0]) {
      RunsSplit(a[1..], w, b);
      RunsSplitSpace(a, w, b);
    } else if Run(a) < |a| {
      RunsSplit(a[Run(a)..], w, b);
      RunsSplitInside(a, w, b);
      Associative([a[..Run(a)]], Runs(a[Run(a)..]), Runs(b));
    } else if w == [] {
      assert a + w + b == a;
    } else {
      RunsSpacePrefix(w, b);
      RunsSplitAtEnd(a, w, b);
    }
  }

  lemma {:induction false} Associative(x: seq<string>, y: seq<string>, z: seq<string>)
    ensures x + (y + z) == (x + y) + z
  {
  }

  /** A leading space of `a` is skipped in both. */
  lemma {:induction false} RunsSplitSpace(a: string, w: string, b: string)
    requires a != [] && IsSpace(a[0])
    ensures Runs(a + w + b) == Runs(a[1..] + w + b)
    ensures Runs(a) == Runs(a[1..])
  {
    var s := a + w + b;
    assert s[0] == a[0];
    assert s[1..] == a[1..] + w + b;
  }

  /** The first field of `a` ends inside `a`: it is also the first field of `a + w + b`. */
  lemma {:induction false} RunsSplitInside(a: string, w: string, b: string)
    requires a != [] && !IsSpace(a[0]) && Run(a) < |a|
    ensures Runs(a + w + b) == [a[..Run(a)]] + Runs(a[Run(a)..] + w + b)
    ensures Runs(a) == [a[..Run(a)]] + Runs(a[Run(a)..])
  {
    var s := a + w + b;
    var na := Run(a);
    assert s[0] == a[0];
    RunUnique(s, na);
    assert s[..na] == a[..na];
    assert s[na..] == a[na..] + w + b;
  }

  /** `a` is one field, and the gap after it ends it. */
  lemma {:induction false} RunsSplitAtEnd(a: string, w: string, b: string)
    requires a != [] && !IsSpace(a[0]) && Run(a) == |a| && w != [] && AllSpace(w)
    ensures Runs(a + w + b) == [a] + Runs(w + b)
    ensures Runs(a) == [a]
  {
    var s := a + w + b;
    assert s[0] == a[0];
    assert s[|a|] == w[0];
    RunUnique(s, |a|);
    assert s[..|a|] == a;
    assert s[|a|..] == w + b;
    assert a[..|a|] == a && a[|a|..] == [];
  }

  /** The fields of each piece in turn. */
  function RunsOf(pieces: seq<string>): seq<string> {
    if pieces == [] then [] else Runs(pieces[0]) + RunsOf(pieces[1..])
  }

  // ---------------------------------------------------------------------
  // extract_text_from_file

  datatype Failure =
    | TooLarge(size: nat)
    | UnsupportedType(ext: string)
    | NoTextContent
    | ProcessingError

  datatype Extraction =
    | Extracted(text: string, fileSize: nat, fileType: string, wordCount: nat, characterCount: nat)
    | Failed(failure: Failure)

  /**
   * Lines 41-74. `size` is `os.path.getsize`, `None` when it raises;
   * `read(ext, path)` is the extractor registered for `ext`, `None` when
   * it raises. Both exceptions end in the generic processing error.
   */
  function ExtractTextFromFile(path: string, size: Option<nat>,
                               read: (string, string) -> Option<string>): (r: Extraction)
    ensures size.None? ==> r == Failed(ProcessingError)
    ensures size.Some? && size.value > MAX_FILE_SIZE ==> r == Failed(TooLarge(size.value))
    ensures size.Some? && size.value <= MAX_FILE_SIZE && FileType(path) !in SUPPORTED ==>
      r == Failed(UnsupportedType(FileType(path)))
    ensures (size.Some? && size.value <= MAX_FILE_SIZE && FileType(path) in SUPPORTED
             && read(FileType(path), path).None?) ==>
      r == Failed(ProcessingError)
    ensures (size.Some? && size.value <= MAX_FILE_SIZE && FileType(path) in SUPPORTED
             && read(FileType(path), path).Some? && AllSpace(read(FileType(path), path).value)) ==>
      r == Failed(NoTextContent)
    ensures r.Extracted? <==>
      && size.Some? && size.value <= MAX_FILE_SIZE && FileType(path) in SUPPORTED
      && read(FileType(path), path).Some? && !AllSpace(read(FileType(path), path).value)
    ensures r.Extracted? ==>
      && r.text == read(FileType(path), path).value
      && r.fileSize == size.value
      && r.fileType == FileType(path) && r.fileType in SUPPORTED
      && r.wordCount == |Fields(r.text)| >= 1
      && r.characterCount == |r.text|
  {
    if size.None? then Failed(ProcessingError)
    else if size.value > MAX_FILE_SIZE then Failed(TooLarge(size.value))
    else
      var ext := FileType(path);
      if ext !in SUPPORTED then Failed(UnsupportedType(ext))
      else match read(ext, path)
        case None => Failed(ProcessingError)
        case Some(text) =>
          StripEmptyIffAllSpace(text);
          if text == [] || Strip(text) == [] then Failed(NoTextContent)
          else Extracted(text, size.value, ext, |Fields(text)|, |text|)
  }

  /** Lines 280-287: one result per path, in order, each tagged with its path. */
  method BatchProcessFiles(paths: seq<string>, size: string -> Option<nat>,
                           read: (string, string) -> Option<string>)
    returns (results: seq<(string, Extraction)>)
    ensures |results| == |paths|
    ensures forall i :: 0 <= i < |paths| ==>
      results[i] == (paths[i], ExtractTextFromFile(paths[i], size(paths[i]), read))
  {
    results := [];
    var i := 0;
    while i < |paths|
      invariant 0 <= i <= |paths|
      invariant |results| == i
      invariant forall k :: 0 <= k < i ==>
        results[k] == (paths[k], ExtractTextFromFile(paths[k], size(paths[k]), read))
    {
      var result := ExtractTextFromFile(paths[i], size(paths[i]), read);
      results := results + [(paths[i], result)];
      i := i + 1;
    }
  }

  // ---------------------------------------------------------------------
  // validate_file

  datatype Rejection =
    | Missing
    | NotAFile
    | Oversized(size: nat)
    | Unsupported(ext: string)
    | ValidationError

  datatype Validation = Valid(fileSize: nat, fileType: string) | Invalid(reason: Rejection)

  /**
   * Lines 300-338: the first failing check, in the order exists, is a
   * file, size, extension. `size` is `os.path.getsize`, `None` when it
   * raises, which ends in the generic validation error.
   */
  function ValidateFile(path: string, exists_: bool, isFile: bool, size: Option<nat>): (r: Validation)
    ensures !exists_ ==> r == Invalid(Missing)
    ensures exists_ && !isFile ==> r == Invalid(NotAFile)
    ensures r.Valid? <==>
      exists_ && isFile && size.Some? && size.value <= MAX_FILE_SIZE && FileType(path) in SUPPORTED
    ensures r.Valid? ==> r.fileType == FileType(path) && r.fileSize == size.value
    ensures exists_ && isFile && size.None? ==> r == Invalid(ValidationError)
    ensures exists_ && isFile && size.Some? && size.value > MAX_FILE_SIZE ==> r == Invalid(Oversized(size.value))
    ensures exists_ && isFile && size.Some? && size.value <= MAX_FILE_SIZE && FileType(path) !in SUPPORTED ==>
      r == Invalid(Unsupported(FileType(path)))
  {
    if !exists_ then Invalid(Missing)
    else if !isFile then Invalid(NotAFile)
    else if size.None? then Invalid(ValidationError)
    else if size.value > MAX_FILE_SIZE then Invalid(Oversized(size.value))
    else
      var ext := FileType(path);
      if ext !in SUPPORTED then Invalid(Unsupported(ext)) else Valid(size.value, ext)
  }

  /**
   * Validation and extraction agree: a file that validates can only fail
   * extraction because its reader raised or found no text, never on size
   * or type, and it reports the same size and type.
   */
  lemma {:induction false} ValidFilesPassTheSameChecks(path: string, size: Option<nat>, read: (string, string) -> Option<string>)
    requires ValidateFile(path, true, true, size).Valid?
    ensures var r := ExtractTextFromFile(path, size, read);
      r.Failed? ==> r.failure == NoTextContent || r.failure == ProcessingError
    ensures var r := ExtractTextFromFile(path, size, read);
      r.Extracted? ==> r.fileType == ValidateFile(path, true, true, size).fileType
                       && r.fileSize == ValidateFile(path, true, true, size).fileSize
  {
  }

  // ---------------------------------------------------------------------
  // Whitespace cleanup of extracted HTML (lines 131-133 and 262-264)

  /** The characters at which `str.splitlines` breaks. */
  predicate IsLineBreak(c: char) {
    || c == '\n' || c == '\r' || c == '\U{b}' || c == '\U{c}'
    || c == '\U{1c}' || c == '\U{1d}' || c == '\U{1e}' || c == '\U{85}'
    || c == '\U{2028}' || c == '\U{2029}'
  }

  /** Index of the first line break in `s`, or `|s|`. */
  function FirstBreak(s: string): (i: nat)
    ensures i <= |s|
    ensures i < |s| ==> IsLineBreak(s[i])
    ensures forall k :: 0 <= k < i ==> !IsLineBreak(s[k])
  {
    if s == [] || IsLineBreak(s[0]) then 0 else FirstBreak(s[1..]) + 1
  }

  /**
   * `s.splitlines()`: "\r\n" counts as one break, and a final break adds no
   * empty line. Each line followed by its break (`LineEnds`) gives back the
   * text.
   */
  function SplitLines(s: string): (r: seq<string>)
    ensures forall l :: l in r ==> NoBreaks(l)
    ensures |r| == |LineEnds(s)| && Rebuild(r, LineEnds(s)) == s
    decreases |s|
  {
    if s == [] then []
    else
      var i := FirstBreak(s);
      if i == |s| then
        RebuildOne(s);
        [s]
      else
        var j := i + BreakLength(s, i);
        var rest := SplitLines(s[j..]);
        RebuildCons(s[..i], s[i..j], rest, LineEnds(s[j..]));
        ThreeParts(s, i, j);
        [s[..i]] + rest
  }

  lemma {:induction false} RebuildOne(s: string)
    ensures Rebuild([s], [""]) == s
  {
    assert Rebuild([s], [""]) == s + "" + Rebuild([], []);
  }

  /** A break is one character, or two for "\r\n". */
  function BreakLength(s: string, i: nat): (n: nat)
    requires i < |s|
    ensures 1 <= n <= |s| - i
  {
    if s[i] == '\r' && i + 1 < |s| && s[i + 1] == '\n' then 2 else 1
  }

  /** The break that ends each line of `SplitLines(s)`; "" after a last line that has none. */
  function LineEnds(s: string): seq<string>
    decreases |s|
  {
    if s == [] then []
    else
      var i := FirstBreak(s);
      if i == |s| then [""] else [s[i..i + BreakLength(s, i)]] + LineEnds(s[i + BreakLength(s, i)..])
  }

  predicate LineEnd(e: string) {
    e == "\r\n" || (|e| == 1 && IsLineBreak(e[0]))
  }

  /** Each line followed by its break. */
  function Rebuild(lines: seq<string>, ends: seq<string>): string
    requires |lines| == |ends|
  {
    if lines == [] then [] else lines[0] + ends[0] + Rebuild(lines[1..], ends[1..])
  }

  lemma {:induction false} BreakIsLineEnd(s: string, i: nat)
    requires i < |s| && IsLineBreak(s[i])
    ensures LineEnd(s[i..i + BreakLength(s, i)])
  {
    var e := s[i..i + BreakLength(s, i)];
    if BreakLength(s, i) == 2 {
      assert e == "\r\n";
    } else {
      assert e == [s[i]];
    }
  }

  /** A text without a break is one line without a break after it. */
  lemma {:induction false} LastLine(s: string)
    requires s != [] && FirstBreak(s) == |s|
    ensures SplitLines(s) == [s] && LineEnds(s) == [""]
  {
  }

  lemma {:induction false} ThreeParts(s: string, i: nat, j: nat)
    requires i <= j <= |s|
    ensures s == s[..i] + s[i..j] + s[j..]
  {
  }

  /** One line and its break, then the rest of the text. */
  lemma {:induction false} SplitLinesStep(s: string, i: nat, j: nat)
    requires s != [] && i == FirstBreak(s) < |s| && j == i + BreakLength(s, i)
    ensures SplitLines(s) == [s[..i]] + SplitLines(s[j..])
    ensures LineEnds(s) == [s[i..j]] + LineEnds(s[j..])
  {
  }

  lemma {:induction false} RebuildCons(l: string, e: string, lines: seq<string>, ends: seq<string>)
    requires |lines| == |ends|
    ensures Rebuild([l] + lines, [e] + ends) == l + e + Rebuild(lines, ends)
  {
    assert ([l] + lines)[1..] == lines;
    assert ([e] + ends)[1..] == ends;
  }

  /** Every line but the last ends in a break; the last one may end the text without one. */
  lemma {:induction false} LineEndsAreBreaks(s: string)
    ensures EndsAreBreaks(LineEnds(s))
    decreases |s|
  {
    if s != [] {
      var i := FirstBreak(s);
      if i < |s| {
        var j := i + BreakLength(s, i);
        LineEndsAreBreaks(s[j..]);
        BreakIsLineEnd(s, i);
        SplitLinesStep(s, i, j);
        EndsAreBreaksCons(s[i..j], LineEnds(s[j..]));
      } else {
        LastLine(s);
      }
    }
  }

  /** Every end is a break, except that the last may be "". */
  predicate EndsAreBreaks(ends: seq<string>) {
    forall k :: 0 <= k < |ends| ==> LineEnd(ends[k]) || (k == |ends| - 1 && ends[k] == "")
  }

  lemma {:induction false} EndsAreBreaksCons(e: string, ends: seq<string>)
    requires LineEnd(e) && EndsAreBreaks(ends)
    ensures EndsAreBreaks([e] + ends)
  {
    assert forall k :: 1 <= k < |ends| + 1 ==> ([e] + ends)[k] == ends[k - 1];
  }

  /** The separator "  ", followed by the pieces in turn. */
  function JoinDouble(parts: seq<string>): string {
    if parts == [] then [] else if |parts| == 1 then parts[0] else parts[0] + "  " + JoinDouble(parts[1..])
  }

  predicate NoBreaks(s: string) {
    forall k :: 0 <= k < |s| ==> !IsLineBreak(s[k])
  }

  /** No two adjacent spaces. */
  predicate NoDoubleSpace(s: string) {
    forall k :: 0 <= k < |s| - 1 ==> !(s[k] == ' ' && s[k + 1] == ' ')
  }

  /** Index of the first "  " in `s`, or `|s|`. */
  function FirstDouble(s: string): (i: nat)
    ensures i <= |s|
    ensures i < |s| ==> i + 1 < |s| && s[i] == ' ' && s[i + 1] == ' '
    ensures i == |s| ==> NoDoubleSpace(s)
    ensures NoDoubleSpace(s[..i])
  {
    if |s| < 2 then |s|
    else if s[0] == ' ' && s[1] == ' ' then 0
    else
      var j := FirstDouble(s[1..]) + 1;
      assert forall k :: 1 <= k < j - 1 ==> s[..j][k] == s[1..][..j - 1][k - 1];
      j
  }

  /** `s.split("  ")`: pieces between non-overlapping double spaces, left to right. */
  function SplitDouble(s: string): (r: seq<string>)
    ensures r != []
    ensures forall p :: p in r ==> NoDoubleSpace(p)
    ensures JoinDouble(r) == s
    decreases |s|
  {
    var i := FirstDouble(s);
    if i == |s| then [s]
    else
      var rest := SplitDouble(s[i + 2..]);
      DoubleAt(s, i);
      JoinDoubleCons(s[..i], rest);
      [s[..i]] + rest
  }

  lemma {:induction false} DoubleAt(s: string, i: nat)
    requires i + 1 < |s| && s[i] == ' ' && s[i + 1] == ' '
    ensures s == s[..i] + "  " + s[i + 2..]
  {
    assert s[i..i + 2] == "  ";
    assert s == s[..i] + s[i..i + 2] + s[i + 2..];
  }

  lemma {:induction false} JoinDoubleCons(p: string, parts: seq<string>)
    requires parts != []
    ensures JoinDouble([p] + parts) == p + "  " + JoinDouble(parts)
  {
    assert ([p] + parts)[1..] == parts;
  }

  /** `(phrase.strip() for line in lines for phrase in line.strip().split("  "))`. */
  function Chunks(lines: seq<string>): seq<string> {
    if lines == [] then [] else Map(SplitDouble(Strip(lines[0])), Strip) + Chunks(lines[1..])
  }

  function NonEmpty(): string -> bool {
    (c: string) => c != []
  }

  /** The cleanup: the non-empty stripped chunks joined by single spaces. */
  function CleanWhitespace(text: string): string {
    JoinSpace(Filter(Chunks(SplitLines(text)), NonEmpty()))
  }

  /** What a chunk that survives the cleanup looks like. */
  predicate CleanChunk(c: string) {
    c != [] && Trimmed(c) && NoBreaks(c) && NoDoubleSpace(c)
  }

  /** Everything that survives the cleanup is a clean chunk. */
  lemma {:induction false} ChunksAreClean(lines: seq<string>)
    requires forall l :: l in lines ==> NoBreaks(l)
    ensures forall c :: c in Filter(Chunks(lines), NonEmpty()) ==> CleanChunk(c)
  {
    if lines != [] {
      ChunksAreClean(lines[1..]);
      var pieces := SplitDouble(Strip(lines[0]));
      StripKeepsClean(lines[0]);
      forall p | p in pieces ensures NoBreaks(p) && NoDoubleSpace(p) {
        SplitDoubleKeepsNoBreaks(Strip(lines[0]), p);
      }
      forall c | c in Map(pieces, Strip) && c != [] ensures CleanChunk(c) {
        var k :| 0 <= k < |pieces| && c == Strip(pieces[k]);
        assert pieces[k] in pieces;
        StripKeepsClean(pieces[k]);
      }
      FilterAppend(Map(pieces, Strip), Chunks(lines[1..]), NonEmpty());
    }
  }

  /** Stripping takes a contiguous piece, so it keeps both properties. */
  lemma {:induction false} StripKeepsClean(s: string)
    ensures NoBreaks(s) ==> NoBreaks(Strip(s))
    ensures NoDoubleSpace(s) ==> NoDoubleSpace(Strip(s))
  {
    var r := Strip(s);
    var i, j :| 0 <= i <= j <= |s| && r == s[i..j] && AllSpace(s[..i]) && AllSpace(s[j..]);
    assert forall k :: 0 <= k < |r| ==> r[k] == s[i + k];
  }

  lemma {:induction false} SplitDoubleKeepsNoBreaks(s: string, p: string)
    requires NoBreaks(s) && p in SplitDouble(s)
    ensures NoBreaks(p)
    decreases |s|
  {
    var i := FirstDouble(s);
    if i < |s| && p != s[..i] {
      SplitDoubleKeepsNoBreaks(s[i + 2..], p);
    }
  }

  /** Joining clean chunks with single spaces gives a clean text (or the empty one). */
  lemma {:induction false} JoinClean(cs: seq<string>)
    requires forall c :: c in cs ==> CleanChunk(c)
    ensures cs != [] ==> CleanChunk(JoinSpace(cs))
    ensures cs == [] ==> JoinSpace(cs) == []
  {
    if |cs| > 1 {
      JoinClean(cs[1..]);
      var a := cs[0];
      var b := JoinSpace(cs[1..]);
      assert cs[0] in cs;
      var r := a + " " + b;
      assert JoinSpace(cs) == r;
      forall k | 0 <= k < |r| - 1 ensures !(r[k] == ' ' && r[k + 1] == ' ') {
        if k + 1 < |a| {
          assert r[k] == a[k] && r[k + 1] == a[k + 1];
        } else if k + 1 == |a| {
          assert r[k] == a[|a| - 1];
        } else if k == |a| {
          assert r[k + 1] == b[0];
        } else {
          assert r[k] == b[k - |a| - 1] && r[k + 1] == b[k - |a|];
        }
      }
      forall k | 0 <= k < |r| ensures !IsLineBreak(r[k]) {
        if k < |a| { assert r[k] == a[k]; }
        else if k > |a| { assert r[k] == b[k - |a| - 1]; }
      }
    }
  }

  /**
   * What the cleanup guarantees: no line breaks, no two adjacent spaces and
   * no whitespace at either end.
   */
  lemma {:induction false} CleanWhitespaceShape(text: string)
    ensures NoBreaks(CleanWhitespace(text))
    ensures NoDoubleSpace(CleanWhitespace(text))
    ensures Trimmed(CleanWhitespace(text))
  {
    var lines := SplitLines(text);
    ChunksAreClean(lines);
    JoinClean(Filter(Chunks(lines), NonEmpty()));
  }

  /** Line breaks are whitespace. */
  lemma {:induction false} LineEndIsSpace(e: string)
    requires LineEnd(e)
    ensures AllSpace(e)
  {
  }

  lemma {:induction false} RunsOfAppend(cs: seq<string>, ds: seq<string>)
    ensures RunsOf(cs + ds) == RunsOf(cs) + RunsOf(ds)
  {
    if cs == [] {
      assert cs + ds == ds;
    } else {
      assert (cs + ds)[1..] == cs[1..] + ds;
      RunsOfAppend(cs[1..], ds);
    }
  }

  /** Empty pieces have no fields, so dropping them changes nothing. */
  lemma {:induction false} RunsOfNonEmpty(cs: seq<string>)
    ensures RunsOf(Filter(cs, NonEmpty())) == RunsOf(cs)
  {
    if cs != [] {
      RunsOfNonEmpty(cs[1..]);
      var head := if cs[0] != [] then [cs[0]] else [];
      RunsOfAppend(head, Filter(cs[1..], NonEmpty()));
    }
  }

  /** Joining with single spaces keeps every piece's fields, in order. */
  lemma {:induction false} RunsOfJoinSpace(cs: seq<string>)
    ensures Runs(JoinSpace(cs)) == RunsOf(cs)
  {
    if |cs| == 1 {
      assert RunsOf(cs) == Runs(cs[0]) + RunsOf([]);
    } else if |cs| > 1 {
      RunsOfJoinSpace(cs[1..]);
      assert AllSpace(" ");
      RunsSplit(cs[0], " ", JoinSpace(cs[1..]));
    }
  }

  /** Stripping removes only whitespace, so it keeps the fields. */
  lemma {:induction false} RunsStrip(s: string)
    ensures Runs(Strip(s)) == Runs(s)
  {
    var i, j :| 0 <= i <= j <= |s| && Strip(s) == s[i..j] && AllSpace(s[..i]) && AllSpace(s[j..]);
    ThreeParts(s, i, j);
    RunsSurrounded(s[..i], s[i..j], s[j..]);
  }

  /** Whitespace around a text adds no field. */
  lemma {:induction false} RunsSurrounded(a: string, m: string, b: string)
    requires AllSpace(a) && AllSpace(b)
    ensures Runs(a + m + b) == Runs(m)
  {
    assert a + m + b == a + (m + b);
    RunsSpacePrefix(a, m + b);
    assert m + b == m + b + [];
    RunsSplit(m, b, []);
  }

  lemma {:induction false} RunsOfStripped(ps: seq<string>)
    ensures RunsOf(Map(ps, Strip)) == RunsOf(ps)
  {
    if ps != [] {
      RunsOfStripped(ps[1..]);
      RunsStrip(ps[0]);
      assert Map(ps, Strip)[1..] == Map(ps[1..], Strip);
    }
  }

  /** Splitting at double spaces keeps the fields, in order. */
  lemma {:induction false} RunsOfSplitDouble(s: string)
    ensures RunsOf(SplitDouble(s)) == Runs(s)
    decreases |s|
  {
    var i := FirstDouble(s);
    if i == |s| {
      RunsOfOne(s);
    } else {
      RunsOfSplitDouble(s[i + 2..]);
      SplitDoubleStep(s, i);
      RunsSplit(s[..i], s[i..i + 2], s[i + 2..]);
    }
  }

  lemma {:induction false} SplitDoubleStep(s: string, i: nat)
    requires i == FirstDouble(s) < |s|
    ensures s == s[..i] + s[i..i + 2] + s[i + 2..]
    ensures AllSpace(s[i..i + 2]) && s[i..i + 2] != []
    ensures SplitDouble(s) == [s[..i]] + SplitDouble(s[i + 2..])
  {
    assert s[i..i + 2] == "  ";
  }

  lemma {:induction false} RunsOfOne(s: string)
    ensures RunsOf([s]) == Runs(s)
  {
    assert RunsOf([s]) == Runs(s) + RunsOf([]);
  }

  lemma {:induction false} RunsOfLinesStep(s: string, i: nat, j: nat, rest: seq<string>)
    requires i < j <= |s| && AllSpace(s[i..j]) && RunsOf(rest) == Runs(s[j..])
    ensures RunsOf([s[..i]] + rest) == Runs(s)
  {
    ThreeParts(s, i, j);
    RunsSplit(s[..i], s[i..j], s[j..]);
    assert ([s[..i]] + rest)[1..] == rest;
  }

  /** Splitting into lines keeps the fields, in order. */
  lemma {:induction false} RunsOfSplitLines(s: string)
    ensures RunsOf(SplitLines(s)) == Runs(s)
    decreases |s|
  {
    if s != [] {
      var i := FirstBreak(s);
      if i == |s| {
        LastLine(s);
        RunsOfOne(s);
      } else {
        var j := i + BreakLength(s, i);
        RunsOfSplitLines(s[j..]);
        SplitLinesStep(s, i, j);
        BreakIsLineEnd(s, i);
        LineEndIsSpace(s[i..j]);
        RunsOfLinesStep(s, i, j, SplitLines(s[j..]));
      }
    }
  }

  lemma {:induction false} RunsOfChunks(lines: seq<string>)
    ensures RunsOf(Chunks(lines)) == RunsOf(lines)
  {
    if lines != [] {
      var pieces := SplitDouble(Strip(lines[0]));
      RunsOfChunks(lines[1..]);
      RunsOfAppend(Map(pieces, Strip), Chunks(lines[1..]));
      RunsOfStripped(pieces);
      RunsOfSplitDouble(Strip(lines[0]));
      RunsStrip(lines[0]);
    }
  }

  /** The cleanup changes only whitespace: the text has the same words, in the same order. */
  lemma {:induction false} CleanWhitespaceKeepsWords(text: string)
    ensures Fields(CleanWhitespace(text)) == Fields(text)
  {
    var lines := SplitLines(text);
    RunsOfJoinSpace(Filter(Chunks(lines), NonEmpty()));
    RunsOfNonEmpty(Chunks(lines));
    RunsOfChunks(lines);
    RunsOfSplitLines(text);
  }

  /** Cleaning a cleaned text changes nothing. */
  lemma {:induction false} CleanWhitespaceIdempotent(text: string)
    ensures CleanWhitespace(CleanWhitespace(text)) == CleanWhitespace(text)
  {
    var t := CleanWhitespace(text);
    CleanWhitespaceShape(text);
    if t != [] {
      assert FirstBreak(t) == |t|;
      assert SplitLines(t) == [t];
      StripOfTrimmed(t);
      assert FirstDouble(t) == |t|;
      assert SplitDouble(t) == [t];
      assert Chunks([t]) == Map([t], Strip) + Chunks([]);
      assert Map([t], Strip) == [t];
      assert Filter([t], NonEmpty()) == [t] + Filter([], NonEmpty());
    }
  }
}
