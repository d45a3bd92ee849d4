/**
 * The request handling of backend/app.py that decides something: the text
 * checks and the frequency-setting coercion of the advanced generation
 * route, the key stringification applied to its response, the
 * dimension checks of the mask preview route and the row order of the CSV
 * export.
 */
module App {
  import opened Common
  import opened Ranking
  import opened AdvancedProc
  import Masks
  import Counting

  /** Line 64: 16 MiB per upload. */
  const MAX_CONTENT_LENGTH: nat := 16 * 1024 * 1024
  /** Line 66: 1 MiB of text. */
  const MAX_TEXT_LENGTH: nat := 1 * 1024 * 1024

  // ---------------------------------------------------------------------
  // Text validation (lines 245-276)

  datatype Checked = Accepted(text: string) | BadRequest(message: string) | ServerError

  const NO_JSON := "No JSON data provided"
  const TEXT_REQUIRED := "Text input is required"
  const TEXT_TOO_SHORT := "Text must be at least 10 characters long"
  const TEXT_TOO_LONG := "Text length exceeds maximum allowed (1048576 characters)"

  /**
   * The request body (`None` for a JSON `null` body) and the checks on its
   * `text`, in order: no body, nothing left after stripping, fewer than 10
   * characters, more than 1 048 576. A `text` that is not a string makes
   * `.strip()` raise, which the route turns into a 500.
   */
  function ValidateText(data: Option<map<string, Value>>): (r: Checked)
    ensures (data.None? || data.value == map[]) ==> r == BadRequest(NO_JSON)
    ensures data.Some? && data.value != map[] && "text" in data.value && !data.value["text"].VStr? ==>
      r == ServerError
    ensures r.Accepted? ==> Trimmed(r.text) && 10 <= |r.text| <= MAX_TEXT_LENGTH
    ensures r.Accepted? <==>
      && data.Some? && data.value != map[]
      && ("text" in data.value ==> data.value["text"].VStr?)
      && 10 <= |Strip(RawText(data.value))| <= MAX_TEXT_LENGTH
    ensures r.Accepted? ==> r.text == Strip(RawText(data.value))
    ensures data.Some? && data.value != map[] && ("text" in data.value ==> data.value["text"].VStr?) ==>
      && (Strip(RawText(data.value)) == [] ==> r == BadRequest(TEXT_REQUIRED))
      && (0 < |Strip(RawText(data.value))| < 10 ==> r == BadRequest(TEXT_TOO_SHORT))
      && (|Strip(RawText(data.value))| > MAX_TEXT_LENGTH ==> r == BadRequest(TEXT_TOO_LONG))
  {
    if data.None? || data.value == map[] then BadRequest(NO_JSON)
    else if "text" in data.value && !data.value["text"].VStr? then ServerError
    else
      var text := Strip(RawText(data.value));
      if text == [] then BadRequest(TEXT_REQUIRED)
      else if |text| < 10 then BadRequest(TEXT_TOO_SHORT)
      else if |text| > MAX_TEXT_LENGTH then BadRequest(TEXT_TOO_LONG)
      else Accepted(text)
  }

  /** `data.get('text', '')` when that is a string. */
  function RawText(data: map<string, Value>): string {
    if "text" in data && data["text"].VStr? then data["text"].s else ""
  }

  // ---------------------------------------------------------------------
  // Frequency settings (lines 279-295)

  /** The settings after coercion: each bound present becomes `int(bound)` or `None`; nothing else changes. */
  function CoerceSettings(entries: map<string, Value>): (r: map<string, Value>)
    ensures r.Keys == entries.Keys
  {
    var m := if "min_frequency" in entries
      then entries["min_frequency" := CoercedBound(entries["min_frequency"])] else entries;
    if "max_frequency" in m then m["max_frequency" := CoercedBound(m["max_frequency"])] else m
  }

  /** The settings dict of a request, coerced in place. */
  class Settings {
    var entries: map<string, Value>

    constructor (entries: map<string, Value>)
      ensures this.entries == entries
    {
      this.entries := entries;
    }

    method CoerceFrequencies()
      modifies this
      ensures entries == CoerceSettings(old(entries))
    {
      if "min_frequency" in entries {
        entries := entries["min_frequency" := CoercedBound(entries["min_frequency"])];
      }
      if "max_frequency" in entries {
        entries := entries["max_frequency" := CoercedBound(entries["max_frequency"])];
      }
    }
  }

  /**
   * After coercion the keys are the same, a present bound is an int or
   * `None` (`None` exactly when `int()` fails), every other setting is
   * untouched, and coercing again changes nothing.
   */
  lemma {:induction false} CoerceSettingsMeaning(entries: map<string, Value>)
    ensures forall k :: k in entries && k != "min_frequency" && k != "max_frequency" ==>
      CoerceSettings(entries)[k] == entries[k]
    ensures forall k :: k in entries && (k == "min_frequency" || k == "max_frequency") ==>
      && (CoerceSettings(entries)[k].VInt? <==> IntCoerce(entries[k]).Some?)
      && (CoerceSettings(entries)[k].VNone? <==> IntCoerce(entries[k]).None?)
      && (CoerceSettings(entries)[k].VInt? ==> CoerceSettings(entries)[k].i == IntCoerce(entries[k]).value)
    ensures CoerceSettings(CoerceSettings(entries)) == CoerceSettings(entries)
  {
    var r := CoerceSettings(entries);
    forall k | k in entries && (k == "min_frequency" || k == "max_frequency")
      ensures r[k] == CoercedBound(entries[k])
    {
    }
    if "min_frequency" in entries {
      CoercionKeepsThresholds(entries["min_frequency"]);
    }
    if "max_frequency" in entries {
      CoercionKeepsThresholds(entries["max_frequency"]);
    }
  }

  // ---------------------------------------------------------------------
  // ensure_str_keys (lines 348-354)

  /** `str(k)` for the dictionary keys that occur. */
  function KeyString(k: Key): string {
    match k
    case KStr(s) => s
    case KInt(i) => IntToString(i)
    case KBool(b) => if b then "True" else "False"
    case KNone => "None"
  }

  function IndexOfKey(entries: seq<(Key, Value)>, k: Key): (i: nat)
    ensures i <= |entries|
    ensures i < |entries| ==> entries[i].0 == k
    ensures forall j :: 0 <= j < i ==> entries[j].0 != k
  {
    if entries == [] || entries[0].0 == k then 0 else IndexOfKey(entries[1..], k) + 1
  }

  /** `d[k] = v` on an insertion-ordered dict: an existing key keeps its place. */
  function Upsert(entries: seq<(Key, Value)>, k: Key, v: Value): (r: seq<(Key, Value)>)
    ensures |r| == |entries| || |r| == |entries| + 1
  {
    var i := IndexOfKey(entries, k);
    if i < |entries| then entries[i := (k, v)] else entries + [(k, v)]
  }

  /** Every key of the value, at every depth, stringified. */
  function EnsureStrKeys(v: Value): (r: Value)
    ensures v.VList? ==> r.VList? && |r.items| == |v.items|
    ensures v.VDict? ==> r.VDict? && |r.entries| <= |v.entries|
    ensures !v.VList? && !v.VDict? ==> r == v
    decreases v, 1
  {
    match v
    case VDict(entries) => VDict(StrKeyEntries(entries))
    case VList(items) => VList(StrKeyItems(items))
    case _ => v
  }

  /** `[ensure_str_keys(item) for item in items]`. */
  function StrKeyItems(items: seq<Value>): (r: seq<Value>)
    ensures |r| == |items|
    decreases items, 0
  {
    if items == [] then [] else StrKeyItems(items[..|items| - 1]) + [EnsureStrKeys(items[|items| - 1])]
  }

  /** `{str(k): ensure_str_keys(v) for k, v in entries}`: keys that stringify alike collapse into one. */
  function StrKeyEntries(entries: seq<(Key, Value)>): (r: seq<(Key, Value)>)
    ensures |r| <= |entries|
    decreases entries, 0
  {
    if entries == [] then []
    else
      var last := entries[|entries| - 1];
      assert last in entries && last.1 < last;
      Upsert(StrKeyEntries(entries[..|entries| - 1]), KStr(KeyString(last.0)), EnsureStrKeys(last.1))
  }

  predicate DistinctKeys(entries: seq<(Key, Value)>) {
    forall i, j :: 0 <= i < j < |entries| ==> entries[i].0 != entries[j].0
  }

  /** A value whose dicts, at every depth, have distinct string keys. */
  predicate Normal(v: Value)
    decreases v, 1
  {
    match v
    case VDict(entries) => NormalEntries(entries)
    case VList(items) => NormalItems(items)
    case _ => true
  }

  predicate NormalItems(items: seq<Value>)
    decreases items, 0
  {
    items == [] || (NormalItems(items[..|items| - 1]) && Normal(items[|items| - 1]))
  }

  predicate NormalEntries(entries: seq<(Key, Value)>)
    decreases entries, 0
  {
    && DistinctKeys(entries)
    && (entries == [] ||
         var last := entries[|entries| - 1];
         assert last in entries && last.1 < last;
         NormalEntries(entries[..|entries| - 1]) && last.0.KStr? && Normal(last.1))
  }

  /** The result of `ensure_str_keys` has string keys only, everywhere. */
  lemma {:induction false} EnsureStrKeysNormal(v: Value)
    ensures Normal(EnsureStrKeys(v))
    decreases v, 1
  {
    match v
    case VDict(entries) => StrKeyEntriesNormal(entries);
    case VList(items) => StrKeyItemsNormal(items);
    case _ =>
  }

  lemma {:induction false} StrKeyItemsNormal(items: seq<Value>)
    ensures NormalItems(StrKeyItems(items))
    decreases items, 0
  {
    if items != [] {
      var r := StrKeyItems(items);
      StrKeyItemsNormal(items[..|items| - 1]);
      EnsureStrKeysNormal(items[|items| - 1]);
      assert r[..|r| - 1] == StrKeyItems(items[..|items| - 1]);
    }
  }

  lemma {:induction false} StrKeyEntriesNormal(entries: seq<(Key, Value)>)
    ensures NormalEntries(StrKeyEntries(entries))
    decreases entries, 0
  {
    if entries != [] {
      var last := entries[|entries| - 1];
      var prefix := StrKeyEntries(entries[..|entries| - 1]);
      assert last in entries && last.1 < last;
      StrKeyEntriesNormal(entries[..|entries| - 1]);
      EnsureStrKeysNormal(last.1);
      UpsertNormal(prefix, KeyString(last.0), EnsureStrKeys(last.1));
    }
  }

  /** Storing a normal value under a string key keeps a dict normal. */
  lemma {:induction false} UpsertNormal(entries: seq<(Key, Value)>, s: string, v: Value)
    requires NormalEntries(entries) && Normal(v)
    ensures NormalEntries(Upsert(entries, KStr(s), v))
  {
    var i := IndexOfKey(entries, KStr(s));
    if i == |entries| {
      AppendNormal(entries, KStr(s), v);
    } else {
      ReplaceNormal(entries, i, v);
      assert entries[i := (entries[i].0, v)] == Upsert(entries, KStr(s), v);
    }
  }

  lemma {:induction false} AppendNormal(entries: seq<(Key, Value)>, k: Key, v: Value)
    requires NormalEntries(entries) && k.KStr? && Normal(v)
    requires forall j :: 0 <= j < |entries| ==> entries[j].0 != k
    ensures NormalEntries(entries + [(k, v)])
  {
    var r := entries + [(k, v)];
    assert r[..|entries|] == entries;
  }

  lemma {:induction false} ReplaceNormal(entries: seq<(Key, Value)>, i: nat, v: Value)
    requires NormalEntries(entries) && i < |entries| && Normal(v)
    ensures NormalEntries(entries[i := (entries[i].0, v)])
    decreases |entries|
  {
    var r := entries[i := (entries[i].0, v)];
    var n := |entries| - 1;
    assert forall j :: 0 <= j < |r| ==> r[j].0 == entries[j].0;
    if i == n {
      assert r[..n] == entries[..n];
    } else {
      ReplaceNormal(entries[..n], i, v);
      assert r[..n] == entries[..n][i := (entries[i].0, v)];
      assert r[n] == entries[n];
    }
  }

  /** On a normal value `ensure_str_keys` changes nothing. */
  lemma {:induction false} NormalUnchanged(v: Value)
    requires Normal(v)
    ensures EnsureStrKeys(v) == v
    decreases v, 1
  {
    match v
    case VDict(entries) => NormalEntriesUnchanged(entries);
    case VList(items) => NormalItemsUnchanged(items);
    case _ =>
  }

  lemma {:induction false} NormalItemsUnchanged(items: seq<Value>)
    requires NormalItems(items)
    ensures StrKeyItems(items) == items
    decreases items, 0
  {
    if items != [] {
      NormalItemsUnchanged(items[..|items| - 1]);
      NormalUnchanged(items[|items| - 1]);
    }
  }

  lemma {:induction false} NormalEntriesUnchanged(entries: seq<(Key, Value)>)
    requires NormalEntries(entries)
    ensures StrKeyEntries(entries) == entries
    decreases entries, 0
  {
    if entries != [] {
      var n := |entries| - 1;
      var last := entries[n];
      var prefix := entries[..n];
      assert last in entries && last.1 < last;
      NormalEntriesUnchanged(prefix);
      NormalUnchanged(last.1);
      assert KStr(KeyString(last.0)) == last.0;
      forall j | 0 <= j < n ensures prefix[j].0 != last.0 {
        assert prefix[j] == entries[j];
      }
      AppendFresh(prefix, last.0, last.1);
      assert prefix + [last] == entries;
    }
  }

  /** Storing under a key the dict does not have appends the pair. */
  lemma {:induction false} AppendFresh(entries: seq<(Key, Value)>, k: Key, v: Value)
    requires forall j :: 0 <= j < |entries| ==> entries[j].0 != k
    ensures Upsert(entries, k, v) == entries + [(k, v)]
  {
  }

  /** Stringifying keys twice is the same as once. */
  lemma {:induction false} EnsureStrKeysIdempotent(v: Value)
    ensures EnsureStrKeys(EnsureStrKeys(v)) == EnsureStrKeys(v)
  {
    EnsureStrKeysNormal(v);
    NormalUnchanged(EnsureStrKeys(v));
  }

  /** The statistics histogram has int keys 1..10; they come back as strings, in order. */
  lemma {:induction false} IntKeysBecomeStrings()
    ensures EnsureStrKeys(VDict([(KInt(1), VInt(4)), (KStr("more"), VInt(0))]))
         == VDict([(KStr("1"), VInt(4)), (KStr("more"), VInt(0))])
  {
    var e := [(KInt(1), VInt(4)), (KStr("more"), VInt(0))];
    assert e[..1] == [(KInt(1), VInt(4))];
    assert e[..1][..0] == [];
    assert IntToString(1) == "1";
    assert StrKeyEntries(e[..1]) == [(KStr("1"), VInt(4))];
    assert KStr("more") != KStr("1");
  }

  /** `str(k)` of every key, in entry order. */
  function KeyStrings(entries: seq<(Key, Value)>): (r: seq<string>)
    ensures |r| == |entries|
    ensures forall j :: 0 <= j < |entries| ==> r[j] == KeyString(entries[j].0)
  {
    seq(|entries|, j requires 0 <= j < |entries| => KeyString(entries[j].0))
  }

  /** Index of the last occurrence of `w` in `s`. */
  function LastIndex(s: seq<string>, w: string): (k: nat)
    requires w in s
    ensures k < |s| && s[k] == w
    ensures forall j :: k < j < |s| ==> s[j] != w
  {
    if s[|s| - 1] == w then |s| - 1
    else
      assert w in s[..|s| - 1] by {
        var j :| 0 <= j < |s| && s[j] == w;
        assert s[..|s| - 1][j] == w;
      }
      LastIndex(s[..|s| - 1], w)
  }

  /**
   * `r` is what the comprehension builds from `entries`: one entry per
   * distinct `str(k)`, in the order of the first key that stringifies to
   * it, holding the converted value of the LAST entry whose key
   * stringifies to it (a later assignment to an existing dict key
   * overwrites the value where it stands).
   */
  predicate Describes(r: seq<(Key, Value)>, entries: seq<(Key, Value)>) {
    var ks := KeyStrings(entries);
    var d := Counting.Dedup(ks);
    && |r| == |d|
    && (forall i :: 0 <= i < |r| ==> r[i].0 == KStr(d[i]))
    && (forall i :: 0 <= i < |r| ==> d[i] in ks && r[i].1 == EnsureStrKeys(entries[LastIndex(ks, d[i])].1))
  }

  /** The keys of `ensure_str_keys` on a dict, with the collision rule of the comprehension. */
  lemma {:induction false} StrKeyEntriesMeaning(entries: seq<(Key, Value)>)
    ensures Describes(StrKeyEntries(entries), entries)
    decreases entries
  {
    if entries != [] {
      var n := |entries| - 1;
      var p, last := entries[..n], entries[n];
      assert last in entries && last.1 < last;
      assert entries == p + [last];
      StrKeyEntriesMeaning(p);
      StrKeyEntriesNormal(p);
      UpsertDescribes(p, StrKeyEntries(p), last.0, last.1);
    }
  }

  /** One more entry: `Upsert` of its stringified key keeps the description. */
  lemma {:induction false} UpsertDescribes(p: seq<(Key, Value)>, rp: seq<(Key, Value)>, k: Key, val: Value)
    requires Describes(rp, p) && DistinctKeys(rp)
    ensures Describes(Upsert(rp, KStr(KeyString(k)), EnsureStrKeys(val)), p + [(k, val)])
  {
    var x := KeyString(k);
    var entries := p + [(k, val)];
    var ks, kp := KeyStrings(entries), KeyStrings(p);
    assert ks[..|p|] == kp;
    var dp := Counting.Dedup(kp);
    var i := IndexOfKey(rp, KStr(x));
    if x in dp {
      var m :| 0 <= m < |dp| && dp[m] == x;
      assert rp[m].0 == KStr(x);
      ReplaceDescribes(p, rp, k, val, i);
    } else {
      assert i == |rp|;
      AppendDescribes(p, rp, k, val);
    }
  }

  lemma {:induction false} ReplaceDescribes(p: seq<(Key, Value)>, rp: seq<(Key, Value)>, k: Key, val: Value, i: nat)
    requires Describes(rp, p) && DistinctKeys(rp)
    requires i < |rp| && rp[i].0 == KStr(KeyString(k))
    ensures Describes(rp[i := (KStr(KeyString(k)), EnsureStrKeys(val))], p + [(k, val)])
  {
    var x := KeyString(k);
    var entries := p + [(k, val)];
    var ks, kp := KeyStrings(entries), KeyStrings(p);
    var dp := Counting.Dedup(kp);
    assert rp[i].0 == KStr(dp[i]);
    assert x in dp by { assert dp[i] == x; }
    KeysSnoc(p, k, val);
    assert Counting.Dedup(ks) == dp;
    var r := rp[i := (KStr(x), EnsureStrKeys(val))];
    forall j | 0 <= j < |r| ensures r[j].0 == KStr(dp[j]) {
    }
    forall j | 0 <= j < |r| ensures dp[j] in ks && r[j].1 == EnsureStrKeys(entries[LastIndex(ks, dp[j])].1) {
      ReplaceKeeps(p, rp, k, val, i, j);
    }
  }

  /** One entry of the replaced table: the new value under `k`, the old one elsewhere. */
  lemma {:induction false} ReplaceKeeps(p: seq<(Key, Value)>, rp: seq<(Key, Value)>, k: Key, val: Value, i: nat, j: nat)
    requires Describes(rp, p) && DistinctKeys(rp)
    requires i < |rp| && rp[i].0 == KStr(KeyString(k)) && j < |rp|
    ensures var ks := KeyStrings(p + [(k, val)]);
            var w := Counting.Dedup(KeyStrings(p))[j];
            w in ks && rp[i := (KStr(KeyString(k)), EnsureStrKeys(val))][j].1 == EnsureStrKeys((p + [(k, val)])[LastIndex(ks, w)].1)
  {
    var x := KeyString(k);
    var ks := KeyStrings(p + [(k, val)]);
    var dp := Counting.Dedup(KeyStrings(p));
    assert ks[|p|] == x;
    if j == i {
      assert dp[i] == x;
      assert LastIndex(ks, x) == |p|;
    } else {
      assert rp[j].0 != rp[i].0;
      OtherKeyLastIndex(p, k, val, dp[j]);
    }
  }

  lemma {:induction false} AppendDescribes(p: seq<(Key, Value)>, rp: seq<(Key, Value)>, k: Key, val: Value)
    requires Describes(rp, p) && KeyString(k) !in Counting.Dedup(KeyStrings(p))
    ensures Describes(rp + [(KStr(KeyString(k)), EnsureStrKeys(val))], p + [(k, val)])
  {
    var x := KeyString(k);
    var entries := p + [(k, val)];
    var ks, kp := KeyStrings(entries), KeyStrings(p);
    var dp := Counting.Dedup(kp);
    var d := dp + [x];
    KeysSnoc(p, k, val);
    var r := rp + [(KStr(x), EnsureStrKeys(val))];
    forall j | 0 <= j < |r| ensures d[j] in ks && r[j].1 == EnsureStrKeys(entries[LastIndex(ks, d[j])].1) {
      AppendKeeps(p, rp, k, val, j);
    }
  }

  /** One entry of the extended table: the old value under an old key, the new one at the end. */
  lemma {:induction false} AppendKeeps(p: seq<(Key, Value)>, rp: seq<(Key, Value)>, k: Key, val: Value, j: nat)
    requires Describes(rp, p) && KeyString(k) !in Counting.Dedup(KeyStrings(p)) && j <= |rp|
    ensures var ks := KeyStrings(p + [(k, val)]);
            var w := (Counting.Dedup(KeyStrings(p)) + [KeyString(k)])[j];
            w in ks && (rp + [(KStr(KeyString(k)), EnsureStrKeys(val))])[j].1 == EnsureStrKeys((p + [(k, val)])[LastIndex(ks, w)].1)
  {
    var ks := KeyStrings(p + [(k, val)]);
    assert ks[|p|] == KeyString(k);
    if j < |rp| {
      OtherKeyLastIndex(p, k, val, Counting.Dedup(KeyStrings(p))[j]);
    } else {
      assert LastIndex(ks, KeyString(k)) == |p|;
    }
  }

  /** The key strings of a dict with one more entry, and their first occurrences. */
  lemma {:induction false} KeysSnoc(p: seq<(Key, Value)>, k: Key, val: Value)
    ensures KeyStrings(p + [(k, val)]) == KeyStrings(p) + [KeyString(k)]
    ensures var d := Counting.Dedup(KeyStrings(p));
            Counting.Dedup(KeyStrings(p + [(k, val)])) == if KeyString(k) in d then d else d + [KeyString(k)]
  {
    var ks := KeyStrings(p + [(k, val)]);
    assert ks[..|p|] == KeyStrings(p);
  }

  /** A key string other than the new entry's keeps its last index, and that entry. */
  lemma {:induction false} OtherKeyLastIndex(p: seq<(Key, Value)>, k: Key, val: Value, w: string)
    requires w in KeyStrings(p) && w != KeyString(k)
    ensures w in KeyStrings(p + [(k, val)])
    ensures LastIndex(KeyStrings(p + [(k, val)]), w) == LastIndex(KeyStrings(p), w)
    ensures (p + [(k, val)])[LastIndex(KeyStrings(p), w)] == p[LastIndex(KeyStrings(p), w)]
  {
    var ks := KeyStrings(p + [(k, val)]);
    assert ks[..|p|] == KeyStrings(p);
    var j :| 0 <= j < |p| && KeyStrings(p)[j] == w;
    assert ks[j] == w;
  }

  /** Every key of a dict survives `ensure_str_keys` as its `str()`. */
  lemma {:induction false} EveryKeySurvives(entries: seq<(Key, Value)>, j: nat)
    requires j < |entries|
    ensures exists i :: 0 <= i < |StrKeyEntries(entries)| && StrKeyEntries(entries)[i].0 == KStr(KeyString(entries[j].0))
  {
    var r := StrKeyEntries(entries);
    var ks := KeyStrings(entries);
    var d := Counting.Dedup(ks);
    StrKeyEntriesMeaning(entries);
    assert ks[j] in d;
    var i :| 0 <= i < |d| && d[i] == ks[j];
    assert r[i].0 == KStr(ks[j]);
  }

  /** No key appears that is not the `str()` of an original key. */
  lemma {:induction false} NoNewKeys(entries: seq<(Key, Value)>, i: nat)
    requires i < |StrKeyEntries(entries)|
    ensures exists j :: 0 <= j < |entries| && StrKeyEntries(entries)[i].0 == KStr(KeyString(entries[j].0))
  {
    var r := StrKeyEntries(entries);
    var ks := KeyStrings(entries);
    var d := Counting.Dedup(ks);
    StrKeyEntriesMeaning(entries);
    assert d[i] in ks;
    var j :| 0 <= j < |ks| && ks[j] == d[i];
    assert r[i].0 == KStr(KeyString(entries[j].0));
  }

  // ---------------------------------------------------------------------
  // mask_preview (lines 467-520)

  datatype PreviewResponse =
    | Image(width: nat, height: nat, preview: Masks.Preview)
    | InvalidDimensions
    | PreviewError

  /** `int(request.args.get(name, default))`: `None` when `int()` raises. */
  function QueryInt(args: map<string, string>, name: string, default: int): Option<int> {
    if name in args then ParseInt(args[name]) else Some(default)
  }

  /** The `mask_shape` query argument, "none" when absent. */
  function RequestedShape(args: map<string, string>): string {
    if "mask_shape" in args then args["mask_shape"] else "none"
  }

  /**
   * The shape defaults to "none", width and height to 200 and 150; a
   * dimension that is not an integer is a 500, one outside [50, 1000] a
   * 400, and otherwise the preview of the shape at that size is returned.
   */
  method MaskPreview(args: map<string, string>) returns (r: PreviewResponse)
    requires Masks.Supported(RequestedShape(args))
    ensures r.PreviewError? <==>
      QueryInt(args, "width", 200).None? || QueryInt(args, "height", 150).None?
    ensures r.Image? <==>
      && QueryInt(args, "width", 200).Some? && QueryInt(args, "height", 150).Some?
      && 50 <= QueryInt(args, "width", 200).value <= 1000
      && 50 <= QueryInt(args, "height", 150).value <= 1000
    ensures r.Image? ==>
      && r.width == QueryInt(args, "width", 200).value
      && r.height == QueryInt(args, "height", 150).value
      && r.preview.Gray? && |r.preview.rows| == r.height
      && forall i :: 0 <= i < r.height ==> |r.preview.rows[i]| == r.width
    ensures r.Image? ==> var shape := RequestedShape(args);
      && (shape == "circle" ==> Masks.Shows(r.preview.rows, Masks.Circle, r.height, r.width))
      && (shape == "diamond" ==> Masks.Shows(r.preview.rows, Masks.Diamond(false), r.height, r.width))
      && (shape == "triangle" ==> Masks.Shows(r.preview.rows, Masks.Triangle, r.height, r.width))
      && (shape == "cloud" ==> Masks.Shows(r.preview.rows, Masks.CloudSum, r.height, r.width))
      && (shape !in {"circle", "diamond", "triangle", "cloud"} ==>
            Masks.Shows(r.preview.rows, Masks.Full, r.height, r.width))
  {
    var shape := RequestedShape(args);
    var width := QueryInt(args, "width", 200);
    var height := QueryInt(args, "height", 150);
    if width.None? || height.None? {
      return PreviewError;
    }
    if width.value < 50 || width.value > 1000 || height.value < 50 || height.value > 1000 {
      return InvalidDimensions;
    }
    var p := Masks.ShapePreview(shape, width.value, height.value);
    r := Image(width.value, height.value, p);
  }

  // ---------------------------------------------------------------------
  // CSV export (lines 418-429)

  /**
   * The header row, then one row per word in the stable descending order
   * of its frequency, the frequency written with `str`.
   */
  method ExportCsv(frequencies: seq<Entry>) returns (rows: seq<seq<string>>)
    ensures |rows| == |frequencies| + 1
    ensures rows[0] == ["Word", "Frequency"]
    ensures forall i :: 0 <= i < |frequencies| ==>
      rows[i + 1] == [SortDesc(frequencies)[i].0, IntToString(SortDesc(frequencies)[i].1)]
  {
    rows := [["Word", "Frequency"]];
    var sorted := SortDesc(frequencies);
    var i := 0;
    while i < |sorted|
      invariant 0 <= i <= |sorted|
      invariant |rows| == i + 1
      invariant rows[0] == ["Word", "Frequency"]
      invariant forall k :: 0 <= k < i ==> rows[k + 1] == [sorted[k].0, IntToString(sorted[k].1)]
    {
      rows := rows + [[sorted[i].0, IntToString(sorted[i].1)]];
      i := i + 1;
    }
  }

  /**
   * Reading the frequency column back gives the counts of the table in
   * non-increasing order.
   */
  lemma {:induction false} CsvRowsDescending(frequencies: seq<Entry>, i: nat, j: nat)
    requires i < j < |frequencies|
    ensures ParseInt(IntToString(SortDesc(frequencies)[i].1)) == Some(SortDesc(frequencies)[i].1)
    ensures SortDesc(frequencies)[i].1 >= SortDesc(frequencies)[j].1
  {
    var sorted := SortDesc(frequencies);
    ParseIntRoundTrip(sorted[i].1);
  }
}
