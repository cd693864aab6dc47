/**
  The natural-language formatter of the MCP server
  (`src/utils/natural_language_formatter.py`): `format_response` normalises a
  tool's JSON-like result, asks a tool-specific formatter for a summary and
  returns the summary beside the raw data. Results are Python values, so the
  model works on a small dynamic `Value` type with Python's truthiness,
  `or`, `dict.get`, `len` and `str`. Every Python exception the formatters
  can raise on a badly shaped value is a `None` result.
*/
module NlFormatter {
  import opened Wrappers
  import opened Strings

  // ---------------------------------------------------------------------
  // Python values
  // ---------------------------------------------------------------------

  /** A JSON-like Python value (floats are not modelled). A dictionary is its
      entries in insertion order, with string keys. */
  datatype Value =
    | Str(s: string)
    | Int(i: int)
    | Bool(b: bool)
    | NoneValue
    | List(items: seq<Value>)
    | Dict(entries: seq<(string, Value)>)

  /** Python truthiness (`if v:`). */
  predicate Truthy(v: Value) {
    match v
    case Str(s) => s != ""
    case Int(i) => i != 0
    case Bool(b) => b
    case NoneValue => false
    case List(xs) => xs != []
    case Dict(es) => es != []
  }

  /** `a or b` */
  function Or(a: Value, b: Value): Value {
    if Truthy(a) then a else b
  }

  /** The value stored under `k`, if any. */
  function Lookup(es: seq<(string, Value)>, k: string): Option<Value> {
    if es == [] then None
    else if es[0].0 == k then Some(es[0].1)
    else Lookup(es[1..], k)
  }

  /** `v.get(k, default)` for a dictionary `v`. */
  function GetOr(v: Value, k: string, default: Value): Value {
    if v.Dict? then Lookup(v.entries, k).GetOr(default) else default
  }

  /** `v.get(k)` */
  function Get(v: Value, k: string): Value {
    GetOr(v, k, NoneValue)
  }

  /** `len(v)`; `None` where `len` raises `TypeError`. */
  function Len(v: Value): Option<nat> {
    match v
    case Str(s) => Some(|s|)
    case List(xs) => Some(|xs|)
    case Dict(es) => Some(|es|)
    case _ => None
  }

  /** Values that can go into a Python `set`. */
  predicate Hashable(v: Value) {
    !v.List? && !v.Dict?
  }

  /** `str(v)`. Inside containers a string is shown quoted; Python's escaping
      of quotes and control characters is not modelled. */
  function PyStr(v: Value): string
    decreases v, 0
  {
    match v
    case Str(s) => s
    case Int(i) => IntToString(i)
    case Bool(b) => if b then "True" else "False"
    case NoneValue => "None"
    case List(xs) =>
      "[" + Join(seq(|xs|, i requires 0 <= i < |xs| => Repr(xs[i])), ", ") + "]"
    case Dict(es) =>
      "{" + Join(seq(|es|, i requires 0 <= i < |es| => "'" + es[i].0 + "': " + Repr(es[i].1)), ", ") + "}"
  }

  /** `repr(v)` */
  function Repr(v: Value): string
    decreases v, 1
  {
    if v.Str? then "'" + v.s + "'" else PyStr(v)
  }

  // ---------------------------------------------------------------------
  // Occurrence keys and de-duplication
  // ---------------------------------------------------------------------

  /** `occ.get("file_path") or occ.get("file") or occ.get("path")` */
  function FileOf(occ: Value): Value {
    Or(Or(Get(occ, "file_path"), Get(occ, "file")), Get(occ, "path"))
  }

  /** `occ.get("line") or occ.get("line_number")` */
  function LineOf(occ: Value): Value {
    Or(Get(occ, "line"), Get(occ, "line_number"))
  }

  /** The (file, line) key an occurrence is de-duplicated by. */
  function KeyOf(occ: Value): (Value, Value) {
    (FileOf(occ), LineOf(occ))
  }

  /** The key can be put into the `seen` set (otherwise Python raises `TypeError`). */
  predicate HashableKey(occ: Value) {
    Hashable(FileOf(occ)) && Hashable(LineOf(occ))
  }

  /** The keys of a sequence of occurrences. */
  function KeysOf(d: seq<Value>): set<(Value, Value)> {
    if d == [] then {} else KeysOf(d[..|d| - 1]) + {KeyOf(d[|d| - 1])}
  }

  /** The de-duplication loop of `format_response` and `_format_find_symbol`:
      dictionaries whose key was not seen yet are kept, everything else is
      skipped; `None` when a key cannot be hashed. */
  function DedupOf(occs: seq<Value>): Option<seq<Value>> {
    if occs == [] then Some([])
    else
      match DedupOf(occs[..|occs| - 1])
      case None => None
      case Some(d) => DedupStep(d, occs[|occs| - 1])
  }

  /** One turn of the loop: what is kept after looking at `occ`. */
  function DedupStep(d: seq<Value>, occ: Value): Option<seq<Value>> {
    if !occ.Dict? then Some(d)
    else if !HashableKey(occ) then None
    else if KeyOf(occ) in KeysOf(d) then Some(d)
    else Some(d + [occ])
  }

  /** Some dictionary among `xs` has key `k`. */
  predicate KeyAmong(xs: seq<Value>, k: (Value, Value)) {
    exists j :: 0 <= j < |xs| && xs[j].Dict? && KeyOf(xs[j]) == k
  }

  /** Reference definition: the dictionaries of `occs` that no earlier
      dictionary shares a key with, in their original order. */
  function FirstOfEachKey(occs: seq<Value>): seq<Value> {
    if occs == [] then []
    else
      var prefix := occs[..|occs| - 1];
      var occ := occs[|occs| - 1];
      FirstOfEachKey(prefix) + (if occ.Dict? && !KeyAmong(prefix, KeyOf(occ)) then [occ] else [])
  }

  predicate AllKeysHashable(occs: seq<Value>) {
    forall j :: 0 <= j < |occs| && occs[j].Dict? ==> HashableKey(occs[j])
  }

  /** Occurrences that are all dictionaries with pairwise distinct keys. */
  predicate DistinctKeys(d: seq<Value>) {
    (forall j :: 0 <= j < |d| ==> d[j].Dict?) &&
    (forall i, j :: 0 <= i < j < |d| ==> KeyOf(d[i]) != KeyOf(d[j]))
  }

  lemma KeysOfMember(d: seq<Value>, k: (Value, Value))
    ensures k in KeysOf(d) <==> exists j :: 0 <= j < |d| && KeyOf(d[j]) == k
  {
    if d != [] {
      var p := d[..|d| - 1];
      KeysOfMember(p, k);
      if k in KeysOf(p) {
        var j :| 0 <= j < |p| && KeyOf(p[j]) == k;
        assert d[j] == p[j];
      }
      if j :| 0 <= j < |d| - 1 && KeyOf(d[j]) == k {
        assert p[j] == d[j];
      }
    }
  }

  lemma KeyAmongSnoc(xs: seq<Value>, x: Value, k: (Value, Value))
    ensures KeyAmong(xs + [x], k) <==> KeyAmong(xs, k) || (x.Dict? && KeyOf(x) == k)
  {
    if KeyAmong(xs, k) {
      var j :| 0 <= j < |xs| && xs[j].Dict? && KeyOf(xs[j]) == k;
      assert (xs + [x])[j] == xs[j];
    }
    if x.Dict? && KeyOf(x) == k {
      assert (xs + [x])[|xs|] == x;
    }
    if KeyAmong(xs + [x], k) {
      var j :| 0 <= j < |xs + [x]| && (xs + [x])[j].Dict? && KeyOf((xs + [x])[j]) == k;
      if j < |xs| {
        assert xs[j] == (xs + [x])[j];
      }
    }
  }

  lemma KeysOfSnoc(d: seq<Value>, x: Value)
    ensures KeysOf(d + [x]) == KeysOf(d) + {KeyOf(x)}
  {
    assert (d + [x])[..|d|] == d;
  }

  /** The keys kept so far are exactly the keys of the dictionaries seen so far. */
  lemma {:induction false} FirstOfEachKeyKeys(occs: seq<Value>, k: (Value, Value))
    ensures k in KeysOf(FirstOfEachKey(occs)) <==> KeyAmong(occs, k)
    decreases |occs|
  {
    if occs != [] {
      var prefix := occs[..|occs| - 1];
      var occ := occs[|occs| - 1];
      assert occs == prefix + [occ];
      FirstOfEachKeyKeys(prefix, k);
      KeyAmongSnoc(prefix, occ, k);
      if occ.Dict? && !KeyAmong(prefix, KeyOf(occ)) {
        assert FirstOfEachKey(occs) == FirstOfEachKey(prefix) + [occ];
        KeysOfSnoc(FirstOfEachKey(prefix), occ);
      } else {
        assert FirstOfEachKey(occs) == FirstOfEachKey(prefix);
      }
    }
  }

  /** The de-duplication raises exactly when some dictionary has an
      unhashable key, and otherwise keeps the first dictionary of each key. */
  lemma {:induction false} DedupKeepsFirst(occs: seq<Value>)
    ensures DedupOf(occs).None? <==> !AllKeysHashable(occs)
    ensures AllKeysHashable(occs) ==> DedupOf(occs) == Some(FirstOfEachKey(occs))
    decreases |occs|
  {
    if occs != [] {
      var prefix := occs[..|occs| - 1];
      var occ := occs[|occs| - 1];
      DedupKeepsFirst(prefix);
      assert AllKeysHashable(occs) <==> AllKeysHashable(prefix) && (occ.Dict? ==> HashableKey(occ)) by {
        if AllKeysHashable(prefix) && (occ.Dict? ==> HashableKey(occ)) {
          forall j | 0 <= j < |occs| && occs[j].Dict? ensures HashableKey(occs[j]) {
            if j < |prefix| {
              assert occs[j] == prefix[j];
            }
          }
        }
        if AllKeysHashable(occs) {
          forall j | 0 <= j < |prefix| && prefix[j].Dict? ensures HashableKey(prefix[j]) {
            assert occs[j] == prefix[j];
          }
          assert occs[|occs| - 1] == occ;
        }
      }
      if AllKeysHashable(occs) {
        FirstOfEachKeyKeys(prefix, KeyOf(occ));
        var f := FirstOfEachKey(prefix);
        assert DedupOf(occs) == DedupStep(f, occ);
        assert f + [] == f;
        if occ.Dict? {
          assert HashableKey(occs[|occs| - 1]);
        }
      }
    }
  }

  lemma FirstOfEachKeyIn(occs: seq<Value>)
    ensures forall x :: x in FirstOfEachKey(occs) ==> x in occs && x.Dict?
  {
    if occs != [] {
      var prefix := occs[..|occs| - 1];
      FirstOfEachKeyIn(prefix);
      forall x | x in FirstOfEachKey(prefix) ensures x in occs {
        var j :| 0 <= j < |prefix| && prefix[j] == x;
        assert occs[j] == x;
      }
    }
  }

  /** What is kept is all dictionaries, with pairwise distinct keys. */
  lemma {:induction false} FirstOfEachKeyDistinct(occs: seq<Value>)
    ensures DistinctKeys(FirstOfEachKey(occs))
    decreases |occs|
  {
    FirstOfEachKeyIn(occs);
    if occs != [] {
      var prefix := occs[..|occs| - 1];
      var occ := occs[|occs| - 1];
      FirstOfEachKeyDistinct(prefix);
      var f := FirstOfEachKey(prefix);
      if occ.Dict? && !KeyAmong(prefix, KeyOf(occ)) {
        var g := f + [occ];
        forall i, j | 0 <= i < j < |g| ensures KeyOf(g[i]) != KeyOf(g[j]) {
          if j == |f| {
            FirstOfEachKeyKeys(prefix, KeyOf(occ));
            KeysOfMember(f, KeyOf(occ));
            assert g[i] == f[i];
          } else {
            assert g[i] == f[i] && g[j] == f[j];
          }
        }
      }
    }
  }

  lemma DistinctKeysPrefix(d: seq<Value>)
    requires DistinctKeys(d) && d != []
    ensures DistinctKeys(d[..|d| - 1])
    ensures !KeyAmong(d[..|d| - 1], KeyOf(d[|d| - 1]))
    ensures d[|d| - 1].Dict?
  {
    var prefix := d[..|d| - 1];
    assert forall j :: 0 <= j < |prefix| ==> prefix[j] == d[j];
  }

  /** A last dictionary with a new key is kept. */
  lemma FirstOfEachKeyNew(d: seq<Value>)
    requires d != [] && d[|d| - 1].Dict? && !KeyAmong(d[..|d| - 1], KeyOf(d[|d| - 1]))
    ensures FirstOfEachKey(d) == FirstOfEachKey(d[..|d| - 1]) + [d[|d| - 1]]
  {
  }

  /** Occurrences that are already distinct are left as they are. */
  lemma {:induction false} FirstOfEachKeyOfDistinct(d: seq<Value>)
    requires DistinctKeys(d)
    ensures FirstOfEachKey(d) == d
    decreases |d|
  {
    if d != [] {
      var prefix := d[..|d| - 1];
      DistinctKeysPrefix(d);
      FirstOfEachKeyOfDistinct(prefix);
      FirstOfEachKeyNew(d);
      assert prefix + [d[|d| - 1]] == d;
    }
  }

  /** De-duplicating twice changes nothing more. */
  lemma DedupIdempotent(occs: seq<Value>)
    requires DedupOf(occs).Some?
    ensures DedupOf(DedupOf(occs).value) == DedupOf(occs)
  {
    DedupKeepsFirst(occs);
    var d := FirstOfEachKey(occs);
    FirstOfEachKeyDistinct(occs);
    FirstOfEachKeyIn(occs);
    assert AllKeysHashable(d) by {
      forall j | 0 <= j < |d| && d[j].Dict? ensures HashableKey(d[j]) {
        assert d[j] in occs;
        var k :| 0 <= k < |occs| && occs[k] == d[j];
      }
    }
    DedupKeepsFirst(d);
    FirstOfEachKeyOfDistinct(d);
  }

  lemma DedupOfPrefix(occs: seq<Value>, i: nat)
    requires i < |occs|
    ensures DedupOf(occs[..i + 1]) ==
      match DedupOf(occs[..i]) case None => None case Some(d) => DedupStep(d, occs[i])
  {
    assert occs[..i + 1][..i] == occs[..i];
    assert occs[..i + 1][i] == occs[i];
  }

  /** The de-duplication loop itself, with its `seen` set. */
  method Dedup(occs: seq<Value>) returns (r: Option<seq<Value>>)
    ensures r == DedupOf(occs)
  {
    var seen: set<(Value, Value)> := {};
    var deduped: seq<Value> := [];
    for i := 0 to |occs|
      invariant DedupOf(occs[..i]) == Some(deduped)
      invariant seen == KeysOf(deduped)
    {
      DedupOfPrefix(occs, i);
      var occ := occs[i];
      if occ.Dict? {
        var key := KeyOf(occ);
        if !HashableKey(occ) {
          DedupKeepsFirst(occs);
          return None;
        }
        if key !in seen {
          seen := seen + {key};
          assert (deduped + [occ])[..|deduped|] == deduped;
          deduped := deduped + [occ];
        }
      }
    }
    assert occs[..|occs|] == occs;
    return Some(deduped);
  }

  // ---------------------------------------------------------------------
  // Normalisation in `format_response`
  // ---------------------------------------------------------------------

  /** `symbol_name or "target symbol"` */
  function SymbolOr(name: string): string {
    if name != "" then name else "target symbol"
  }

  /** The dictionary `format_response` hands to the tool formatter, and the
      data it prints in full beside the summary (`original_result`); `None`
      when the de-duplication or `len` raises. */
  function Normalized(toolName: string, result: Value, symbolName: string): Option<(Value, Value)> {
    if result.List? then
      if toolName == "find_symbol" then
        match DedupOf(result.items)
        case None => None
        case Some(d) =>
          Some((Dict([("symbol", Str(SymbolOr(symbolName))), ("occurrences", List(d)), ("count", Int(|d|))]), List(d)))
      else Some((Dict([("items", result), ("count", Int(|result.items|))]), result))
    else
      match Len(result)
      case None => None
      case Some(n) =>
        Some((Dict([("symbol", Str(SymbolOr(symbolName))), ("occurrences", result), ("count", Int(n))]), result))
  }

  /** What normalisation produces: a dictionary whose `count` is the length
      of the data it carries (under `occurrences` or `items`), the data being
      what is printed in full; a `find_symbol` list is de-duplicated first.
      It raises only on an unhashable occurrence key or a value without `len`. */
  lemma NormalizedShape(toolName: string, result: Value, symbolName: string)
    ensures Normalized(toolName, result, symbolName).None? <==>
      (result.List? && toolName == "find_symbol" && !AllKeysHashable(result.items)) ||
      (!result.List? && Len(result).None?)
    ensures Normalized(toolName, result, symbolName).Some? ==>
      var (r, data) := Normalized(toolName, result, symbolName).value;
      r.Dict? && Len(data).Some? &&
      Lookup(r.entries, "count") == Some(Int(Len(data).value)) &&
      (if result.List? && toolName != "find_symbol"
       then Lookup(r.entries, "items") == Some(data)
       else Lookup(r.entries, "occurrences") == Some(data) &&
            Lookup(r.entries, "symbol") == Some(Str(SymbolOr(symbolName))))
    ensures Normalized(toolName, result, symbolName).Some? && result.List? && toolName == "find_symbol" ==>
      Normalized(toolName, result, symbolName).value.1 == List(FirstOfEachKey(result.items))
    ensures Normalized(toolName, result, symbolName).Some? && !(result.List? && toolName == "find_symbol") ==>
      Normalized(toolName, result, symbolName).value.1 == result
  {
    if result.List? && toolName == "find_symbol" {
      DedupKeepsFirst(result.items);
    }
    if Normalized(toolName, result, symbolName).Some? {
      var (r, data) := Normalized(toolName, result, symbolName).value;
      var es := r.entries;
      if |es| == 3 {
        assert es[1..][1..] == [es[2]];
        assert es[0].0 == "symbol" && es[1].0 == "occurrences" && es[2].0 == "count";
        assert Lookup(es, "count") == Lookup(es[1..][1..], "count");
      } else {
        assert es[1..] == [es[1]];
        assert Lookup(es, "count") == Lookup(es[1..], "count");
      }
    }
  }

  // ---------------------------------------------------------------------
  // Pieces of text
  // ---------------------------------------------------------------------

  /** The bullet every listed line starts with. */
  const Bullet := "  \U{2022} "

  /** The directory cached clones live in, as it appears inside their paths. */
  const CacheMarker := "/tmp/github_cache/"

  const GitHubPrefix := "https://github.com/"

  /** The path rewrite of `_format_occ`: with a root, a path inside a cached
      clone is shown relative to the clone (after its hash directory), as a
      blob URL under the root when the root is a github.com URL. The text
      after the hash stops at a second cache directory, as Python's
      `split('/tmp/github_cache/')[1]` does. */
  function RewritePath(root: string, p: string): string {
    if root == "" then p
    else
      match Find(p, CacheMarker)
      case None => p
      case Some(i) =>
        var after := p[i + |CacheMarker|..];
        var segment := CutAtMarker(after);
        match SplitOnce(segment, '/')
        case None => p
        case Some((_, rel)) => if StartsWith(root, GitHubPrefix) then root + "/blob/HEAD/" + rel else rel
  }

  /** The text before the next cache directory, if any. */
  function CutAtMarker(s: string): string {
    match Find(s, CacheMarker)
    case None => s
    case Some(j) => s[..j]
  }

  /** Paths are rewritten only with a root and a cache directory in them. */
  lemma RewriteNeedsCachePath(root: string, p: string)
    ensures RewritePath(root, p) != p ==> root != "" && Contains(p, CacheMarker)
  {
  }

  lemma FirstMarkerAt(pre: string, t: string)
    requires forall j :: 0 <= j < |pre| ==> !OccursAt(pre + CacheMarker + t, CacheMarker, j)
    ensures Find(pre + CacheMarker + t, CacheMarker) == Some(|pre|)
    ensures (pre + CacheMarker + t)[|pre| + |CacheMarker|..] == t
  {
    var p := pre + CacheMarker + t;
    assert p[|pre|..|pre| + |CacheMarker|] == CacheMarker;
    assert OccursAt(p, CacheMarker, |pre|);
  }

  /** A path `pre/tmp/github_cache/<hash>/<rel>` (first cache directory at
      `pre`, no other after it) is shown as `rel`, or as `<root>/blob/HEAD/<rel>`
      for a github.com root. */
  lemma RewriteCachedPath(root: string, pre: string, hash: string, rel: string)
    requires root != ""
    requires forall j :: 0 <= j < |pre| ==> !OccursAt(pre + CacheMarker + (hash + "/" + rel), CacheMarker, j)
    requires '/' !in hash
    requires !Contains(hash + "/" + rel, CacheMarker)
    ensures RewritePath(root, pre + CacheMarker + (hash + "/" + rel)) ==
      if StartsWith(root, GitHubPrefix) then root + "/blob/HEAD/" + rel else rel
  {
    FirstMarkerAt(pre, hash + "/" + rel);
    assert CutAtMarker(hash + "/" + rel) == hash + "/" + rel;
    SplitOnceOf(hash, rel, '/');
    assert hash + "/" + rel == hash + ['/'] + rel;
  }

  /** A cached path with no `/` after the cache directory (no hash directory
      followed by a file) is shown as it is. */
  lemma RewriteWithoutHashDirectory(root: string, pre: string, rest: string)
    requires forall j :: 0 <= j < |pre| ==> !OccursAt(pre + CacheMarker + rest, CacheMarker, j)
    requires '/' !in rest
    ensures RewritePath(root, pre + CacheMarker + rest) == pre + CacheMarker + rest
  {
    if root != "" {
      FirstMarkerAt(pre, rest);
      assert !Contains(rest, CacheMarker) by {
        forall j | 0 <= j <= |rest| - |CacheMarker| ensures !OccursAt(rest, CacheMarker, j) {
          assert rest[j] != '/';
          assert rest[j..j + |CacheMarker|][0] == rest[j];
        }
      }
      SplitOnceSpec(rest, '/');
    }
  }

  /** `context[:120] + ("..." if len(context) > 120 else "")` */
  function Snippet(context: string): (r: string)
    ensures |context| <= 120 ==> r == context
    ensures |context| > 120 ==> |r| == 123 && StartsWith(context, r[..120]) && EndsWith(r, "...")
  {
    Take(context, 120) + (if |context| > 120 then "..." else "")
  }

  /** The file as `_format_occ` shows it; `None` where Python raises (`in` on
      a number or `None`, `split` on a container holding the cache path). */
  function ShownPath(file: Value, root: string): Option<string> {
    if root == "" then Some(PyStr(file))
    else
      match file
      case Str(p) => Some(RewritePath(root, p))
      case List(xs) => if Str(CacheMarker) in xs then None else Some(PyStr(file))
      case Dict(es) => if Lookup(es, CacheMarker).Some? then None else Some(PyStr(file))
      case _ => None
  }

  /** `_format_occ`: one bullet for an occurrence dictionary. */
  function OccLine(occ: Value, root: string): Option<string> {
    var file := Or(Or(Get(occ, "file_path"), Get(occ, "file")), GetOr(occ, "path", Str("unknown")));
    var shown := ShownPath(file, root);
    var context := GetOr(occ, "context", Str(""));
    if shown.None? || !context.Str? then None
    else
      var line := LineOf(occ);
      var linePart := if line != NoneValue then ": line " + PyStr(line) else "";
      var usageType := GetOr(occ, "usage_type", Str(""));
      var usagePart := if Truthy(usageType) then " [" + PyStr(usageType) + "]" else "";
      Some(TrimEnd(Bullet + shown.value + linePart + usagePart + " \U{2014} " + Snippet(context.s)))
  }

  /** A line that starts with the bullet mark and ends without whitespace. */
  predicate Bulleted(l: string) {
    StartsWith(l, Bullet) && l != [] && !IsSpace(l[|l| - 1])
  }

  /** Every bullet starts with the bullet mark and ends without whitespace. */
  lemma OccLineShape(occ: Value, root: string)
    requires OccLine(occ, root).Some?
    ensures Bulleted(OccLine(occ, root).value)
  {
    var file := Or(Or(Get(occ, "file_path"), Get(occ, "file")), GetOr(occ, "path", Str("unknown")));
    var shown := ShownPath(file, root).value;
    var line := LineOf(occ);
    var linePart := if line != NoneValue then ": line " + PyStr(line) else "";
    var usageType := GetOr(occ, "usage_type", Str(""));
    var usagePart := if Truthy(usageType) then " [" + PyStr(usageType) + "]" else "";
    var snippet := Snippet(GetOr(occ, "context", Str("")).s);
    assert OccLine(occ, root).value == TrimEnd(Bullet + shown + linePart + usagePart + " \U{2014} " + snippet);
    BulletedLine(shown, linePart, usagePart, snippet);
  }

  lemma BulletedLine(shown: string, linePart: string, usagePart: string, snippet: string)
    ensures Bulleted(TrimEnd(Bullet + shown + linePart + usagePart + " \U{2014} " + snippet))
  {
    var head := Bullet + shown + linePart + usagePart + " \U{2014}";
    assert Bullet + shown + linePart + usagePart + " \U{2014} " + snippet == head + (" " + snippet);
    TrimEndKeeps(head, " " + snippet);
    assert head[..|Bullet|] == Bullet;
  }

  // ---------------------------------------------------------------------
  // `_format_generic`
  // ---------------------------------------------------------------------

  /** The line shown for one field; `None` values are skipped. */
  function FieldLine(key: string, v: Value): string {
    match v
    case List(xs) => Bullet + key + ": " + IntToString(|xs|) + " items\n"
    case Dict(es) => Bullet + key + ": object with " + IntToString(|es|) + " fields\n"
    case NoneValue => ""
    case _ => Bullet + key + ": " + PyStr(v) + "\n"
  }

  function FieldLines(es: seq<(string, Value)>): string {
    if es == [] then "" else FieldLines(es[..|es| - 1]) + FieldLine(es[|es| - 1].0, es[|es| - 1].1)
  }

  function GenericHeader(n: nat): string {
    "**Result received** with " + IntToString(n) + " field(s):\n"
  }

  /** What `_format_generic` returns: for a dictionary, the number of fields
      and a line for each of the first five; `str(result)` otherwise. */
  function GenericSummary(result: Value): string {
    if result.Dict? then
      var es := result.entries;
      var t := GenericHeader(|es|) + FieldLines(Take(es, 5));
      if |es| > 5 then t + ("  ... and " + IntToString(|es| - 5) + " more fields") else t
    else PyStr(result)
  }

  lemma {:induction false} FieldLinesEnd(es: seq<(string, Value)>)
    ensures FieldLines(es) == [] || FieldLines(es)[|FieldLines(es)| - 1] == '\n'
    decreases |es|
  {
    if es != [] {
      var a := FieldLines(es[..|es| - 1]);
      var b := FieldLine(es[|es| - 1].0, es[|es| - 1].1);
      FieldLinesEnd(es[..|es| - 1]);
      FieldLineEnd(es[|es| - 1].0, es[|es| - 1].1);
      assert FieldLines(es) == a + b;
      if b == [] {
        assert a + b == a;
      } else {
        assert (a + b)[|a + b| - 1] == b[|b| - 1];
      }
    }
  }

  lemma FieldLineEnd(key: string, v: Value)
    ensures FieldLine(key, v) == [] || FieldLine(key, v)[|FieldLine(key, v)| - 1] == '\n'
  {
  }

  /** The summary of a dictionary starts with its field count, and mentions
      further fields exactly when there are more than five. */
  lemma GenericDictSummary(es: seq<(string, Value)>)
    ensures StartsWith(GenericSummary(Dict(es)), GenericHeader(|es|))
    ensures EndsWith(GenericSummary(Dict(es)), " more fields") <==> |es| > 5
  {
    var h := GenericHeader(|es|);
    var body := FieldLines(Take(es, 5));
    var t := h + body;
    assert t[|t| - 1] == '\n' by {
      FieldLinesEnd(Take(es, 5));
      if body == [] {
        assert t == h;
      } else {
        assert t[|t| - 1] == body[|body| - 1];
      }
    }
    if |es| <= 5 {
      assert GenericSummary(Dict(es)) == t;
      NotEndsWith(t, " more fields");
      assert t[..|h|] == h;
    } else {
      var pre := "  ... and " + IntToString(|es| - 5);
      var more := pre + " more fields";
      assert GenericSummary(Dict(es)) == t + more;
      AppendAssoc(t, pre, " more fields");
      EndsWithAppend(t + pre, " more fields");
      AppendAssoc(h, body, more);
      assert (h + (body + more))[..|h|] == h;
    }
  }

  lemma FieldLinesPrefix(es: seq<(string, Value)>, i: nat)
    requires i < |es|
    ensures FieldLines(es[..i + 1]) == FieldLines(es[..i]) + FieldLine(es[i].0, es[i].1)
  {
    assert es[..i + 1][..i] == es[..i];
    assert es[..i + 1][i] == es[i];
  }

  /** `_format_generic`, building the summary with `+=`. */
  method FormatGeneric(result: Value) returns (summary: string)
    ensures summary == GenericSummary(result)
  {
    if result.Dict? {
      var es := result.entries;
      summary := GenericHeader(|es|);
      var shown := Take(es, 5);
      for i := 0 to |shown|
        invariant summary == GenericHeader(|es|) + FieldLines(shown[..i])
      {
        FieldLinesPrefix(shown, i);
        var line := FieldLine(shown[i].0, shown[i].1);
        AppendAssoc(GenericHeader(|es|), FieldLines(shown[..i]), line);
        summary := summary + line;
      }
      assert shown[..|shown|] == shown;
      if |es| > 5 {
        var more := "  ... and " + IntToString(|es| - 5) + " more fields";
        summary := summary + more;
      }
    } else {
      summary := PyStr(result);
    }
  }

  // ---------------------------------------------------------------------
  // `_format_find_symbol`
  // ---------------------------------------------------------------------

  /** The distinct non-empty file values of the occurrences (`files`). */
  function FileSet(d: seq<Value>): set<Value> {
    if d == [] then {}
    else
      var occ := d[|d| - 1];
      FileSet(d[..|d| - 1]) + (if occ.Dict? && Truthy(FileOf(occ)) then {FileOf(occ)} else {})
  }

  /** `distinct_files` counts the different non-empty files, never more than
      there are occurrences. */
  lemma {:induction false} FileSetSpec(d: seq<Value>, f: Value)
    ensures f in FileSet(d) <==> exists j :: 0 <= j < |d| && d[j].Dict? && Truthy(FileOf(d[j])) && FileOf(d[j]) == f
    ensures |FileSet(d)| <= |d|
    decreases |d|
  {
    if d != [] {
      var prefix := d[..|d| - 1];
      FileSetSpec(prefix, f);
      if j :| 0 <= j < |prefix| && prefix[j].Dict? && Truthy(FileOf(prefix[j])) && FileOf(prefix[j]) == f {
        assert d[j] == prefix[j];
      }
      if j :| 0 <= j < |d| - 1 && d[j].Dict? && Truthy(FileOf(d[j])) && FileOf(d[j]) == f {
        assert prefix[j] == d[j];
      }
    }
  }

  /** `[_format_occ(occ) for occ in occs if isinstance(occ, dict)]` */
  function BulletLines(occs: seq<Value>, root: string): Option<seq<string>> {
    if occs == [] then Some([])
    else
      match BulletLines(occs[..|occs| - 1], root)
      case None => None
      case Some(ls) =>
        var occ := occs[|occs| - 1];
        if !occ.Dict? then Some(ls)
        else match OccLine(occ, root)
          case None => None
          case Some(l) => Some(ls + [l])
  }

  /** One bullet per dictionary, none longer than needed: each starts with
      the bullet mark and has no trailing whitespace. */
  lemma {:induction false} BulletLinesSpec(occs: seq<Value>, root: string)
    requires BulletLines(occs, root).Some?
    ensures |BulletLines(occs, root).value| <= |occs|
    ensures forall l :: l in BulletLines(occs, root).value ==> Bulleted(l)
    decreases |occs|
  {
    if occs != [] {
      var prefix := occs[..|occs| - 1];
      var occ := occs[|occs| - 1];
      assert BulletLines(prefix, root).Some?;
      BulletLinesSpec(prefix, root);
      var ls := BulletLines(prefix, root).value;
      if occ.Dict? {
        OccLineShape(occ, root);
        assert BulletLines(occs, root).value == ls + [OccLine(occ, root).value];
      } else {
        assert BulletLines(occs, root).value == ls;
      }
    }
  }

  /** The summary line and its optional parts. */
  function SymbolText(symbol: string, countText: string, distinctFiles: nat, bullets: string, more: Option<nat>): string {
    "Found " + countText + " usages of '" + symbol + "'"
    + (if distinctFiles > 0 then " across " + IntToString(distinctFiles) + " file(s)" else "")
    + (if bullets != "" then "\n\nKey locations:\n" + bullets else "")
    + (if more.Some? then "\n  ... and " + IntToString(more.value) + " more" else "")
  }

  /** More than 50 usages add the model's roll-up, unless it is empty or an error. */
  function WithRollup(summary: string, count: int, llmReply: string): string {
    if count > 50 && llmReply != "" && !StartsWith(llmReply, "Error") then summary + "\n\nAI summary: " + llmReply
    else summary
  }

  predicate IsNumber(v: Value) {
    v.Int? || v.Bool?
  }

  /** The number a numeric value compares as (`True` is 1). */
  function NumOf(v: Value): int
    requires IsNumber(v)
  {
    if v.Int? then v.i else if v.b then 1 else 0
  }

  /** What `_format_find_symbol` returns once `format_response` has
      initialised the model; `llmReply` is what the model answers for the
      roll-up. `None` where Python raises. */
  function FindSymbolSummary(result: Value, root: string, llmReply: string): Option<string> {
    if !result.Dict? then Some(GenericSummary(result))
    else
      var symbol := GetOr(result, "symbol", Str("target symbol"));
      var occurrences := GetOr(result, "occurrences", List([]));
      if occurrences.List? then
        match DedupOf(occurrences.items)
        case None => None
        case Some(d) =>
          match BulletLines(Take(d, 10), root)
          case None => None
          case Some(bullets) =>
            var summary := SymbolText(PyStr(symbol), IntToString(|d|), |FileSet(d)|, Join(bullets, "\n"),
                                      if |d| > 10 then Some(|d| - 10) else None);
            Some(WithRollup(summary, |d|, llmReply))
      else
        var count := GetOr(result, "count", Int(0));
        if !IsNumber(count) then None
        // the roll-up prompt slices `occurrences[:10]`, which only a string allows here
        else if NumOf(count) > 50 && !occurrences.Str? then None
        else Some(WithRollup(SymbolText(PyStr(symbol), PyStr(count), 0, "", None), NumOf(count), llmReply))
  }

  /** For a list of occurrences the count is that of the de-duplicated list,
      at most ten are listed, and the remainder is announced when there are
      more than ten. */
  lemma FindSymbolReport(result: Value, root: string, llmReply: string)
    requires result.Dict? && GetOr(result, "occurrences", List([])).List?
    requires FindSymbolSummary(result, root, llmReply).Some?
    ensures var occs := GetOr(result, "occurrences", List([])).items;
      var d := FirstOfEachKey(occs);
      var summary := FindSymbolSummary(result, root, llmReply).value;
      AllKeysHashable(occs) && |d| <= |occs| &&
      StartsWith(summary, "Found " + IntToString(|d|) + " usages of '" + PyStr(GetOr(result, "symbol", Str("target symbol"))) + "'") &&
      BulletLines(Take(d, 10), root).Some? && |BulletLines(Take(d, 10), root).value| <= 10 &&
      |FileSet(d)| <= |d| &&
      (|d| > 10 ==> Contains(summary, "\n  ... and " + IntToString(|d| - 10) + " more"))
  {
    var occs := GetOr(result, "occurrences", List([])).items;
    DedupKeepsFirst(occs);
    var d := FirstOfEachKey(occs);
    FirstOfEachKeyIn(occs);
    FirstOfEachKeyDistinct(occs);
    FileSetSpec(d, NoneValue);
    BulletLinesSpec(Take(d, 10), root);
    DistinctBound(occs);
    var symbol := GetOr(result, "symbol", Str("target symbol"));
    var bullets := BulletLines(Take(d, 10), root).value;
    SymbolTextFacts(PyStr(symbol), |d|, |FileSet(d)|, Join(bullets, "\n"), llmReply);
  }

  lemma SymbolTextFacts(symbol: string, count: nat, files: nat, bs: string, llmReply: string)
    ensures var summary := WithRollup(SymbolText(symbol, IntToString(count), files, bs,
                                                 if count > 10 then Some(count - 10) else None), count, llmReply);
      StartsWith(summary, "Found " + IntToString(count) + " usages of '" + symbol + "'") &&
      (count > 10 ==> Contains(summary, "\n  ... and " + IntToString(count - 10) + " more"))
  {
    var head := "Found " + IntToString(count) + " usages of '" + symbol + "'";
    var filesPart := if files > 0 then " across " + IntToString(files) + " file(s)" else "";
    var locs := if bs != "" then "\n\nKey locations:\n" + bs else "";
    var more: Option<nat> := if count > 10 then Some(count - 10) else None;
    var tail := if more.Some? then "\n  ... and " + IntToString(more.value) + " more" else "";
    var text := SymbolText(symbol, IntToString(count), files, bs, more);
    assert text == head + filesPart + locs + tail;
    ThreeParts(head, filesPart, locs, tail);
    RollupKeeps(text, count, llmReply, tail);
    assert head <= text;
  }

  /** The roll-up only appends: the summary starts with the text and keeps
      everything the text contains. */
  lemma RollupKeeps(text: string, count: int, llmReply: string, w: string)
    ensures StartsWith(WithRollup(text, count, llmReply), text)
    ensures Contains(text, w) ==> Contains(WithRollup(text, count, llmReply), w)
  {
    var summary := WithRollup(text, count, llmReply);
    assert text + summary[|text|..] == summary;
    if Contains(text, w) {
      ContainsConcatLeft(text, summary[|text|..], w);
    }
  }

  lemma ThreeParts(head: string, b: string, c: string, tail: string)
    ensures StartsWith(head + b + c + tail, head) && Contains(head + b + c + tail, tail)
  {
    AppendAssoc(head, b, c);
    AppendAssoc(head, b + c, tail);
    ContainsPrefix(tail, tail);
    ContainsConcatRight(head + b + c, tail, tail);
  }

  /** De-duplication never makes the list longer. */
  lemma {:induction false} DistinctBound(occs: seq<Value>)
    ensures |FirstOfEachKey(occs)| <= |occs|
    decreases |occs|
  {
    if occs != [] {
      DistinctBound(occs[..|occs| - 1]);
    }
  }

  /** Occurrences that are not a list are counted by `count`: the summary
      raises exactly when `count` is not a number, or when it is over 50 and
      the occurrences cannot be sliced for the roll-up prompt. */
  lemma FindSymbolUnlisted(result: Value, root: string, llmReply: string)
    requires result.Dict? && !GetOr(result, "occurrences", List([])).List?
    ensures var occurrences := GetOr(result, "occurrences", List([]));
      var count := GetOr(result, "count", Int(0));
      FindSymbolSummary(result, root, llmReply).None? <==>
        !IsNumber(count) || (NumOf(count) > 50 && !occurrences.Str?)
    ensures var count := GetOr(result, "count", Int(0));
      FindSymbolSummary(result, root, llmReply).Some? ==>
        StartsWith(FindSymbolSummary(result, root, llmReply).value,
                   "Found " + PyStr(count) + " usages of '" + PyStr(GetOr(result, "symbol", Str("target symbol"))) + "'")
  {
    var count := GetOr(result, "count", Int(0));
    var symbol := GetOr(result, "symbol", Str("target symbol"));
    if FindSymbolSummary(result, root, llmReply).Some? {
      var head := "Found " + PyStr(count) + " usages of '" + PyStr(symbol) + "'";
      var text := SymbolText(PyStr(symbol), PyStr(count), 0, "", None);
      assert text == head + "" + "" + "";
      ThreeParts(head, "", "", "");
      RollupKeeps(text, NumOf(count), llmReply, "");
      PrefixTrans(head, text, FindSymbolSummary(result, root, llmReply).value);
    }
  }

  /** `_format_find_symbol`, with its own de-duplication loop. */
  method FormatFindSymbol(result: Value, root: string, llmReply: string) returns (r: Option<string>)
    ensures r == FindSymbolSummary(result, root, llmReply)
  {
    if !result.Dict? {
      var g := FormatGeneric(result);
      return Some(g);
    }
    var symbol := GetOr(result, "symbol", Str("target symbol"));
    var occurrences := GetOr(result, "occurrences", List([]));
    if occurrences.List? {
      var deduped := Dedup(occurrences.items);
      if deduped.None? {
        return None;
      }
      var d := deduped.value;
      var bullets := BulletLines(Take(d, 10), root);
      if bullets.None? {
        return None;
      }
      var summary := SymbolText(PyStr(symbol), IntToString(|d|), |FileSet(d)|, Join(bullets.value, "\n"),
                                if |d| > 10 then Some(|d| - 10) else None);
      return Some(WithRollup(summary, |d|, llmReply));
    }
    var count := GetOr(result, "count", Int(0));
    if !IsNumber(count) {
      return None;
    }
    if NumOf(count) > 50 && !occurrences.Str? {
      return None;
    }
    return Some(WithRollup(SymbolText(PyStr(symbol), PyStr(count), 0, "", None), NumOf(count), llmReply));
  }

  // ---------------------------------------------------------------------
  // `_format_grep_search`
  // ---------------------------------------------------------------------

  /** One listed match; `None` when the match is not a dictionary. */
  function MatchLine(m: Value): Option<string> {
    if !m.Dict? then None
    else
      Some(Bullet + PyStr(GetOr(m, "file", GetOr(m, "path", Str("unknown")))) + ": "
           + PyStr(GetOr(m, "line", GetOr(m, "context", Str("N/A")))))
  }

  function MatchLines(ms: seq<Value>): Option<seq<string>> {
    if ms == [] then Some([])
    else
      match MatchLines(ms[..|ms| - 1])
      case None => None
      case Some(ls) =>
        match MatchLine(ms[|ms| - 1])
        case None => None
        case Some(l) => Some(ls + [l])
  }

  /** Every match is listed, in order, and listing fails only on a match that
      is not a dictionary. */
  lemma {:induction false} MatchLinesSpec(ms: seq<Value>)
    ensures MatchLines(ms).Some? <==> forall j :: 0 <= j < |ms| ==> ms[j].Dict?
    ensures MatchLines(ms).Some? ==>
      |MatchLines(ms).value| == |ms| &&
      (forall j :: 0 <= j < |ms| ==> MatchLines(ms).value[j] == MatchLine(ms[j]).value)
    decreases |ms|
  {
    if ms != [] {
      var prefix := ms[..|ms| - 1];
      MatchLinesSpec(prefix);
      assert forall j :: 0 <= j < |prefix| ==> prefix[j] == ms[j];
    }
  }

  /** What `_format_grep_search` returns; `llmReply` is the model's answer
      for more than 15 matches. */
  function GrepSummary(result: Value, llmReply: string): Option<string> {
    if !result.Dict? then Some(GenericSummary(result))
    else
      var matches := GetOr(result, "matches", List([]));
      var pattern := GetOr(result, "pattern", Str("unknown"));
      var count := if matches.List? then Int(|matches.items|) else GetOr(result, "count", Int(0));
      if !IsNumber(count) then None
      // the prompt slices `matches[:5]`, which a value other than a list or a string refuses
      else if NumOf(count) > 15 then (if matches.List? || matches.Str? then Some(llmReply) else None)
      else
        var listed := if matches.List? then MatchLines(Take(matches.items, 10)) else Some([]);
        match listed
        case None => None
        case Some(ls) =>
          var locations := Join(ls, "\n");
          Some("Found " + PyStr(count) + " match(es) for pattern '" + PyStr(pattern) + "'"
               + (if locations != "" then "\n\nMatching lines:\n" + locations else "")
               + (if NumOf(count) > 10 then "\n  ... and " + IntToString(NumOf(count) - 10) + " more" else ""))
  }

  /** Up to 15 matches are summarised directly, listing the first ten (all
      of which must be dictionaries) and announcing the rest; more than 15
      are left to the model. */
  lemma GrepSmallListed(result: Value, llmReply: string)
    requires result.Dict? && GetOr(result, "matches", List([])).List?
    ensures var ms := GetOr(result, "matches", List([])).items;
      var pattern := GetOr(result, "pattern", Str("unknown"));
      (|ms| > 15 ==> GrepSummary(result, llmReply) == Some(llmReply)) &&
      (|ms| <= 15 ==>
        (GrepSummary(result, llmReply).Some? <==> forall j :: 0 <= j < Min(10, |ms|) ==> ms[j].Dict?) &&
        (GrepSummary(result, llmReply).Some? ==>
          |MatchLines(Take(ms, 10)).value| == Min(10, |ms|) &&
          StartsWith(GrepSummary(result, llmReply).value,
                     "Found " + IntToString(|ms|) + " match(es) for pattern '" + PyStr(pattern) + "'") &&
          (|ms| > 10 ==> EndsWith(GrepSummary(result, llmReply).value, "\n  ... and " + IntToString(|ms| - 10) + " more"))))
  {
    var ms := GetOr(result, "matches", List([])).items;
    MatchLinesSpec(Take(ms, 10));
    assert forall j :: 0 <= j < |Take(ms, 10)| ==> Take(ms, 10)[j] == ms[j];
    if |ms| <= 15 && GrepSummary(result, llmReply).Some? {
      var pattern := GetOr(result, "pattern", Str("unknown"));
      var locations := Join(MatchLines(Take(ms, 10)).value, "\n");
      GrepSmallText(result, llmReply, IntToString(|ms|), PyStr(pattern), locations,
                    if |ms| > 10 then "\n  ... and " + IntToString(|ms| - 10) + " more" else "");
    }
  }

  /** Matches that are not a list are counted by `count`: the summary raises
      exactly when `count` is not a number, or when it is over 15 and the
      matches cannot be sliced for the prompt; otherwise nothing is listed. */
  lemma GrepUnlisted(result: Value, llmReply: string)
    requires result.Dict? && !GetOr(result, "matches", List([])).List?
    ensures var matches := GetOr(result, "matches", List([]));
      var count := GetOr(result, "count", Int(0));
      GrepSummary(result, llmReply).None? <==> !IsNumber(count) || (NumOf(count) > 15 && !matches.Str?)
    ensures var count := GetOr(result, "count", Int(0));
      IsNumber(count) && NumOf(count) > 15 && GetOr(result, "matches", List([])).Str? ==>
        GrepSummary(result, llmReply) == Some(llmReply)
  {
  }

  lemma GrepSmallText(result: Value, llmReply: string, count: string, pattern: string, locations: string, more: string)
    requires GrepSummary(result, llmReply) ==
      Some("Found " + count + " match(es) for pattern '" + pattern + "'"
           + (if locations != "" then "\n\nMatching lines:\n" + locations else "") + more)
    ensures StartsWith(GrepSummary(result, llmReply).value, "Found " + count + " match(es) for pattern '" + pattern + "'")
    ensures EndsWith(GrepSummary(result, llmReply).value, more)
  {
    var head := "Found " + count + " match(es) for pattern '" + pattern + "'";
    var a := if locations != "" then "\n\nMatching lines:\n" + locations else "";
    AppendAssoc(head, a, more);
    EndsWithAppend(head + a, more);
  }

  // ---------------------------------------------------------------------
  // `_format_analyze_and_plan`
  // ---------------------------------------------------------------------

  /** The stripped non-blank lines, in order. */
  function PlanSteps(lines: seq<string>): seq<string> {
    if lines == [] then []
    else
      var l := Strip(lines[|lines| - 1]);
      PlanSteps(lines[..|lines| - 1]) + (if l != "" then [l] else [])
  }

  /** A bullet line per item. */
  function Bullets(items: seq<string>): string {
    if items == [] then "" else Bullets(items[..|items| - 1]) + Bullet + items[|items| - 1] + "\n"
  }

  /** The steps are exactly the non-blank lines, stripped, and never more
      than there are lines. */
  lemma {:induction false} PlanStepsSpec(lines: seq<string>, step: string)
    ensures |PlanSteps(lines)| <= |lines|
    ensures step in PlanSteps(lines) <==> step != "" && exists k :: 0 <= k < |lines| && Strip(lines[k]) == step
    decreases |lines|
  {
    if lines != [] {
      var prefix := lines[..|lines| - 1];
      PlanStepsSpec(prefix, step);
      if k :| 0 <= k < |prefix| && Strip(prefix[k]) == step {
        assert lines[k] == prefix[k];
      }
      if k :| 0 <= k < |lines| - 1 && Strip(lines[k]) == step {
        assert prefix[k] == lines[k];
      }
    }
  }

  function PlanHead(observations: Value): string {
    "**Refactoring Plan Generated**\n\n"
    + (if Truthy(observations) then "**Key Observations:**\n" + PyStr(observations) + "\n\n" else "")
  }

  function MoreSteps(lines: seq<string>): string {
    if |lines| > 15 then "  ... and " + IntToString(|lines| - 15) + " more steps\n" else ""
  }

  /** What `_format_analyze_and_plan` returns: bullets for the non-blank
      lines among the first 15 of the plan, and a count of the lines beyond. */
  function PlanSummary(result: Value): Option<string> {
    if !result.Dict? then Some(GenericSummary(result))
    else
      var plan := GetOr(result, "refactoring_plan", Str(""));
      var head := PlanHead(GetOr(result, "observations", Str("")));
      if !Truthy(plan) then Some(head)
      else if !plan.Str? then None
      else
        var lines := Split(plan.s, '\n');
        Some(head + "**Plan Steps:**\n" + Bullets(PlanSteps(Take(lines, 15))) + MoreSteps(lines))
  }

  lemma StepsPrefix(lines: seq<string>, i: nat)
    requires i < |lines|
    ensures PlanSteps(lines[..i + 1]) ==
      PlanSteps(lines[..i]) + (if Strip(lines[i]) != "" then [Strip(lines[i])] else [])
  {
    assert lines[..i + 1][..i] == lines[..i];
    assert lines[..i + 1][i] == lines[i];
  }

  lemma BulletsSnoc(items: seq<string>, x: string)
    ensures Bullets(items + [x]) == Bullets(items) + Bullet + x + "\n"
  {
    assert (items + [x])[..|items|] == items;
  }

  /** One turn of the loop over the plan: a non-blank line adds a bullet. */
  lemma StepTurn(summary: string, first: seq<string>, i: nat)
    requires i < |first|
    ensures var stripped := Strip(first[i]);
      summary + Bullets(PlanSteps(first[..i])) + (if stripped != "" then Bullet + stripped + "\n" else "")
      == summary + Bullets(PlanSteps(first[..i + 1]))
  {
    StepsPrefix(first, i);
    var stripped := Strip(first[i]);
    var steps := PlanSteps(first[..i]);
    if stripped != "" {
      var w := Bullet + stripped + "\n";
      assert Bullets(steps + [stripped]) == Bullets(steps) + w by {
        BulletsSnoc(steps, stripped);
        AppendAssoc(Bullets(steps) + Bullet, stripped, "\n");
        AppendAssoc(Bullets(steps), Bullet, stripped + "\n");
        AppendAssoc(Bullet, stripped, "\n");
      }
      AppendAssoc(summary, Bullets(steps), w);
    } else {
      assert steps + [] == steps;
    }
  }

  /** The loop over the first 15 lines of the plan. */
  method AppendSteps(summary: string, first: seq<string>) returns (out: string)
    ensures out == summary + Bullets(PlanSteps(first))
  {
    out := summary;
    for i := 0 to |first|
      invariant out == summary + Bullets(PlanSteps(first[..i]))
    {
      StepTurn(summary, first, i);
      var stripped := Strip(first[i]);
      if stripped != "" {
        out := out + (Bullet + stripped + "\n");
      }
    }
    assert first[..|first|] == first;
  }

  /** `_format_analyze_and_plan`, building the summary with `+=`. */
  method FormatAnalyzeAndPlan(result: Value) returns (r: Option<string>)
    ensures r == PlanSummary(result)
  {
    if !result.Dict? {
      var g := FormatGeneric(result);
      return Some(g);
    }
    var plan := GetOr(result, "refactoring_plan", Str(""));
    var observations := GetOr(result, "observations", Str(""));
    var summary := "**Refactoring Plan Generated**\n\n";
    if Truthy(observations) {
      summary := summary + ("**Key Observations:**\n" + PyStr(observations) + "\n\n");
    }
    assert summary == PlanHead(observations);
    if Truthy(plan) {
      if !plan.Str? {
        return None;
      }
      var lines := Split(plan.s, '\n');
      summary := summary + "**Plan Steps:**\n";
      summary := AppendSteps(summary, Take(lines, 15));
      if |lines| > 15 {
        summary := summary + ("  ... and " + IntToString(|lines| - 15) + " more steps\n");
      } else {
        assert summary + "" == summary;
      }
      assert summary == PlanHead(observations) + "**Plan Steps:**\n" + Bullets(PlanSteps(Take(lines, 15))) + MoreSteps(lines);
    }
    return Some(summary);
  }

  // ---------------------------------------------------------------------
  // `_format_refactor_code` and `_format_generate_tests`
  // ---------------------------------------------------------------------

  /** The elements a `for` loop and slicing see: a string gives its
      characters; `None` for values that cannot be sliced. */
  function Iterated(v: Value): Option<seq<Value>> {
    match v
    case Str(s) => Some(seq(|s|, i requires 0 <= i < |s| => Str([s[i]])))
    case List(xs) => Some(xs)
    case _ => None
  }

  /** A bullet line per item, shown with `str`. */
  function ItemBullets(items: seq<Value>): string {
    if items == [] then "" else ItemBullets(items[..|items| - 1]) + Bullet + PyStr(items[|items| - 1]) + "\n"
  }

  /** A fenced Python block with the first `keep` lines and a count of the rest. */
  function CodeBlock(lines: seq<string>, keep: nat): string {
    "```python\n" + Join(Take(lines, keep), "\n")
    + (if |lines| > keep then "\n... (" + IntToString(|lines| - keep) + " more lines)\n" else "")
    + "\n```"
  }

  /** The block shows a prefix of the code, all of it when it has at most
      `keep` lines. */
  lemma CodeBlockShows(code: string, keep: nat)
    ensures StartsWith(code, Join(Take(Split(code, '\n'), keep), "\n"))
    ensures |Split(code, '\n')| <= keep ==> Join(Take(Split(code, '\n'), keep), "\n") == code
  {
    JoinSplit(code, '\n');
    JoinTake(Split(code, '\n'), keep, "\n");
    if |Split(code, '\n')| <= keep {
      assert Take(Split(code, '\n'), keep) == Split(code, '\n');
    }
  }

  function RefactoredCodePart(code: string): string {
    var lines := Split(code, '\n');
    "**Refactored Code (" + IntToString(|lines|) + " lines):**\n\n" + CodeBlock(lines, 20)
  }

  function MoreImprovements(n: nat): string {
    if n > 5 then "  ... and " + IntToString(n - 5) + " more\n\n" else ""
  }

  /** The improvements part of the summary: at most five of them. */
  function ImprovementsPart(improvements: Value): Option<string> {
    if !Truthy(improvements) then Some("")
    else
      match Iterated(improvements)
      case None => None
      case Some(items) =>
        Some("**Improvements Made:**\n" + ItemBullets(Take(items, 5)) + MoreImprovements(|items|))
  }

  /** The code part of the summary: at most 20 lines of the code. */
  function CodePart(code: Value): Option<string> {
    if !Truthy(code) then Some("")
    else if !code.Str? then None
    else Some(RefactoredCodePart(code.s))
  }

  /** What `_format_refactor_code` returns. */
  function RefactorSummary(result: Value): Option<string> {
    if !result.Dict? then Some(GenericSummary(result))
    else
      var imp := ImprovementsPart(GetOr(result, "improvements", List([])));
      var code := CodePart(GetOr(result, "refactored_code", Str("")));
      if imp.None? || code.None? then None
      else Some("**Code Refactored**\n\n" + imp.value + code.value)
  }

  lemma ItemBulletsPrefix(items: seq<Value>, i: nat)
    requires i < |items|
    ensures ItemBullets(items[..i + 1]) == ItemBullets(items[..i]) + Bullet + PyStr(items[i]) + "\n"
  {
    assert items[..i + 1][..i] == items[..i];
    assert items[..i + 1][i] == items[i];
  }

  /** The loop over the first five improvements. */
  method AppendImprovements(summary: string, shown: seq<Value>) returns (out: string)
    ensures out == summary + ItemBullets(shown)
  {
    out := summary;
    for i := 0 to |shown|
      invariant out == summary + ItemBullets(shown[..i])
    {
      ItemBulletsPrefix(shown, i);
      AppendAssoc(summary, ItemBullets(shown[..i]), Bullet + PyStr(shown[i]) + "\n");
      out := out + (Bullet + PyStr(shown[i]) + "\n");
    }
    assert shown[..|shown|] == shown;
  }

  /** `_format_refactor_code`, building the summary with `+=`. */
  method FormatRefactorCode(result: Value) returns (r: Option<string>)
    ensures r == RefactorSummary(result)
  {
    if !result.Dict? {
      var g := FormatGeneric(result);
      return Some(g);
    }
    var code := GetOr(result, "refactored_code", Str(""));
    var improvements := GetOr(result, "improvements", List([]));
    var summary := "**Code Refactored**\n\n";
    if Truthy(improvements) {
      var items := Iterated(improvements);
      if items.None? {
        return None;
      }
      var part := "**Improvements Made:**\n";
      part := AppendImprovements(part, Take(items.value, 5));
      if |items.value| > 5 {
        part := part + ("  ... and " + IntToString(|items.value| - 5) + " more\n\n");
      } else {
        assert part + "" == part;
      }
      assert part == ImprovementsPart(improvements).value;
      summary := summary + part;
    } else {
      assert summary + ImprovementsPart(improvements).value == summary;
    }
    if Truthy(code) {
      if !code.Str? {
        return None;
      }
      summary := summary + RefactoredCodePart(code.s);
    } else {
      assert summary + CodePart(code).value == summary;
    }
    return Some(summary);
  }

  /** A plan summary raises only on a plan that is neither empty nor a
      string; it lists at most 15 steps, and a plan of more than 15 lines
      ends by counting the lines beyond. */
  lemma PlanReport(es: seq<(string, Value)>)
    ensures var plan := GetOr(Dict(es), "refactoring_plan", Str(""));
      PlanSummary(Dict(es)).None? <==> Truthy(plan) && !plan.Str?
    ensures PlanSummary(Dict(es)).Some? ==> StartsWith(PlanSummary(Dict(es)).value, "**Refactoring Plan Generated**\n\n")
    ensures var plan := GetOr(Dict(es), "refactoring_plan", Str(""));
      plan.Str? && plan.s != "" ==>
        var lines := Split(plan.s, '\n');
        |PlanSteps(Take(lines, 15))| <= 15 &&
        (|lines| > 15 ==> EndsWith(PlanSummary(Dict(es)).value, "  ... and " + IntToString(|lines| - 15) + " more steps\n"))
  {
    var plan := GetOr(Dict(es), "refactoring_plan", Str(""));
    var head := PlanHead(GetOr(Dict(es), "observations", Str("")));
    var top := "**Refactoring Plan Generated**\n\n";
    assert StartsWith(head, top);
    if plan.Str? && plan.s != "" {
      var lines := Split(plan.s, '\n');
      PlanStepsSpec(Take(lines, 15), "");
      var body := head + "**Plan Steps:**\n" + Bullets(PlanSteps(Take(lines, 15)));
      assert PlanSummary(Dict(es)).value == body + MoreSteps(lines);
      EndsWithAppend(body, MoreSteps(lines));
      AppendAssoc(head, "**Plan Steps:**\n" + Bullets(PlanSteps(Take(lines, 15))), MoreSteps(lines));
    }
  }

  /** A refactoring summary opens with its header; more than five
      improvements are counted after the five shown, and code adds its line
      count. */
  lemma RefactorReport(es: seq<(string, Value)>)
    ensures RefactorSummary(Dict(es)).Some? ==> StartsWith(RefactorSummary(Dict(es)).value, "**Code Refactored**\n\n")
    ensures var imp := GetOr(Dict(es), "improvements", List([]));
      RefactorSummary(Dict(es)).Some? && Truthy(imp) && Iterated(imp).Some? && |Iterated(imp).value| > 5 ==>
        Contains(RefactorSummary(Dict(es)).value, "  ... and " + IntToString(|Iterated(imp).value| - 5) + " more\n\n")
    ensures var code := GetOr(Dict(es), "refactored_code", Str(""));
      RefactorSummary(Dict(es)).Some? && code.Str? && code.s != "" ==>
        Contains(RefactorSummary(Dict(es)).value, "**Refactored Code (" + IntToString(|Split(code.s, '\n')|) + " lines):**")
  {
    var imp := GetOr(Dict(es), "improvements", List([]));
    var code := GetOr(Dict(es), "refactored_code", Str(""));
    if RefactorSummary(Dict(es)).Some? {
      var ip := ImprovementsPart(imp).value;
      var cp := CodePart(code).value;
      assert RefactorSummary(Dict(es)).value == "**Code Refactored**\n\n" + ip + cp;
      AppendAssoc("**Code Refactored**\n\n", ip, cp);
      if Truthy(imp) && |Iterated(imp).value| > 5 {
        var items := Iterated(imp).value;
        assert ip == "**Improvements Made:**\n" + ItemBullets(Take(items, 5)) + MoreImprovements(|items|);
        TailIn("**Improvements Made:**\n" + ItemBullets(Take(items, 5)), MoreImprovements(|items|));
        InMiddle("**Code Refactored**\n\n", ip, cp, MoreImprovements(|items|));
      }
      if code.Str? && code.s != "" {
        var lines := Split(code.s, '\n');
        var w := "**Refactored Code (" + IntToString(|lines|) + " lines):**";
        assert cp == w + ("\n\n" + CodeBlock(lines, 20));
        ContainsPrefix(cp, w);
        InLast("**Code Refactored**\n\n", ip, cp, w);
      }
    }
  }

  lemma TailIn(a: string, w: string)
    ensures Contains(a + w, w)
  {
    ContainsPrefix(w, w);
    ContainsConcatRight(a, w, w);
  }

  lemma InMiddle(a: string, b: string, c: string, w: string)
    requires Contains(b, w)
    ensures Contains(a + (b + c), w)
  {
    ContainsConcatLeft(b, c, w);
    ContainsConcatRight(a, b + c, w);
  }

  lemma InLast(a: string, b: string, c: string, w: string)
    requires Contains(c, w)
    ensures Contains(a + (b + c), w)
  {
    ContainsConcatRight(b, c, w);
    ContainsConcatRight(a, b + c, w);
  }

  /** `len([l for l in lines if "def test_" in l])` */
  function TestCount(lines: seq<string>): nat {
    |LinesWith(lines, "def test_")|
  }

  /** What `_format_generate_tests` returns: the coverage, the number of test
      functions and at most 25 lines of the tests. */
  function TestsSummary(result: Value): Option<string> {
    if !result.Dict? then Some(GenericSummary(result))
    else TestsText(GetOr(result, "coverage", Str("unknown")), GetOr(result, "tests", Str("")))
  }

  /** The summary for the `coverage` and `tests` fields. */
  function TestsText(coverage: Value, tests: Value): Option<string> {
    var head := CoverageHead(PyStr(coverage));
    if !Truthy(tests) then Some(head)
    else if !tests.Str? then None
    else
      var lines := Split(tests.s, '\n');
      Some(head + "**Test Cases:** " + IntToString(TestCount(lines)) + " tests" + "\n\n" + CodeBlock(lines, 25))
  }

  /** The heading of a generated-tests summary, with the coverage `p`. */
  function CoverageHead(p: string): string {
    "**Test Suite Generated**\n\n" + "**Coverage:** " + p + "\n\n"
  }

  /** The test count is the number of lines that define a test, at most the
      number of lines. */
  lemma TestCountSpec(tests: string, l: string)
    ensures TestCount(Split(tests, '\n')) <= |Split(tests, '\n')| == CountChar(tests, '\n') + 1
    ensures l in LinesWith(Split(tests, '\n'), "def test_") <==> l in Split(tests, '\n') && Contains(l, "def test_")
  {
    SplitCount(tests, '\n');
    LinesWithMember(Split(tests, '\n'), "def test_", l);
  }

  /** A test suite summary raises only on tests that are neither empty nor a
      string; it always opens with the coverage, and non-empty tests add the
      number of test functions. */
  lemma TestsReport(es: seq<(string, Value)>)
    ensures var tests := GetOr(Dict(es), "tests", Str(""));
      TestsSummary(Dict(es)).None? <==> Truthy(tests) && !tests.Str?
    ensures TestsSummary(Dict(es)).Some? ==>
      StartsWith(TestsSummary(Dict(es)).value, "**Test Suite Generated**\n\n" + "**Coverage:** " + PyStr(GetOr(Dict(es), "coverage", Str("unknown"))))
    ensures var tests := GetOr(Dict(es), "tests", Str(""));
      tests.Str? && tests.s != "" ==>
        Contains(TestsSummary(Dict(es)).value, "**Test Cases:** " + IntToString(TestCount(Split(tests.s, '\n'))) + " tests")
  {
    TestsTextReport(GetOr(Dict(es), "coverage", Str("unknown")), GetOr(Dict(es), "tests", Str("")));
  }

  lemma TestsTextReport(coverage: Value, tests: Value)
    ensures TestsText(coverage, tests).None? <==> Truthy(tests) && !tests.Str?
    ensures TestsText(coverage, tests).Some? ==>
      StartsWith(TestsText(coverage, tests).value, "**Test Suite Generated**\n\n" + "**Coverage:** " + PyStr(coverage))
    ensures tests.Str? && tests.s != "" ==>
      Contains(TestsText(coverage, tests).value, "**Test Cases:** " + IntToString(TestCount(Split(tests.s, '\n'))) + " tests")
  {
    var p := PyStr(coverage);
    var h := CoverageHead(p);
    PrefixPieces("**Test Suite Generated**\n\n", "**Coverage:** ", p, "\n\n");
    if Truthy(tests) && tests.Str? {
      var lines := Split(tests.s, '\n');
      SixPieces(h, "**Test Cases:** ", IntToString(TestCount(lines)), " tests", "\n\n", CodeBlock(lines, 25));
      PrefixTrans("**Test Suite Generated**\n\n" + "**Coverage:** " + p, h, TestsText(coverage, tests).value);
    }
  }

  /** The first three of four pieces are a prefix of their concatenation. */
  lemma PrefixPieces(a: string, b: string, c: string, d: string)
    ensures StartsWith(a + b + c + d, a + b + c)
  {
  }

  /** A text built of a head and five more pieces starts with the head and
      holds the first three of the pieces. */
  lemma SixPieces(h: string, a: string, b: string, c: string, d: string, e: string)
    ensures StartsWith(h + a + b + c + d + e, h)
    ensures Contains(h + a + b + c + d + e, a + b + c)
  {
    AppendAssoc(h, a, b);
    AppendAssoc(h, a + b, c);
    AppendAssoc(h, a + b + c, d);
    AppendAssoc(h, a + b + c + d, e);
    AppendAssoc(a + b + c, d, e);
    ContainsPrefix(a + b + c + (d + e), a + b + c);
    ContainsConcatRight(h, a + b + c + (d + e), a + b + c);
  }

  // ---------------------------------------------------------------------
  // `format_response`
  // ---------------------------------------------------------------------

  /** The tools whose summary the language model writes from the JSON. */
  predicate ModelWritten(toolName: string) {
    toolName == "scan_directory" || toolName == "analyze_impact" || toolName == "build_dependency_graph"
  }

  /** The formatter `getattr(self, f"_format_{tool_name}", self._format_generic)`
      picks, applied to the normalised result; `llmReply` is what the model
      answers whenever it is asked. */
  function SummaryFor(toolName: string, r: Value, root: string, llmReply: string): Option<string> {
    if toolName == "find_symbol" then FindSymbolSummary(r, root, llmReply)
    else if toolName == "grep_search" then GrepSummary(r, llmReply)
    else if toolName == "analyze_and_plan" then PlanSummary(r)
    else if toolName == "refactor_code" then RefactorSummary(r)
    else if toolName == "generate_tests" then TestsSummary(r)
    else if ModelWritten(toolName) then Some(if r.Dict? then llmReply else GenericSummary(r))
    else Some(GenericSummary(r))
  }

  /** What `format_response` produces. */
  datatype Response =
    | Raw(data: Value)                       // `json.dumps(data, indent=2)` alone
    | Summarised(summary: string, data: Value) // the summary, a banner, then `json.dumps(data, indent=2)`
    | Raised                                 // an exception reaches the caller

  /** The response for a formatter whose summaries are `enabled`, and whose
      model client is `ready` once initialisation has been tried. */
  function ResponseOf(enabled: bool, ready: bool, toolName: string, result: Value,
                      root: string, symbolName: string, llmReply: string): Response {
    if !enabled then Raw(result)
    else
      match Normalized(toolName, result, symbolName)
      case None => Raised
      case Some((r, data)) =>
        if !ready then Raw(data)
        else
          match SummaryFor(toolName, r, root, llmReply)
          case None => Raw(r)
          case Some(summary) => Summarised(summary, data)
  }

  /** The outcomes of `format_response`: raw input when summaries are off; an
      exception only from normalisation; a summary always comes with the
      normalised data, and a formatter that raises falls back to the
      normalised dictionary. */
  lemma ResponseCases(enabled: bool, ready: bool, toolName: string, result: Value,
                      root: string, symbolName: string, llmReply: string)
    ensures var resp := ResponseOf(enabled, ready, toolName, result, root, symbolName, llmReply);
      var n := Normalized(toolName, result, symbolName);
      (!enabled ==> resp == Raw(result)) &&
      (resp.Raised? <==> enabled && n.None?) &&
      (resp.Summarised? ==> enabled && ready && n.Some? && resp.data == n.value.1 &&
                            SummaryFor(toolName, n.value.0, root, llmReply) == Some(resp.summary)) &&
      (enabled && n.Some? && resp.Raw? ==>
        (!ready && resp.data == n.value.1) ||
        (ready && resp.data == n.value.0 && SummaryFor(toolName, n.value.0, root, llmReply).None?))
  {
  }

  /** For `find_symbol`, a list whose keys can be hashed never raises, and
      whatever data is printed is the de-duplicated list, with distinct keys. */
  lemma FindSymbolResponse(ready: bool, result: Value, root: string, symbolName: string, llmReply: string)
    requires result.List? && AllKeysHashable(result.items)
    ensures var resp := ResponseOf(true, ready, "find_symbol", result, root, symbolName, llmReply);
      var d := FirstOfEachKey(result.items);
      DistinctKeys(d) &&
      (resp == Raw(List(d)) || (resp.Summarised? && resp.data == List(d)) ||
       resp == Raw(Dict([("symbol", Str(SymbolOr(symbolName))), ("occurrences", List(d)), ("count", Int(|d|))])))
  {
    DedupKeepsFirst(result.items);
    FirstOfEachKeyDistinct(result.items);
  }

  /** A result that is not a list is wrapped as the `occurrences` of a
      `find_symbol`-shaped dictionary whatever the tool, so a plan given as a
      dictionary reaches `_format_analyze_and_plan` without its
      `refactoring_plan` and `observations` keys and is summarised by the
      header alone. */
  lemma DictResultsAreWrapped(es: seq<(string, Value)>, root: string, symbolName: string, llmReply: string)
    ensures ResponseOf(true, true, "analyze_and_plan", Dict(es), root, symbolName, llmReply)
      == Summarised("**Refactoring Plan Generated**\n\n", Dict(es))
  {
    var r := Dict([("symbol", Str(SymbolOr(symbolName))), ("occurrences", Dict(es)), ("count", Int(|es|))]);
    assert Normalized("analyze_and_plan", Dict(es), symbolName) == Some((r, Dict(es)));
    LookupAbsent(r.entries, "refactoring_plan");
    LookupAbsent(r.entries, "observations");
  }

  /** A dictionary given to `find_symbol` is wrapped as its occurrences,
      counted by its number of keys; over 50 keys the roll-up prompt cannot
      slice it, so the formatter raises and the wrapped dictionary is
      returned raw, while up to 50 keys are summarised. */
  lemma FindSymbolDictResponse(es: seq<(string, Value)>, root: string, symbolName: string, llmReply: string)
    ensures var r := Dict([("symbol", Str(SymbolOr(symbolName))), ("occurrences", Dict(es)), ("count", Int(|es|))]);
      var resp := ResponseOf(true, true, "find_symbol", Dict(es), root, symbolName, llmReply);
      (|es| > 50 ==> resp == Raw(r)) &&
      (|es| <= 50 ==> resp.Summarised? && resp.data == Dict(es))
  {
    var r := Dict([("symbol", Str(SymbolOr(symbolName))), ("occurrences", Dict(es)), ("count", Int(|es|))]);
    assert Normalized("find_symbol", Dict(es), symbolName) == Some((r, Dict(es)));
    var e := r.entries;
    assert Lookup(e[1..], "occurrences") == Some(Dict(es));
    assert e[1..][1..] == [("count", Int(|es|))];
    assert Lookup(e[1..][1..], "count") == Some(Int(|es|));
    assert Lookup(e, "occurrences") == Some(Dict(es));
    assert Lookup(e, "count") == Some(Int(|es|));
    FindSymbolUnlisted(r, root, llmReply);
  }

  lemma LookupAbsent(es: seq<(string, Value)>, k: string)
    requires forall j :: 0 <= j < |es| ==> es[j].0 != k
    ensures Lookup(es, k) == None
  {
    if es != [] {
      assert forall j :: 0 <= j < |es[1..]| ==> es[1..][j] == es[j + 1];
      LookupAbsent(es[1..], k);
    }
  }

  /** The formatter object, with the context `format_response` stores for
      the tool formatters. */
  class NaturalLanguageFormatter {
    var enableSummary: bool
    var initialized: bool
    var contextRootDirectory: string
    var contextSymbolName: string

    /** The client is only ever initialised while summaries are enabled. */
    ghost predicate Valid()
      reads this
    {
      initialized ==> enableSummary
    }

    /** `envFlag` is the `ENABLE_NL_FORMAT` environment variable, if set. */
    constructor(enableSummary: bool, envFlag: Option<string>)
      ensures Valid() && !initialized
      ensures this.enableSummary == (enableSummary && Lower(envFlag.GetOr("true")) == "true")
      ensures contextRootDirectory == "" && contextSymbolName == ""
    {
      this.enableSummary := enableSummary && Lower(envFlag.GetOr("true")) == "true";
      initialized := false;
      contextRootDirectory := "";
      contextSymbolName := "";
    }

    /** `_initialize`; `bedrockAvailable` says whether creating the client succeeds. */
    method Initialize(bedrockAvailable: bool)
      requires Valid()
      modifies this
      ensures Valid()
      ensures initialized == (old(initialized) || (old(enableSummary) && bedrockAvailable))
      ensures enableSummary == (old(enableSummary) && (old(initialized) || bedrockAvailable))
      ensures contextRootDirectory == old(contextRootDirectory) && contextSymbolName == old(contextSymbolName)
    {
      if !initialized && enableSummary {
        if bedrockAvailable {
          initialized := true;
        } else {
          enableSummary := false;
        }
      }
    }

    /** The formatter dispatch of `format_response`. */
    method Summarise(toolName: string, r: Value, llmReply: string) returns (summary: Option<string>)
      ensures summary == SummaryFor(toolName, r, contextRootDirectory, llmReply)
    {
      if toolName == "find_symbol" {
        summary := FormatFindSymbol(r, contextRootDirectory, llmReply);
      } else if toolName == "grep_search" {
        summary := GrepSummary(r, llmReply);
      } else if toolName == "analyze_and_plan" {
        summary := FormatAnalyzeAndPlan(r);
      } else if toolName == "refactor_code" {
        summary := FormatRefactorCode(r);
      } else if toolName == "generate_tests" {
        summary := TestsSummary(r);
      } else if ModelWritten(toolName) && r.Dict? {
        summary := Some(llmReply);
      } else {
        var g := FormatGeneric(r);
        summary := Some(g);
      }
    }

    /** `format_response`. `bedrockAvailable` says whether the client can be
        created, `llmReply` is the model's answer whenever it is asked. */
    method FormatResponse(toolName: string, result: Value, rootDirectory: string, symbolName: string,
                          bedrockAvailable: bool, llmReply: string) returns (response: Response)
      requires Valid()
      modifies this
      ensures Valid()
      ensures contextRootDirectory == rootDirectory && contextSymbolName == symbolName
      ensures response == ResponseOf(old(enableSummary), old(initialized) || bedrockAvailable,
                                     toolName, result, rootDirectory, symbolName, llmReply)
      ensures old(enableSummary) && Normalized(toolName, result, symbolName).Some? ==>
        initialized == (old(initialized) || bedrockAvailable) && enableSummary == initialized
      ensures !(old(enableSummary) && Normalized(toolName, result, symbolName).Some?) ==>
        initialized == old(initialized) && enableSummary == old(enableSummary)
    {
      contextRootDirectory := rootDirectory;
      contextSymbolName := symbolName;
      if !enableSummary {
        return Raw(result);
      }
      var original := result;
      var r: Value;
      if result.List? {
        if toolName == "find_symbol" {
          var deduped := Dedup(result.items);
          if deduped.None? {
            return Raised;
          }
          original := List(deduped.value);
          r := Dict([("symbol", Str(SymbolOr(symbolName))), ("occurrences", original), ("count", Int(|deduped.value|))]);
        } else {
          r := Dict([("items", result), ("count", Int(|result.items|))]);
        }
      } else {
        var n := Len(result);
        if n.None? {
          return Raised;
        }
        r := Dict([("symbol", Str(SymbolOr(symbolName))), ("occurrences", result), ("count", Int(n.value))]);
      }
      assert Normalized(toolName, result, symbolName) == Some((r, original));
      if !initialized {
        Initialize(bedrockAvailable);
      }
      if !initialized {
        return Raw(original);
      }
      var summary := Summarise(toolName, r, llmReply);
      if summary.None? {
        return Raw(r);
      }
      return Summarised(summary.value, original);
    }
  }
}
