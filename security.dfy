/** Input sanitisation and the Content Security Policy directives. The HTML purifier
    (DOMPurify) is the uninterpreted `Purifier`; the regular-expression engine behind
    the blocked patterns is the `Searcher` of `RegexTest`. The blocked pattern objects
    are shared by every request a middleware serves, so their `lastIndex` values are
    state threaded through every call. */
module Security {
  import opened Wrappers
  import opened Strings
  import opened Http
  import opened Json
  import opened RegexTest
  import opened OrderedMaps

  datatype SecurityConfig = SecurityConfig(
    maxStringLength: int,
    maxArrayLength: int,
    allowedHTMLTags: seq<string>,
    blockedPatterns: seq<Pattern>)

  /** The default blocked patterns: script tags, `javascript:` and `vbscript:` URLs,
      inline event handlers and HTML data URLs, every one with the `g` flag. */
  const BLOCKED_PATTERNS: seq<Pattern> := [
    Pattern("<script\\b[^<]*(?:(?!<\\/script>)<[^<]*)*<\\/script>", "gi"),
    Pattern("javascript:", "gi"),
    Pattern("on\\w+\\s*=", "gi"),
    Pattern("data:text\\/html", "gi"),
    Pattern("vbscript:", "gi")]

  /** The same patterns without the `g` flag, so that `test` does not depend on what
      earlier requests matched: the correction of the default set. */
  const STATELESS_PATTERNS: seq<Pattern> := [
    Pattern("<script\\b[^<]*(?:(?!<\\/script>)<[^<]*)*<\\/script>", "i"),
    Pattern("javascript:", "i"),
    Pattern("on\\w+\\s*=", "i"),
    Pattern("data:text\\/html", "i"),
    Pattern("vbscript:", "i")]

  const ALLOWED_TAGS: seq<string> := ["b", "i", "em", "strong", "p", "br", "ul", "ol", "li"]

  /** `defaultConfig`, with the shared `g` patterns. */
  const DEFAULT_CONFIG := SecurityConfig(10000, 100, ALLOWED_TAGS, BLOCKED_PATTERNS)
  /** The same limits with the patterns corrected. */
  const CORRECTED_CONFIG := SecurityConfig(10000, 100, ALLOWED_TAGS, STATELESS_PATTERNS)

  /** `purify.sanitize(input, { ALLOWED_TAGS: tags, ALLOWED_ATTR: [], KEEP_CONTENT: true })`. */
  type Purifier = (string, seq<string>) -> string

  /** Patterns whose `test` keeps no state between calls. */
  predicate Stateless(patterns: seq<Pattern>) {
    forall p :: 0 <= p < |patterns| ==> !patterns[p].Global()
  }

  /** The corrected patterns keep no state; the default ones do. */
  lemma CorrectedPatternsStateless()
    ensures Stateless(CORRECTED_CONFIG.blockedPatterns)
    ensures !Stateless(DEFAULT_CONFIG.blockedPatterns)
  {
    assert 'g' !in "i";
    assert BLOCKED_PATTERNS[0].Global();
  }

  // ---------------------------------------------------------------------------
  // sanitizeString

  /** The outcome of a call that may throw, with every blocked pattern's `lastIndex`
      afterwards. */
  datatype Sanitized<T> = Sanitized(result: Result<T, string>, lastIndex: seq<nat>)

  function LengthMessage(max: int): string {
    "String length exceeds maximum of " + IntToString(max) + " characters"
  }

  function ArrayMessage(max: int): string {
    "Array length exceeds maximum of " + IntToString(max) + " items"
  }

  const DANGEROUS := "Input contains potentially dangerous content"

  datatype Screened = Screened(blocked: bool, lastIndex: seq<nat>)

  /** The first `n` patterns tested in order against `input`, stopping at the first
      that matches. */
  function Screen(search: Searcher, patterns: seq<Pattern>, lastIndex: seq<nat>, input: string, n: nat): (r: Screened)
    requires |lastIndex| == |patterns| && n <= |patterns|
    ensures |r.lastIndex| == |patterns|
  {
    if n == 0 then Screened(false, lastIndex)
    else
      var prev := Screen(search, patterns, lastIndex, input, n - 1);
      if prev.blocked then prev
      else
        var t := Test(search, n - 1, patterns[n - 1], prev.lastIndex[n - 1], input);
        Screened(t.matched, prev.lastIndex[n - 1 := t.lastIndex])
  }

  /** Once a pattern has matched, the later patterns are not tested. */
  lemma {:induction false} ScreenStaysBlocked(search: Searcher, patterns: seq<Pattern>, lastIndex: seq<nat>, input: string, n: nat, m: nat)
    requires |lastIndex| == |patterns| && n <= m <= |patterns|
    requires Screen(search, patterns, lastIndex, input, n).blocked
    ensures Screen(search, patterns, lastIndex, input, m) == Screen(search, patterns, lastIndex, input, n)
    decreases m
  {
    if m > n {
      ScreenStaysBlocked(search, patterns, lastIndex, input, n, m - 1);
    }
  }

  /** Stateless patterns block exactly when one of them matches from the start, and
      leave every `lastIndex` as it was. */
  lemma {:induction false} ScreenStateless(search: Searcher, patterns: seq<Pattern>, lastIndex: seq<nat>, input: string, n: nat)
    requires |lastIndex| == |patterns| && n <= |patterns| && Stateless(patterns)
    ensures Screen(search, patterns, lastIndex, input, n).lastIndex == lastIndex
    ensures Screen(search, patterns, lastIndex, input, n).blocked
        <==> exists p :: 0 <= p < n && search(p, input, 0).Some?
  {
    if n > 0 {
      ScreenStateless(search, patterns, lastIndex, input, n - 1);
    }
  }

  /** `sanitizeString`: "" for a non-string, an error beyond the length limit or when a
      blocked pattern matches, otherwise the purifier's output. */
  function SanitizedString(search: Searcher, purify: Purifier, config: SecurityConfig, lastIndex: seq<nat>, input: Value): (r: Sanitized<string>)
    requires |lastIndex| == |config.blockedPatterns|
    ensures |r.lastIndex| == |lastIndex|
  {
    if !input.Str? then Sanitized(Ok(""), lastIndex)
    else if |Utf16(input.s)| > config.maxStringLength then Sanitized(Err(LengthMessage(config.maxStringLength)), lastIndex)
    else
      var screened := Screen(search, config.blockedPatterns, lastIndex, input.s, |config.blockedPatterns|);
      if screened.blocked then Sanitized(Err(DANGEROUS), screened.lastIndex)
      else Sanitized(Ok(purify(input.s, config.allowedHTMLTags)), screened.lastIndex)
  }

  /** `sanitizeString` as the loop over the blocked patterns. */
  method SanitizeString(search: Searcher, purify: Purifier, config: SecurityConfig, lastIndex0: seq<nat>, input: Value)
    returns (r: Sanitized<string>)
    requires |lastIndex0| == |config.blockedPatterns|
    ensures r == SanitizedString(search, purify, config, lastIndex0, input)
  {
    if !input.Str? {
      return Sanitized(Ok(""), lastIndex0);
    }
    if |Utf16(input.s)| > config.maxStringLength {
      return Sanitized(Err(LengthMessage(config.maxStringLength)), lastIndex0);
    }
    var patterns := config.blockedPatterns;
    var lastIndex: seq<nat> := lastIndex0;
    var i := 0;
    while i < |patterns|
      invariant 0 <= i <= |patterns|
      invariant Screen(search, patterns, lastIndex0, input.s, i) == Screened(false, lastIndex)
    {
      var t := Test(search, i, patterns[i], lastIndex[i], input.s);
      lastIndex := lastIndex[i := t.lastIndex];
      if t.matched {
        ScreenStaysBlocked(search, patterns, lastIndex0, input.s, i + 1, |patterns|);
        return Sanitized(Err(DANGEROUS), lastIndex);
      }
      i := i + 1;
    }
    return Sanitized(Ok(purify(input.s, config.allowedHTMLTags)), lastIndex);
  }

  /** With stateless patterns a string that a blocked pattern matches is refused
      whatever earlier requests did; one within the limit that none matches is purified. */
  lemma SanitizedStringStateless(search: Searcher, purify: Purifier, config: SecurityConfig, lastIndex: seq<nat>, s: string)
    requires |lastIndex| == |config.blockedPatterns| && Stateless(config.blockedPatterns)
    ensures SanitizedString(search, purify, config, lastIndex, Str(s)).lastIndex == lastIndex
    ensures SanitizedString(search, purify, config, lastIndex, Str(s)).result.Ok? <==> AcceptableString(search, config, s)
    ensures AcceptableString(search, config, s) ==>
      SanitizedString(search, purify, config, lastIndex, Str(s)).result == Ok(purify(s, config.allowedHTMLTags))
  {
    ScreenStateless(search, config.blockedPatterns, lastIndex, s, |config.blockedPatterns|);
  }

  /** The default blocked patterns carry `g`, and the pattern objects are shared by
      all requests: a string refused because `javascript:` matched moves that
      pattern's `lastIndex` to the end of the match, so the same string sent again is
      searched from there, not found, and passes to the purifier. */
  lemma AsWrittenRepeatPasses(search: Searcher, purify: Purifier, s: string, e: nat)
    requires |Utf16(s)| <= 10000
    requires search(1, s, 0) == Some(e) && search(1, s, e) == None
    requires search(0, s, 0) == None && search(2, s, 0) == None
    requires search(3, s, 0) == None && search(4, s, 0) == None
    ensures
      var first := SanitizedString(search, purify, DEFAULT_CONFIG, [0, 0, 0, 0, 0], Str(s));
      && first.result == Err(DANGEROUS)
      && first.lastIndex == [0, e, 0, 0, 0]
      && SanitizedString(search, purify, DEFAULT_CONFIG, first.lastIndex, Str(s)) == Sanitized(Ok(purify(s, ALLOWED_TAGS)), [0, 0, 0, 0, 0])
  {
    var patterns := BLOCKED_PATTERNS;
    assert 'g' in "gi";
    assert Screen(search, patterns, [0, 0, 0, 0, 0], s, 1) == Screened(false, [0, 0, 0, 0, 0]);
    assert Screen(search, patterns, [0, 0, 0, 0, 0], s, 2) == Screened(true, [0, e, 0, 0, 0]);
    ScreenStaysBlocked(search, patterns, [0, 0, 0, 0, 0], s, 2, 5);
    var again: seq<nat> := [0, e, 0, 0, 0];
    assert Screen(search, patterns, again, s, 1) == Screened(false, again);
    assert Screen(search, patterns, again, s, 2) == Screened(false, [0, 0, 0, 0, 0]);
    assert Screen(search, patterns, again, s, 3) == Screened(false, [0, 0, 0, 0, 0]);
    assert Screen(search, patterns, again, s, 4) == Screened(false, [0, 0, 0, 0, 0]);
    assert Screen(search, patterns, again, s, 5) == Screened(false, [0, 0, 0, 0, 0]);
  }

  /** With the corrected patterns a string any pattern matches is refused on every
      request, whatever the patterns' state. */
  lemma DangerousAlwaysRefused(search: Searcher, purify: Purifier, lastIndex: seq<nat>, s: string, p: nat)
    requires |lastIndex| == |STATELESS_PATTERNS|
    requires p < |STATELESS_PATTERNS| && search(p, s, 0).Some?
    ensures SanitizedString(search, purify, CORRECTED_CONFIG, lastIndex, Str(s)).result.Err?
    ensures SanitizedString(search, purify, CORRECTED_CONFIG, lastIndex, Str(s)).lastIndex == lastIndex
  {
    CorrectedPatternsStateless();
    SanitizedStringStateless(search, purify, CORRECTED_CONFIG, lastIndex, s);
  }

  // ---------------------------------------------------------------------------
  // sanitizeObject

  function ToValue(r: Sanitized<string>): Sanitized<Value> {
    Sanitized(if r.result.Ok? then Ok(Str(r.result.value)) else Err(r.result.error), r.lastIndex)
  }

  /** `sanitized[key] = value` on a fresh object: a new key is appended, a key already
      assigned keeps its place and takes the new value. */
  function Assign(fields: seq<(string, Value)>, key: string, value: Value): seq<(string, Value)> {
    if fields == [] then [(key, value)]
    else if fields[0].0 == key then [(key, value)] + fields[1..]
    else [fields[0]] + Assign(fields[1..], key, value)
  }

  /** `sanitizeObject`: null, undefined and non-string primitives are returned as they
      are; strings are sanitised; arrays beyond the limit are refused and otherwise
      mapped in order; objects have every key and value sanitised in entry order. The
      first error stops the walk. */
  function SanitizeObject(search: Searcher, purify: Purifier, config: SecurityConfig, lastIndex: seq<nat>, v: Value): (r: Sanitized<Value>)
    requires |lastIndex| == |config.blockedPatterns|
    ensures |r.lastIndex| == |lastIndex|
    decreases v, 1
  {
    match v
    case Str(_) => ToValue(SanitizedString(search, purify, config, lastIndex, v))
    case Arr(items) =>
      if |items| > config.maxArrayLength then Sanitized(Err(ArrayMessage(config.maxArrayLength)), lastIndex)
      else
        var m := SanitizeItems(search, purify, config, lastIndex, items);
        Sanitized(if m.result.Ok? then Ok(Arr(m.result.value)) else Err(m.result.error), m.lastIndex)
    case Obj(fields) =>
      var m := SanitizeFields(search, purify, config, lastIndex, fields, 0, []);
      Sanitized(if m.result.Ok? then Ok(Obj(m.result.value)) else Err(m.result.error), m.lastIndex)
    case _ => Sanitized(Ok(v), lastIndex)
  }

  function SanitizeItems(search: Searcher, purify: Purifier, config: SecurityConfig, lastIndex: seq<nat>, items: seq<Value>): (r: Sanitized<seq<Value>>)
    requires |lastIndex| == |config.blockedPatterns|
    ensures |r.lastIndex| == |lastIndex|
    ensures r.result.Ok? ==> |r.result.value| == |items|
    decreases items
  {
    if items == [] then Sanitized(Ok([]), lastIndex)
    else
      var head := SanitizeObject(search, purify, config, lastIndex, items[0]);
      if head.result.Err? then Sanitized(Err(head.result.error), head.lastIndex)
      else
        var rest := SanitizeItems(search, purify, config, head.lastIndex, items[1..]);
        if rest.result.Err? then rest
        else Sanitized(Ok([head.result.value] + rest.result.value), rest.lastIndex)
  }

  function SanitizeFields(search: Searcher, purify: Purifier, config: SecurityConfig, lastIndex: seq<nat>,
                          fields: seq<(string, Value)>, i: nat, acc: seq<(string, Value)>): (r: Sanitized<seq<(string, Value)>>)
    requires |lastIndex| == |config.blockedPatterns| && i <= |fields|
    ensures |r.lastIndex| == |lastIndex|
    decreases Obj(fields), 0, |fields| - i
  {
    if i == |fields| then Sanitized(Ok(acc), lastIndex)
    else
      var key := SanitizedString(search, purify, config, lastIndex, Str(fields[i].0));
      if key.result.Err? then Sanitized(Err(key.result.error), key.lastIndex)
      else
        var value := SanitizeObject(search, purify, config, key.lastIndex, fields[i].1);
        if value.result.Err? then Sanitized(Err(value.result.error), value.lastIndex)
        else SanitizeFields(search, purify, config, value.lastIndex, fields, i + 1, Assign(acc, key.result.value, value.result.value))
  }

  // The reference definitions: what an accepted input must satisfy, and what it becomes.

  predicate AcceptableString(search: Searcher, config: SecurityConfig, s: string) {
    && |Utf16(s)| <= config.maxStringLength
    && forall p :: 0 <= p < |config.blockedPatterns| ==> search(p, s, 0).None?
  }

  /** Every string and key within the length limit and free of blocked patterns, and
      every array within the length limit. */
  predicate Acceptable(search: Searcher, config: SecurityConfig, v: Value)
    decreases v, 1
  {
    match v
    case Str(s) => AcceptableString(search, config, s)
    case Arr(items) => |items| <= config.maxArrayLength && AcceptableItems(search, config, items)
    case Obj(fields) => AcceptableFields(search, config, fields, 0)
    case _ => true
  }

  predicate AcceptableItems(search: Searcher, config: SecurityConfig, items: seq<Value>)
    decreases items
  {
    items != [] ==> Acceptable(search, config, items[0]) && AcceptableItems(search, config, items[1..])
  }

  predicate AcceptableFields(search: Searcher, config: SecurityConfig, fields: seq<(string, Value)>, i: nat)
    requires i <= |fields|
    decreases Obj(fields), 0, |fields| - i
  {
    i < |fields| ==>
      && AcceptableString(search, config, fields[i].0)
      && Acceptable(search, config, fields[i].1)
      && AcceptableFields(search, config, fields, i + 1)
  }

  /** The value with every string and key passed through the purifier. */
  function Purified(purify: Purifier, tags: seq<string>, v: Value): Value
    decreases v, 1
  {
    match v
    case Str(s) => Str(purify(s, tags))
    case Arr(items) => Arr(PurifiedItems(purify, tags, items))
    case Obj(fields) => Obj(PurifiedFields(purify, tags, fields, 0, []))
    case _ => v
  }

  function PurifiedItems(purify: Purifier, tags: seq<string>, items: seq<Value>): seq<Value>
    decreases items
  {
    if items == [] then [] else [Purified(purify, tags, items[0])] + PurifiedItems(purify, tags, items[1..])
  }

  function PurifiedFields(purify: Purifier, tags: seq<string>, fields: seq<(string, Value)>, i: nat, acc: seq<(string, Value)>): seq<(string, Value)>
    requires i <= |fields|
    decreases Obj(fields), 0, |fields| - i
  {
    if i == |fields| then acc
    else PurifiedFields(purify, tags, fields, i + 1, Assign(acc, purify(fields[i].0, tags), Purified(purify, tags, fields[i].1)))
  }

  /** With stateless patterns `sanitizeObject` accepts exactly the acceptable values,
      returns them purified, and leaves the patterns' state alone. */
  lemma {:induction false} SanitizeObjectIff(search: Searcher, purify: Purifier, config: SecurityConfig, lastIndex: seq<nat>, v: Value)
    requires |lastIndex| == |config.blockedPatterns| && Stateless(config.blockedPatterns)
    ensures SanitizeObject(search, purify, config, lastIndex, v).lastIndex == lastIndex
    ensures SanitizeObject(search, purify, config, lastIndex, v).result.Ok? <==> Acceptable(search, config, v)
    ensures SanitizeObject(search, purify, config, lastIndex, v).result.Ok? ==>
      SanitizeObject(search, purify, config, lastIndex, v).result.value == Purified(purify, config.allowedHTMLTags, v)
    decreases v, 1
  {
    match v
    case Str(s) => SanitizedStringStateless(search, purify, config, lastIndex, s);
    case Arr(items) => if |items| <= config.maxArrayLength { SanitizeItemsIff(search, purify, config, lastIndex, items); }
    case Obj(fields) => SanitizeFieldsIff(search, purify, config, lastIndex, fields, 0, []);
    case _ =>
  }

  lemma {:induction false} SanitizeItemsIff(search: Searcher, purify: Purifier, config: SecurityConfig, lastIndex: seq<nat>, items: seq<Value>)
    requires |lastIndex| == |config.blockedPatterns| && Stateless(config.blockedPatterns)
    ensures SanitizeItems(search, purify, config, lastIndex, items).lastIndex == lastIndex
    ensures SanitizeItems(search, purify, config, lastIndex, items).result.Ok? <==> AcceptableItems(search, config, items)
    ensures SanitizeItems(search, purify, config, lastIndex, items).result.Ok? ==>
      SanitizeItems(search, purify, config, lastIndex, items).result.value == PurifiedItems(purify, config.allowedHTMLTags, items)
    decreases items
  {
    if items != [] {
      SanitizeObjectIff(search, purify, config, lastIndex, items[0]);
      SanitizeItemsIff(search, purify, config, lastIndex, items[1..]);
    }
  }

  lemma {:induction false} SanitizeFieldsIff(search: Searcher, purify: Purifier, config: SecurityConfig, lastIndex: seq<nat>,
                                             fields: seq<(string, Value)>, i: nat, acc: seq<(string, Value)>)
    requires |lastIndex| == |config.blockedPatterns| && Stateless(config.blockedPatterns) && i <= |fields|
    ensures SanitizeFields(search, purify, config, lastIndex, fields, i, acc).lastIndex == lastIndex
    ensures SanitizeFields(search, purify, config, lastIndex, fields, i, acc).result.Ok? <==> AcceptableFields(search, config, fields, i)
    ensures SanitizeFields(search, purify, config, lastIndex, fields, i, acc).result.Ok? ==>
      SanitizeFields(search, purify, config, lastIndex, fields, i, acc).result.value
        == PurifiedFields(purify, config.allowedHTMLTags, fields, i, acc)
    decreases Obj(fields), 0, |fields| - i
  {
    if i < |fields| {
      var tags := config.allowedHTMLTags;
      SanitizedStringStateless(search, purify, config, lastIndex, fields[i].0);
      SanitizeObjectIff(search, purify, config, lastIndex, fields[i].1);
      if AcceptableString(search, config, fields[i].0) && Acceptable(search, config, fields[i].1) {
        SanitizeFieldsIff(search, purify, config, lastIndex, fields, i + 1,
          Assign(acc, purify(fields[i].0, tags), Purified(purify, tags, fields[i].1)));
      }
    }
  }

  /** An accepted array keeps its length; null, undefined and other primitives come
      back unchanged. */
  lemma SanitizeObjectShape(search: Searcher, purify: Purifier, config: SecurityConfig, lastIndex: seq<nat>, v: Value)
    requires |lastIndex| == |config.blockedPatterns|
    ensures (v.Null? || v.Undefined? || v.Bool? || v.Num? || v.Other?) ==>
      SanitizeObject(search, purify, config, lastIndex, v) == Sanitized(Ok(v), lastIndex)
    ensures v.Arr? && |v.items| > config.maxArrayLength ==>
      SanitizeObject(search, purify, config, lastIndex, v) == Sanitized(Err(ArrayMessage(config.maxArrayLength)), lastIndex)
    ensures v.Arr? && SanitizeObject(search, purify, config, lastIndex, v).result.Ok? ==>
      SanitizeObject(search, purify, config, lastIndex, v).result.value.Arr?
      && |SanitizeObject(search, purify, config, lastIndex, v).result.value.items| == |v.items|
  {
  }

  // ---------------------------------------------------------------------------
  // sanitizeInput

  datatype PartialConfig = PartialConfig(
    maxStringLength: Option<int>,
    maxArrayLength: Option<int>,
    allowedHTMLTags: Option<seq<string>>,
    blockedPatterns: Option<seq<Pattern>>)

  /** `{ ...defaultConfig, ...config }`. */
  function FullConfig(config: PartialConfig): SecurityConfig {
    SecurityConfig(
      config.maxStringLength.GetOr(DEFAULT_CONFIG.maxStringLength),
      config.maxArrayLength.GetOr(DEFAULT_CONFIG.maxArrayLength),
      config.allowedHTMLTags.GetOr(DEFAULT_CONFIG.allowedHTMLTags),
      config.blockedPatterns.GetOr(DEFAULT_CONFIG.blockedPatterns))
  }

  /** The three parts of a request the middleware rewrites. */
  datatype RequestInput = RequestInput(body: Value, query: Value, params: Value)

  /** The middleware's decision, the request parts afterwards, and the patterns' state. */
  datatype Screening = Screening(reply: Reply, message: string, input: RequestInput, lastIndex: seq<nat>)

  /** `if (part) part = sanitizeObject(part, config)`. */
  function SanitizePart(search: Searcher, purify: Purifier, config: SecurityConfig, lastIndex: seq<nat>, v: Value): (r: Sanitized<Value>)
    requires |lastIndex| == |config.blockedPatterns|
    ensures |r.lastIndex| == |lastIndex|
  {
    if v.Truthy() then SanitizeObject(search, purify, config, lastIndex, v) else Sanitized(Ok(v), lastIndex)
  }

  /** The middleware `sanitizeInput(config)` applied to one request: body, query and
      params in that order; the first error answers 400 INVALID_INPUT with its message
      and `next` is not called. */
  function SanitizeInput(search: Searcher, purify: Purifier, config: PartialConfig, lastIndex: seq<nat>, req: RequestInput): (r: Screening)
    requires |lastIndex| == |FullConfig(config).blockedPatterns|
    ensures r.reply == Next || r.reply == Respond(400, "INVALID_INPUT")
  {
    var full := FullConfig(config);
    var body := SanitizePart(search, purify, full, lastIndex, req.body);
    if body.result.Err? then Screening(Respond(400, "INVALID_INPUT"), body.result.error, req, body.lastIndex)
    else
      var req1 := req.(body := body.result.value);
      var query := SanitizePart(search, purify, full, body.lastIndex, req.query);
      if query.result.Err? then Screening(Respond(400, "INVALID_INPUT"), query.result.error, req1, query.lastIndex)
      else
        var req2 := req1.(query := query.result.value);
        var params := SanitizePart(search, purify, full, query.lastIndex, req.params);
        if params.result.Err? then Screening(Respond(400, "INVALID_INPUT"), params.result.error, req2, params.lastIndex)
        else Screening(Next, "", req2.(params := params.result.value), params.lastIndex)
  }

  predicate AcceptablePart(search: Searcher, config: SecurityConfig, v: Value) {
    v.Truthy() ==> Acceptable(search, config, v)
  }

  function PurifiedPart(purify: Purifier, tags: seq<string>, v: Value): Value {
    if v.Truthy() then Purified(purify, tags, v) else v
  }

  /** With stateless patterns one part passes exactly when it is absent or
      acceptable, comes back purified, and leaves the patterns' state alone. */
  lemma SanitizePartIff(search: Searcher, purify: Purifier, config: SecurityConfig, lastIndex: seq<nat>, v: Value)
    requires |lastIndex| == |config.blockedPatterns| && Stateless(config.blockedPatterns)
    ensures SanitizePart(search, purify, config, lastIndex, v).lastIndex == lastIndex
    ensures SanitizePart(search, purify, config, lastIndex, v).result.Ok? <==> AcceptablePart(search, config, v)
    ensures SanitizePart(search, purify, config, lastIndex, v).result.Ok? ==>
      SanitizePart(search, purify, config, lastIndex, v).result.value == PurifiedPart(purify, config.allowedHTMLTags, v)
  {
    if v.Truthy() {
      SanitizeObjectIff(search, purify, config, lastIndex, v);
    }
  }

  /** With stateless patterns, such as the corrected ones, a request passes exactly
      when every present part is acceptable under the merged limits, and then every
      part is purified. */
  lemma SanitizeInputIff(search: Searcher, purify: Purifier, config: PartialConfig, lastIndex: seq<nat>, req: RequestInput)
    requires Stateless(FullConfig(config).blockedPatterns) && |lastIndex| == |FullConfig(config).blockedPatterns|
    ensures var full := FullConfig(config);
      var r := SanitizeInput(search, purify, config, lastIndex, req);
      && (config.maxStringLength.None? ==> full.maxStringLength == 10000)
      && (config.maxArrayLength.None? ==> full.maxArrayLength == 100)
      && r.lastIndex == lastIndex
      && (r.reply == Next <==>
            AcceptablePart(search, full, req.body) && AcceptablePart(search, full, req.query)
            && AcceptablePart(search, full, req.params))
      && (r.reply == Next ==>
            r.input == RequestInput(PurifiedPart(purify, full.allowedHTMLTags, req.body),
                                    PurifiedPart(purify, full.allowedHTMLTags, req.query),
                                    PurifiedPart(purify, full.allowedHTMLTags, req.params)))
  {
    var full := FullConfig(config);
    SanitizePartIff(search, purify, full, lastIndex, req.body);
    SanitizePartIff(search, purify, full, lastIndex, req.query);
    SanitizePartIff(search, purify, full, lastIndex, req.params);
  }

  /** The middleware as the server mounts it, with no options and so the default `g`
      patterns: a JSON array body holding a `javascript:` string is refused, and the
      same request sent again passes with the string purified. */
  lemma DefaultInputRepeatPasses(search: Searcher, purify: Purifier, s: string, e: nat)
    requires |Utf16(s)| <= 10000
    requires search(1, s, 0) == Some(e) && search(1, s, e) == None
    requires search(0, s, 0) == None && search(2, s, 0) == None
    requires search(3, s, 0) == None && search(4, s, 0) == None
    ensures
      var config := PartialConfig(None, None, None, None);
      var req := RequestInput(Arr([Str(s)]), Obj([]), Obj([]));
      var first := SanitizeInput(search, purify, config, [0, 0, 0, 0, 0], req);
      var second := SanitizeInput(search, purify, config, first.lastIndex, req);
      && first.reply == Respond(400, "INVALID_INPUT") && first.message == DANGEROUS
      && second.reply == Next
      && second.input == RequestInput(Arr([Str(purify(s, ALLOWED_TAGS))]), Obj([]), Obj([]))
  {
    AsWrittenRepeatPasses(search, purify, s, e);
    var config := PartialConfig(None, None, None, None);
    assert FullConfig(config) == DEFAULT_CONFIG;
    var zero: seq<nat> := [0, 0, 0, 0, 0];
    var again: seq<nat> := [0, e, 0, 0, 0];
    var items := [Str(s)];
    assert items[1..] == [];
    assert SanitizeObject(search, purify, DEFAULT_CONFIG, zero, Str(s)) == Sanitized(Err(DANGEROUS), again);
    assert SanitizeObject(search, purify, DEFAULT_CONFIG, again, Str(s)) == Sanitized(Ok(Str(purify(s, ALLOWED_TAGS))), zero);
    assert SanitizeItems(search, purify, DEFAULT_CONFIG, zero, items) == Sanitized(Err(DANGEROUS), again);
    assert SanitizeItems(search, purify, DEFAULT_CONFIG, zero, items[1..]) == Sanitized(Ok([]), zero);
    assert [Str(purify(s, ALLOWED_TAGS))] + [] == [Str(purify(s, ALLOWED_TAGS))];
    assert SanitizeItems(search, purify, DEFAULT_CONFIG, again, items) == Sanitized(Ok([Str(purify(s, ALLOWED_TAGS))]), zero);
  }

  // ---------------------------------------------------------------------------
  // getCSPDirectives

  /** The directive names the policy object uses as keys. */
  datatype Directive =
    | DefaultSrc | StyleSrc | FontSrc | ImgSrc | ConnectSrc | FrameSrc | ObjectSrc
    | MediaSrc | WorkerSrc | ChildSrc | FormAction | UpgradeInsecureRequests | ScriptSrc

  type Directives = OrderedMap<Directive, seq<string>>

  const SELF := "'self'"
  const NONE := "'none'"
  const UNSAFE_EVAL := "'unsafe-eval'"

  const BASE_ORDER: seq<Directive> := [
    DefaultSrc, StyleSrc, FontSrc, ImgSrc, ConnectSrc, FrameSrc, ObjectSrc,
    MediaSrc, WorkerSrc, ChildSrc, FormAction, UpgradeInsecureRequests]

  /** The sources each directive starts with in every environment. */
  function BaseSources(k: Directive): (r: seq<string>)
    ensures UNSAFE_EVAL !in r
  {
    match k
    case DefaultSrc => [SELF]
    case StyleSrc => [SELF, "'unsafe-inline'", "https://fonts.googleapis.com"]
    case FontSrc => [SELF, "https://fonts.gstatic.com"]
    case ImgSrc => [SELF, "data:", "https:", "blob:"]
    case ConnectSrc => [SELF]
    case FrameSrc => [NONE]
    case ObjectSrc => [NONE]
    case MediaSrc => [SELF]
    case WorkerSrc => [SELF]
    case ChildSrc => [NONE]
    case FormAction => [SELF]
    case UpgradeInsecureRequests => []
    case ScriptSrc => []
  }

  /** The directives every environment starts from, in the order the source lists them. */
  function BaseDirectives(): (d: Directives)
    ensures d.Valid()
    ensures d.keys == BASE_ORDER
    ensures forall k | k in d.entries :: d.entries[k] == BaseSources(k)
  {
    OrderedMap(BASE_ORDER, map k | k in BASE_ORDER :: BaseSources(k))
  }

  /** Everything `getCSPDirectives` promises about a result whose `scriptSrc` and
      `connectSrc` are `script` and `connect` and which is otherwise the base. */
  predicate Policy(d: Directives, script: seq<string>, connect: seq<string>) {
    && d.Valid()
    && d.keys == BASE_ORDER + [ScriptSrc]
    && d.Get(ScriptSrc) == Some(script)
    && d.Get(ConnectSrc) == Some(connect)
    && forall k | k in d.entries && k != ScriptSrc && k != ConnectSrc :: d.entries[k] == BaseSources(k)
  }

  lemma BaseConnectSources()
    ensures ScriptSrc !in BaseDirectives().entries
    ensures BaseDirectives().Get(ConnectSrc) == Some([SELF])
  {
    assert BASE_ORDER[4] == ConnectSrc;
  }

  lemma DevelopmentPolicy(script: seq<string>, connect: seq<string>)
    ensures Policy(BaseDirectives().Set(ConnectSrc, connect).Set(ScriptSrc, script), script, connect)
  {
    BaseConnectSources();
  }

  lemma ProductionPolicy()
    ensures Policy(BaseDirectives().Set(ScriptSrc, [SELF]), [SELF], [SELF])
    ensures forall k | k in BaseDirectives().Set(ScriptSrc, [SELF]).entries ::
      UNSAFE_EVAL !in BaseDirectives().Set(ScriptSrc, [SELF]).entries[k]
  {
    BaseConnectSources();
  }

  /** `getCSPDirectives(env)`: in development `connectSrc` also allows local servers
      and scripts may be inline or evaluated; elsewhere scripts come only from the
      site itself, and no directive allows evaluated scripts. `scriptSrc` is added
      last; nothing else differs from the base. */
  method GetCSPDirectives(env: string) returns (d: Directives)
    ensures env == "development" ==> Policy(d, [SELF, "'unsafe-inline'", UNSAFE_EVAL], [SELF, "http://localhost:*"])
    ensures env != "development" ==> Policy(d, [SELF], [SELF])
    ensures env != "development" ==> forall k | k in d.entries :: UNSAFE_EVAL !in d.entries[k]
  {
    d := BaseDirectives();
    BaseConnectSources();
    if env == "development" {
      var connect := d.entries[ConnectSrc] + ["http://localhost:*"];
      assert connect == [SELF, "http://localhost:*"];
      d := d.Set(ConnectSrc, connect);
      d := d.Set(ScriptSrc, [SELF, "'unsafe-inline'", UNSAFE_EVAL]);
      DevelopmentPolicy([SELF, "'unsafe-inline'", UNSAFE_EVAL], connect);
    } else {
      d := d.Set(ScriptSrc, [SELF]);
      ProductionPolicy();
    }
  }
}
