/** The performance monitor: response durations grouped by normalised endpoint and
    kept for a five-minute window, the aggregate metrics and the per-endpoint
    metrics computed from them, the three-way health check, and the periodic
    cleanup. The clock is the `now` parameter (milliseconds); the process's memory
    and CPU readings are parameters as well. */
module Performance {
  import opened OrderedMaps
  import opened Seqs
  import opened Strings

  const SLOW_QUERY_THRESHOLD: int := 1000
  const METRICS_WINDOW: int := 5 * 60 * 1000
  const MEMORY_LIMIT: int := 512 * 1024 * 1024
  const AVG_RESPONSE_TIME_LIMIT: int := 500
  /** The slow-query share limit 0.1, as the denominator of 1/10. */
  const SLOW_SHARE_DENOMINATOR: nat := 10

  // ---------------------------------------------------------------------------
  // Endpoint normalisation

  predicate IsHex(c: char) {
    '0' <= c <= '9' || 'a' <= c <= 'f'
  }

  predicate IsUuidChar(c: char) {
    IsHex(c) || c == '-'
  }

  predicate All(s: string, ok: char -> bool) {
    forall k :: 0 <= k < |s| ==> ok(s[k])
  }

  predicate NoSlash(s: string) {
    forall k :: 0 <= k < |s| ==> s[k] != '/'
  }

  /** The length of the run of decimal digits that `s` starts with (`\d+`, greedy). */
  function DigitRun(s: string): (n: nat)
    ensures n <= |s|
    ensures forall k :: 0 <= k < n ==> IsDigit(s[k])
    ensures n < |s| ==> !IsDigit(s[n])
  {
    if s != [] && IsDigit(s[0]) then 1 + DigitRun(s[1..]) else 0
  }

  /** `.replace(/\/\d+/g, '/:id')`: every slash followed by digits, with all of those
      digits, becomes `/:id`; the scan resumes after the match. */
  function ReplaceDigitIds(s: string): string
    decreases |s|
  {
    if s == [] then []
    else if s[0] == '/' && |s| > 1 && IsDigit(s[1]) then "/:id" + ReplaceDigitIds(s[1 + DigitRun(s[1..])..])
    else [s[0]] + ReplaceDigitIds(s[1..])
  }

  /** `.replace(/\/[…]{n}/g, '/:id')`: every slash followed by `n` characters of the
      class `ok` becomes `/:id`, whatever follows them. */
  function ReplaceFixedIds(s: string, n: nat, ok: char -> bool): string
    decreases |s|
  {
    if s == [] then []
    else if s[0] == '/' && |s| > n && All(s[1..n + 1], ok) then "/:id" + ReplaceFixedIds(s[n + 1..], n, ok)
    else [s[0]] + ReplaceFixedIds(s[1..], n, ok)
  }

  /** `normalizeEndpoint` as written: the digit pass, then the 24-character
      ObjectId pass, then the 36-character UUID pass. */
  function NormalizeAsWritten(endpoint: string): string {
    ReplaceFixedIds(ReplaceFixedIds(ReplaceDigitIds(endpoint), 24, IsHex), 36, IsUuidChar)
  }

  lemma {:induction false} DigitRunAppend(a: string, q: string)
    requires q == [] || !IsDigit(q[0])
    ensures DigitRun(a + q) == DigitRun(a)
  {
    if a != [] {
      assert (a + q)[0] == a[0] && (a + q)[1..] == a[1..] + q;
      DigitRunAppend(a[1..], q);
    } else {
      assert a + q == q;
    }
  }

  lemma {:induction false} DigitRunAll(s: string)
    requires All(s, IsDigit)
    ensures DigitRun(s) == |s|
  {
    if s != [] {
      DigitRunAll(s[1..]);
    }
  }

  lemma {:induction false} DigitIdsPlain(s: string)
    requires NoSlash(s)
    ensures ReplaceDigitIds(s) == s
  {
    if s != [] {
      DigitIdsPlain(s[1..]);
      assert s == [s[0]] + s[1..];
    }
  }

  lemma {:induction false} FixedIdsPlain(s: string, n: nat, ok: char -> bool)
    requires NoSlash(s)
    ensures ReplaceFixedIds(s, n, ok) == s
  {
    if s != [] {
      FixedIdsPlain(s[1..], n, ok);
      assert s == [s[0]] + s[1..];
    }
  }

  /** The digit pass works segment by segment: a suffix that starts a new segment is
      rewritten independently of what precedes it. */
  lemma {:induction false} DigitIdsAppend(p: string, q: string)
    requires q == [] || q[0] == '/'
    ensures ReplaceDigitIds(p + q) == ReplaceDigitIds(p) + ReplaceDigitIds(q)
    decreases |p|
  {
    if p == [] {
      assert p + q == q;
    } else {
      var s := p + q;
      var dq := ReplaceDigitIds(q);
      DigitGuardAppend(p, q);
      if p[0] == '/' && |p| > 1 && IsDigit(p[1]) {
        var k := DigitRun(p[1..]);
        DigitIdsAppend(p[1 + k..], q);
        var dp := ReplaceDigitIds(p[1 + k..]);
        assert ReplaceDigitIds(s) == "/:id" + (dp + dq);
        Associative("/:id", dp, dq);
      } else {
        DigitIdsAppend(p[1..], q);
        var dp := ReplaceDigitIds(p[1..]);
        assert ReplaceDigitIds(s) == [p[0]] + (dp + dq);
        Associative([p[0]], dp, dq);
      }
    }
  }

  /** The digit pass takes the same decision at the head of `p + q` as at the head of
      `p`, and a digit run in `p` stops at `q`'s slash. */
  lemma DigitGuardAppend(p: string, q: string)
    requires p != [] && (q == [] || q[0] == '/')
    ensures (p + q)[0] == p[0] && (p + q)[1..] == p[1..] + q
    ensures (p[0] == '/' && |p| > 1 && IsDigit(p[1]))
        == ((p + q)[0] == '/' && |p + q| > 1 && IsDigit((p + q)[1]))
    ensures |p| > 1 && IsDigit(p[1]) ==>
      var k := DigitRun(p[1..]);
      DigitRun((p + q)[1..]) == k && (p + q)[1 + k..] == p[1 + k..] + q
  {
    var s := p + q;
    assert s[1..] == p[1..] + q;
    if |p| == 1 && |s| > 1 {
      assert s[1] == q[0];
    }
    if |p| > 1 && IsDigit(p[1]) {
      DigitRunAppend(p[1..], q);
      var k := DigitRun(p[1..]);
      assert s[1 + k..] == p[1 + k..] + q;
    }
  }

  lemma {:induction false} FixedIdsAppend(p: string, q: string, n: nat, ok: char -> bool)
    requires q == [] || q[0] == '/'
    requires !ok('/')
    ensures ReplaceFixedIds(p + q, n, ok) == ReplaceFixedIds(p, n, ok) + ReplaceFixedIds(q, n, ok)
    decreases |p|
  {
    if p == [] {
      assert p + q == q;
    } else {
      var s := p + q;
      assert s[0] == p[0] && s[1..] == p[1..] + q;
      WindowAppend(p, q, n, ok);
      var fq := ReplaceFixedIds(q, n, ok);
      if p[0] == '/' && |p| > n && All(p[1..n + 1], ok) {
        assert s[n + 1..] == p[n + 1..] + q;
        FixedIdsAppend(p[n + 1..], q, n, ok);
        var fp := ReplaceFixedIds(p[n + 1..], n, ok);
        assert ReplaceFixedIds(s, n, ok) == "/:id" + (fp + fq);
        assert ReplaceFixedIds(p, n, ok) == "/:id" + fp;
        Associative("/:id", fp, fq);
      } else {
        FixedIdsAppend(p[1..], q, n, ok);
        var fp := ReplaceFixedIds(p[1..], n, ok);
        assert ReplaceFixedIds(s, n, ok) == [p[0]] + (fp + fq);
        assert ReplaceFixedIds(p, n, ok) == [p[0]] + fp;
        Associative([p[0]], fp, fq);
      }
    }
  }

  /** A window of `n` characters after the first that would run into a following
      segment cannot match, since its slash is not in the class. */
  lemma WindowAppend(p: string, q: string, n: nat, ok: char -> bool)
    requires p != [] && (q == [] || q[0] == '/') && !ok('/')
    ensures (|p| > n && All(p[1..n + 1], ok)) == (|p + q| > n && All((p + q)[1..n + 1], ok))
  {
    var s := p + q;
    if |p| > n {
      assert s[1..n + 1] == p[1..n + 1];
    } else if |s| > n {
      assert s[1..n + 1][|p| - 1] == q[0];
    }
  }

  /** The whole as-written rewrite also goes segment by segment. */
  lemma NormalizeAsWrittenAppend(p: string, q: string)
    requires q == [] || q[0] == '/'
    ensures NormalizeAsWritten(p + q) == NormalizeAsWritten(p) + NormalizeAsWritten(q)
  {
    DigitIdsAppend(p, q);
    var p1, q1 := ReplaceDigitIds(p), ReplaceDigitIds(q);
    assert q1 == [] || q1[0] == '/';
    FixedIdsAppend(p1, q1, 24, IsHex);
    var p2, q2 := ReplaceFixedIds(p1, 24, IsHex), ReplaceFixedIds(q1, 24, IsHex);
    assert q2 == [] || q2[0] == '/';
    FixedIdsAppend(p2, q2, 36, IsUuidChar);
  }

  /** The fixed-length passes leave a marker written by the digit pass alone. */
  lemma FixedIdsSkipMarker(rest: string, n: nat, ok: char -> bool)
    requires NoSlash(rest) && !ok(':') && n > 0
    ensures ReplaceFixedIds("/:id" + rest, n, ok) == "/:id" + rest
  {
    var s := "/:id" + rest;
    if |s| > n {
      assert s[1..n + 1][0] == ':';
    }
    assert s[1..] == ":id" + rest;
    FixedIdsPlain(":id" + rest, n, ok);
  }

  /** A segment of digits becomes `:id`, as the comment on the digit pass promises. */
  lemma AsWrittenNumericId(digits: string)
    requires digits != [] && All(digits, IsDigit)
    ensures NormalizeAsWritten("/" + digits) == "/:id"
  {
    var s := "/" + digits;
    assert s[1..] == digits;
    DigitRunAll(digits);
    assert s[1 + |digits|..] == [];
    assert ReplaceDigitIds(s) == "/:id" + [];
    FixedIdsSkipMarker([], 24, IsHex);
    FixedIdsSkipMarker([], 36, IsUuidChar);
  }

  /** The digit pass runs first, so an id that starts with digits but is not all
      digits loses only its leading digits and is never recognised as an ObjectId or
      a UUID. */
  lemma AsWrittenDigitLedId(id: string)
    requires NoSlash(id) && id != [] && IsDigit(id[0]) && DigitRun(id) < |id|
    ensures NormalizeAsWritten("/" + id) == "/:id" + id[DigitRun(id)..]
    ensures NormalizeAsWritten("/" + id) != "/:id"
  {
    var s := "/" + id;
    var rest := id[DigitRun(id)..];
    assert s[1..] == id && s[1 + DigitRun(id)..] == rest;
    assert NoSlash(rest) by {
      forall k | 0 <= k < |rest| ensures rest[k] != '/' {
        assert rest[k] == id[DigitRun(id) + k];
      }
    }
    DigitIdsPlain(rest);
    FixedIdsSkipMarker(rest, 24, IsHex);
    FixedIdsSkipMarker(rest, 36, IsUuidChar);
  }

  /** A segment that does not start with a digit, a hex letter or a dash is left alone
      by all three passes. */
  lemma AsWrittenKeepsWord(seg: string)
    requires NoSlash(seg) && seg != [] && !IsUuidChar(seg[0])
    ensures NormalizeAsWritten("/" + seg) == "/" + seg
  {
    var s := "/" + seg;
    assert s[1..] == seg && s[1] == seg[0];
    DigitIdsPlain(seg);
    assert ReplaceDigitIds(s) == s;
    if |s| > 24 {
      assert s[1..25][0] == seg[0];
    }
    FixedIdsPlain(seg, 24, IsHex);
    assert ReplaceFixedIds(s, 24, IsHex) == s;
    if |s| > 36 {
      assert s[1..37][0] == seg[0];
    }
    FixedIdsPlain(seg, 36, IsUuidChar);
  }

  lemma AllAppend(a: string, b: string, ok: char -> bool)
    requires All(a, ok) && All(b, ok)
    ensures All(a + b, ok)
  {
    forall k | 0 <= k < |a + b| ensures ok((a + b)[k]) {
      if k >= |a| {
        assert (a + b)[k] == b[k - |a|];
      }
    }
  }

  /** The ids of the three kinds contain no slash. */
  lemma IdsHaveNoSlash(id: string)
    requires IsIdSegment(id)
    ensures NoSlash(id)
  {
  }

  /** On a path `/<word>/<id>` whose id starts with digits but is not all digits,
      the as-written rewrite leaves all but the leading digits of the id behind. */
  lemma AsWrittenMangledPath(word: string, id: string)
    requires NoSlash(word) && word != [] && !IsUuidChar(word[0])
    requires NoSlash(id) && id != [] && IsDigit(id[0]) && DigitRun(id) < |id|
    ensures NormalizeAsWritten("/" + word + "/" + id) == "/" + word + "/:id" + id[DigitRun(id)..]
    ensures NormalizeAsWritten("/" + word + "/" + id) != "/" + word + "/:id"
  {
    var rest := id[DigitRun(id)..];
    AsWrittenDigitLedId(id);
    Associative("/" + word, "/", id);
    NormalizeAsWrittenAppend("/" + word, "/" + id);
    AsWrittenKeepsWord(word);
    Associative("/" + word, "/:id", rest);
    assert |rest| > 0;
  }

  /** The example UUID `550e8400-e29b-41d4-a716-446655440000`, written as its run of
      leading digits and the rest. */
  const UUID_LEAD: string := "550"
  const UUID_REST: string := "e8400" + "-e29b" + "-41d4" + "-a716" + "-446655440000"
  const EXAMPLE_UUID: string := UUID_LEAD + UUID_REST

  /** The example UUID has the UUID shape and three leading digits. */
  lemma ExampleUuidShape(id: string)
    requires id == EXAMPLE_UUID
    ensures IsIdSegment(id) && DigitRun(id) == 3 && |id| == 36
  {
    ExampleUuidChars(id);
    ExampleUuidDigits(id);
  }

  lemma ExampleUuidDigits(id: string)
    requires id == EXAMPLE_UUID
    ensures DigitRun(id) == 3
  {
    assert UUID_REST[0] == 'e';
    DigitRunAppend(UUID_LEAD, UUID_REST);
    assert All(UUID_LEAD, IsDigit);
    DigitRunAll(UUID_LEAD);
  }

  lemma ExampleUuidChars(id: string)
    requires id == EXAMPLE_UUID
    ensures IsIdSegment(id) && |id| == 36
  {
    var a, b, c, d, e := "e8400", "-e29b", "-41d4", "-a716", "-446655440000";
    assert All(UUID_LEAD, IsUuidChar) && All(a, IsUuidChar) && All(b, IsUuidChar);
    assert All(c, IsUuidChar) && All(d, IsUuidChar) && All(e, IsUuidChar);
    AllAppend(a, b, IsUuidChar);
    AllAppend(a + b, c, IsUuidChar);
    AllAppend(a + b + c, d, IsUuidChar);
    AllAppend(a + b + c + d, e, IsUuidChar);
    AllAppend(UUID_LEAD, UUID_REST, IsUuidChar);
  }

  /** The first segment of the example path. */
  lemma ExampleWord(word: string)
    requires word == "ideas"
    ensures NoSlash(word) && word != [] && !IsUuidChar(word[0]) && !IsIdSegment(word)
  {
    assert word[0] == 'i';
  }

  /** `/ideas/550e8400-e29b-41d4-a716-446655440000` is normalised to
      `/ideas/:ide8400-e29b-41d4-a716-446655440000`. */
  lemma AsWrittenMangledUuid(word: string, id: string)
    requires word == "ideas" && id == EXAMPLE_UUID
    ensures NormalizeAsWritten("/" + word + "/" + id) == "/" + word + "/:id" + id[3..]
    ensures NormalizeAsWritten("/" + word + "/" + id) != "/" + word + "/:id"
  {
    ExampleUuidShape(id);
    IdsHaveNoSlash(id);
    ExampleWord(word);
    AsWrittenMangledPath(word, id);
  }

  /** The characters of a path segment, up to the next slash. */
  function SegmentLength(s: string): (n: nat)
    ensures n <= |s|
    ensures forall k :: 0 <= k < n ==> s[k] != '/'
    ensures n < |s| ==> s[n] == '/'
  {
    if s != [] && s[0] != '/' then 1 + SegmentLength(s[1..]) else 0
  }

  /** A path segment the server treats as an id: a numeric id, a MongoDB ObjectId or
      a UUID. */
  predicate IsIdSegment(seg: string) {
    || (|seg| >= 1 && All(seg, IsDigit))
    || (|seg| == 24 && All(seg, IsHex))
    || (|seg| == 36 && All(seg, IsUuidChar))
  }

  /** `normalizeEndpoint` as intended: every whole path segment that is an id becomes
      `:id`; every other character is kept. */
  function NormalizeEndpoint(s: string): string
    decreases |s|
  {
    if s == [] then []
    else if s[0] == '/' && IsIdSegment(s[1..1 + SegmentLength(s[1..])]) then
      "/:id" + NormalizeEndpoint(s[1 + SegmentLength(s[1..])..])
    else [s[0]] + NormalizeEndpoint(s[1..])
  }

  lemma {:induction false} SegmentLengthAppend(a: string, q: string)
    requires q == [] || q[0] == '/'
    ensures SegmentLength(a + q) == SegmentLength(a)
  {
    if a != [] {
      assert (a + q)[0] == a[0] && (a + q)[1..] == a[1..] + q;
      SegmentLengthAppend(a[1..], q);
    } else {
      assert a + q == q;
    }
  }

  lemma {:induction false} SegmentLengthPlain(s: string)
    requires NoSlash(s)
    ensures SegmentLength(s) == |s|
  {
    if s != [] {
      SegmentLengthPlain(s[1..]);
    }
  }

  lemma {:induction false} NormalizePlain(s: string)
    requires NoSlash(s)
    ensures NormalizeEndpoint(s) == s
  {
    if s != [] {
      NormalizePlain(s[1..]);
      assert s == [s[0]] + s[1..];
    }
  }

  /** A path that starts with an id segment normalises to `/:id` and the rest. */
  lemma NormalizeIdStep(s: string, k: nat)
    requires s != [] && k == SegmentLength(s[1..]) && s[0] == '/' && IsIdSegment(s[1..1 + k])
    ensures NormalizeEndpoint(s) == "/:id" + NormalizeEndpoint(s[1 + k..])
  {
  }

  /** Any other path keeps its first character. */
  lemma NormalizeCharStep(s: string, k: nat)
    requires s != [] && k == SegmentLength(s[1..]) && !(s[0] == '/' && IsIdSegment(s[1..1 + k]))
    ensures NormalizeEndpoint(s) == [s[0]] + NormalizeEndpoint(s[1..])
  {
  }

  /** Normalisation goes segment by segment. */
  lemma {:induction false} NormalizeAppend(p: string, q: string)
    requires q == [] || q[0] == '/'
    ensures NormalizeEndpoint(p + q) == NormalizeEndpoint(p) + NormalizeEndpoint(q)
    decreases |p|
  {
    if p == [] {
      assert p + q == q;
    } else {
      var s := p + q;
      var k := SegmentLength(p[1..]);
      SegmentGuardAppend(p, q);
      var nq := NormalizeEndpoint(q);
      if p[0] == '/' && IsIdSegment(p[1..1 + k]) {
        NormalizeIdStep(p, k);
        NormalizeIdStep(s, k);
        NormalizeAppend(p[1 + k..], q);
        Associative("/:id", NormalizeEndpoint(p[1 + k..]), nq);
      } else {
        NormalizeCharStep(p, k);
        NormalizeCharStep(s, k);
        NormalizeAppend(p[1..], q);
        Associative([p[0]], NormalizeEndpoint(p[1..]), nq);
      }
    }
  }

  /** The segment after the head of `p + q` is the one after the head of `p`. */
  lemma SegmentGuardAppend(p: string, q: string)
    requires p != [] && (q == [] || q[0] == '/')
    ensures (p + q)[0] == p[0] && (p + q)[1..] == p[1..] + q
    ensures var k := SegmentLength(p[1..]);
      && SegmentLength((p + q)[1..]) == k
      && (p + q)[1..1 + k] == p[1..1 + k]
      && (p + q)[1 + k..] == p[1 + k..] + q
  {
    var s := p + q;
    assert s[1..] == p[1..] + q;
    SegmentLengthAppend(p[1..], q);
    var k := SegmentLength(p[1..]);
    assert s[1..1 + k] == p[1..1 + k];
    assert s[1 + k..] == p[1 + k..] + q;
  }

  /** An id segment becomes `:id`, whichever of the three kinds it is. */
  lemma NormalizeId(id: string)
    requires IsIdSegment(id)
    ensures NormalizeEndpoint("/" + id) == "/:id"
  {
    var s := "/" + id;
    assert s[1..] == id;
    assert NoSlash(id);
    SegmentLengthPlain(id);
    assert s[1..1 + |id|] == id && s[1 + |id|..] == [];
  }

  /** Any other segment is kept as it is. */
  lemma NormalizeOtherSegment(seg: string)
    requires NoSlash(seg) && !IsIdSegment(seg)
    ensures NormalizeEndpoint("/" + seg) == "/" + seg
  {
    var s := "/" + seg;
    assert s[1..] == seg;
    SegmentLengthPlain(seg);
    assert s[1..1 + |seg|] == seg;
    NormalizePlain(seg);
  }

  /** On a path `/<word>/<id>`, the id becomes `:id` and the word stays. */
  lemma NormalizeIdPath(word: string, id: string)
    requires NoSlash(word) && !IsIdSegment(word) && IsIdSegment(id)
    ensures NormalizeEndpoint("/" + word + "/" + id) == "/" + word + "/:id"
  {
    NormalizeId(id);
    assert "/" + word + "/" + id == ("/" + word) + ("/" + id);
    NormalizeAppend("/" + word, "/" + id);
    NormalizeOtherSegment(word);
  }

  /** The intended normalisation turns the example UUID path into `/ideas/:id`. */
  lemma NormalizedUuid(word: string, id: string)
    requires word == "ideas" && id == EXAMPLE_UUID
    ensures NormalizeEndpoint("/" + word + "/" + id) == "/" + word + "/:id"
  {
    ExampleUuidChars(id);
    ExampleWord(word);
    NormalizeIdPath(word, id);
  }

  // ---------------------------------------------------------------------------
  // Samples and the five-minute window

  /** A recorded response: when it finished and how long it took. */
  datatype Sample = Sample(at: int, duration: int)

  /** The window filter as written: the stored durations are compared with a clock
      reading five minutes in the past. */
  function RecentAsWritten(times: seq<int>, now: int): seq<int> {
    Filter(times, (t: int) => t > now - METRICS_WINDOW)
  }

  /** Once the clock is past five minutes plus the longest stored duration, the
      filter empties every list, including the duration just recorded. */
  lemma {:induction false} AsWrittenDropsEverything(times: seq<int>, now: int)
    requires forall i :: 0 <= i < |times| ==> times[i] <= now - METRICS_WINDOW
    ensures RecentAsWritten(times, now) == []
  {
    if times != [] {
      var init := times[..|times| - 1];
      AsWrittenDropsEverything(init, now);
    }
  }

  /** A 120 ms response recorded at a present-day clock reading is dropped at once. */
  lemma AsWrittenDropsFreshSample()
    ensures RecentAsWritten([120], 1700000000000) == []
  {
    AsWrittenDropsEverything([120], 1700000000000);
  }

  /** A duration recorded as written is kept, after the earlier durations that stay,
      exactly when its value in milliseconds exceeds the cutoff clock reading. */
  lemma RecordedKeptIff(times: seq<int>, duration: int, now: int)
    ensures RecentAsWritten(times + [duration], now)
         == RecentAsWritten(times, now) + (if duration > now - METRICS_WINDOW then [duration] else [])
  {
    assert (times + [duration])[..|times|] == times;
  }

  predicate InWindow(x: Sample, now: int) {
    x.at > now - METRICS_WINDOW
  }

  /** The window filter as intended: the samples that finished in the last five
      minutes, in their order. */
  function Recent(samples: seq<Sample>, now: int): seq<Sample> {
    if samples == [] then []
    else
      var last := samples[|samples| - 1];
      Recent(samples[..|samples| - 1], now) + (if InWindow(last, now) then [last] else [])
  }

  /** Exactly the samples inside the window survive. */
  lemma {:induction false} RecentMembers(samples: seq<Sample>, now: int)
    ensures forall x :: x in Recent(samples, now) <==> x in samples && InWindow(x, now)
  {
    if samples != [] {
      var init := samples[..|samples| - 1];
      RecentMembers(init, now);
      assert samples == init + [samples[|samples| - 1]];
    }
  }

  /** Filtering goes sample by sample. */
  lemma {:induction false} RecentAppend(a: seq<Sample>, b: seq<Sample>, now: int)
    ensures Recent(a + b, now) == Recent(a, now) + Recent(b, now)
  {
    if b == [] {
      assert a + b == a;
    } else {
      var init, last := b[..|b| - 1], b[|b| - 1];
      assert (a + b)[..|a + b| - 1] == a + init;
      RecentAppend(a, init, now);
      var tail := if InWindow(last, now) then [last] else [];
      Associative(Recent(a, now), Recent(init, now), tail);
    }
  }

  /** The sample recorded now is always kept, after the earlier samples that stay. */
  lemma RecentKeepsNewest(samples: seq<Sample>, duration: int, now: int)
    ensures Recent(samples + [Sample(now, duration)], now) == Recent(samples, now) + [Sample(now, duration)]
  {
    assert (samples + [Sample(now, duration)])[..|samples|] == samples;
  }

  /** Filtering twice at the same time changes nothing. */
  lemma {:induction false} RecentIdempotent(samples: seq<Sample>, now: int)
    ensures Recent(Recent(samples, now), now) == Recent(samples, now)
  {
    if samples != [] {
      var init, last := samples[..|samples| - 1], samples[|samples| - 1];
      RecentIdempotent(init, now);
      var tail := if InWindow(last, now) then [last] else [];
      RecentAppend(Recent(init, now), tail, now);
      assert Recent(tail, now) == tail by {
        if tail != [] {
          assert tail[..0] == [];
        }
      }
    }
  }

  // ---------------------------------------------------------------------------
  // Aggregates

  predicate IsSlow(duration: int) {
    duration > SLOW_QUERY_THRESHOLD
  }

  /** All durations of all endpoints, endpoint after endpoint. */
  function Flatten(lists: seq<seq<int>>): seq<int> {
    if lists == [] then [] else Flatten(lists[..|lists| - 1]) + lists[|lists| - 1]
  }

  function TotalTime(s: seq<int>): int {
    if s == [] then 0 else TotalTime(s[..|s| - 1]) + s[|s| - 1]
  }

  function SlowCount(s: seq<int>): nat {
    if s == [] then 0 else SlowCount(s[..|s| - 1]) + (if IsSlow(s[|s| - 1]) then 1 else 0)
  }

  /** A count of slow samples never exceeds the count of samples, is zero exactly
      when none is slow, and is the full count exactly when all are. */
  lemma {:induction false} SlowCountBounds(s: seq<int>)
    ensures SlowCount(s) <= |s|
    ensures SlowCount(s) == 0 <==> forall i :: 0 <= i < |s| ==> !IsSlow(s[i])
    ensures SlowCount(s) == |s| <==> forall i :: 0 <= i < |s| ==> IsSlow(s[i])
  {
    if s != [] {
      var init := s[..|s| - 1];
      SlowCountBounds(init);
      assert forall i :: 0 <= i < |init| ==> init[i] == s[i];
    }
  }

  /** The average of a total over a count, 0 for no samples. */
  function Average(total: int, count: nat): (avg: real)
    ensures count == 0 ==> avg == 0.0
    ensures count > 0 ==> avg * (count as real) == total as real
  {
    if count > 0 then (total as real) / (count as real) else 0.0
  }

  lemma AverageAbove(total: int, count: nat, limit: int)
    requires count > 0
    ensures Average(total, count) > limit as real <==> total > limit * count
  {
    var avg := Average(total, count);
    var c := count as real;
    var d := avg - limit as real;
    assert d * c == total as real - (limit as real) * c;
    assert (limit * count) as real == (limit as real) * c;
    PositiveProduct(d, c);
  }

  /** `slow / count > 0.1`, on integers. */
  lemma ShareAbove(slow: nat, count: nat)
    requires count > 0
    ensures (slow as real) / (count as real) > 0.1 <==> SLOW_SHARE_DENOMINATOR * slow > count
  {
    var share := (slow as real) / (count as real);
    var c := count as real;
    assert share * c == slow as real;
    var d := share - 0.1;
    assert d * c == slow as real - 0.1 * c;
    PositiveProduct(d, c);
  }

  /** The sign of `d * c` for a positive `c` is the sign of `d`. */
  lemma PositiveProduct(d: real, c: real)
    requires c > 0.0
    ensures d > 0.0 <==> d * c > 0.0
  {
    if d > 0.0 {
      assert d * c > 0.0 * c;
    } else {
      assert (-d) * c >= 0.0;
    }
  }

  datatype MemoryUsage = MemoryUsage(rss: int, heapTotal: int, heapUsed: int, external: int)
  datatype CpuUsage = CpuUsage(user: int, system: int)

  datatype PerformanceMetrics = PerformanceMetrics(
    requestCount: nat,
    averageResponseTime: real,
    slowQueries: nat,
    memoryUsage: MemoryUsage,
    cpuUsage: CpuUsage,
    uptime: int,
    timestamp: int)

  datatype EndpointStats = EndpointStats(count: nat, avgTime: real, slowCount: nat)

  /** The figures `getEndpointMetrics` reports for one list of durations. */
  function StatsOf(times: seq<int>): (st: EndpointStats)
    ensures st.count == |times| && st.slowCount <= st.count
    ensures times == [] ==> st.avgTime == 0.0
    ensures times != [] ==> st.avgTime * (|times| as real) == TotalTime(times) as real
  {
    SlowCountBounds(times);
    EndpointStats(|times|, Average(TotalTime(times), |times|), SlowCount(times))
  }

  /** The three health checks, each on its own. */
  predicate HealthyFigures(heapUsed: int, samples: seq<int>) {
    && heapUsed <= MEMORY_LIMIT
    && TotalTime(samples) <= AVG_RESPONSE_TIME_LIMIT * |samples|
    && SLOW_SHARE_DENOMINATOR * SlowCount(samples) <= |samples|
  }

  // ---------------------------------------------------------------------------
  // Cleanup

  /** The endpoints that keep at least one sample, in map order. */
  function KeptEndpoints(keys: seq<string>, entries: map<string, seq<int>>, now: int): seq<string>
    requires KeysIn(keys, entries)
  {
    if keys == [] then []
    else
      var last := keys[|keys| - 1];
      KeptEndpoints(keys[..|keys| - 1], entries, now) + (if RecentAsWritten(entries[last], now) == [] then [] else [last])
  }

  lemma {:induction false} KeptEndpointsMembers(keys: seq<string>, entries: map<string, seq<int>>, now: int)
    requires KeysIn(keys, entries)
    ensures forall x :: x in KeptEndpoints(keys, entries, now) <==> x in keys && RecentAsWritten(entries[x], now) != []
  {
    if keys != [] {
      var init := keys[..|keys| - 1];
      KeptEndpointsMembers(init, entries, now);
      assert keys == init + [keys[|keys| - 1]];
    }
  }

  /** Keeping some of a duplicate-free list of endpoints keeps it duplicate-free. */
  lemma {:induction false} KeptEndpointsDistinct(keys: seq<string>, entries: map<string, seq<int>>, now: int)
    requires KeysIn(keys, entries) && Distinct(keys)
    ensures Distinct(KeptEndpoints(keys, entries, now))
  {
    if keys != [] {
      var init := keys[..|keys| - 1];
      var last := keys[|keys| - 1];
      assert Distinct(init) by {
        forall i, j | 0 <= i < j < |init| ensures init[i] != init[j] {
          assert init[i] == keys[i] && init[j] == keys[j];
        }
      }
      KeptEndpointsDistinct(init, entries, now);
      KeptEndpointsMembers(init, entries, now);
      assert last !in init by {
        forall i | 0 <= i < |init| ensures init[i] != last {
          assert init[i] == keys[i];
        }
      }
    }
  }

  /** The endpoints that keep a sample, each with just its samples in the window. */
  function PrunedEntries(entries: map<string, seq<int>>, now: int): map<string, seq<int>> {
    map k | k in entries && RecentAsWritten(entries[k], now) != [] :: RecentAsWritten(entries[k], now)
  }

  /** The pruned key order and entries form a well-formed map. */
  lemma PrunedValid(metrics: OrderedMap<string, seq<int>>, now: int)
    requires metrics.Valid()
    ensures OrderedMap(KeptEndpoints(metrics.keys, metrics.entries, now), PrunedEntries(metrics.entries, now)).Valid()
  {
    var keys := KeptEndpoints(metrics.keys, metrics.entries, now);
    var entries := PrunedEntries(metrics.entries, now);
    KeptEndpointsMembers(metrics.keys, metrics.entries, now);
    KeptEndpointsDistinct(metrics.keys, metrics.entries, now);
    forall k | k in entries ensures k in keys {
      assert k in metrics.entries && RecentAsWritten(metrics.entries[k], now) != [];
      assert k in metrics.keys;
    }
    forall i | 0 <= i < |keys| ensures keys[i] in entries {
      assert keys[i] in keys;
      assert keys[i] in metrics.entries;
    }
  }

  /** `cleanup` keeps the endpoints with a sample in the window, each with just those
      samples, and adds none. */
  function PrunedMetrics(metrics: OrderedMap<string, seq<int>>, now: int): (r: OrderedMap<string, seq<int>>)
    requires metrics.Valid()
    ensures r.Valid()
    ensures forall k :: k in r.entries <==> k in metrics.entries && RecentAsWritten(metrics.entries[k], now) != []
    ensures forall k :: k in r.entries ==> r.entries[k] == RecentAsWritten(metrics.entries[k], now)
  {
    PrunedValid(metrics, now);
    OrderedMap(KeptEndpoints(metrics.keys, metrics.entries, now), PrunedEntries(metrics.entries, now))
  }

  /** After cleanup every list is non-empty and holds only durations above the
      cutoff, each taken from the list before cleanup. */
  lemma PrunedIsRecent(metrics: OrderedMap<string, seq<int>>, now: int)
    requires metrics.Valid()
    ensures forall k :: k in PrunedMetrics(metrics, now).entries ==>
      var times := PrunedMetrics(metrics, now).entries[k];
      && times != []
      && forall i :: 0 <= i < |times| ==> times[i] > now - METRICS_WINDOW && times[i] in metrics.entries[k]
  {
  }

  /** Cleanup at an unchanged clock has nothing more to remove. */
  lemma PrunedTwice(metrics: OrderedMap<string, seq<int>>, now: int)
    requires metrics.Valid()
    ensures PrunedMetrics(PrunedMetrics(metrics, now), now).entries == PrunedMetrics(metrics, now).entries
  {
    var once := PrunedMetrics(metrics, now);
    var twice := PrunedMetrics(once, now);
    forall k
      ensures k in twice.entries <==> k in once.entries
      ensures k in twice.entries ==> twice.entries[k] == once.entries[k]
    {
      PrunedTwiceAt(metrics, now, k);
    }
  }

  lemma PrunedTwiceAt(metrics: OrderedMap<string, seq<int>>, now: int, k: string)
    requires metrics.Valid()
    ensures var once := PrunedMetrics(metrics, now);
      var twice := PrunedMetrics(once, now);
      && (k in twice.entries <==> k in once.entries)
      && (k in twice.entries ==> twice.entries[k] == once.entries[k])
  {
    var once := PrunedMetrics(metrics, now);
    if k in once.entries {
      RecentAsWrittenTwice(metrics.entries[k], now);
    }
  }

  lemma RecentAsWrittenTwice(times: seq<int>, now: int)
    ensures RecentAsWritten(RecentAsWritten(times, now), now) == RecentAsWritten(times, now)
  {
    FilterIdempotent(times, (t: int) => t > now - METRICS_WINDOW);
  }

  /** One step of the cleanup walk: the endpoint's list is filtered, and the endpoint
      deleted if nothing is left. */
  function SweepAt(m: OrderedMap<string, seq<int>>, k: string, now: int): (r: OrderedMap<string, seq<int>>)
    requires m.Valid()
    ensures r.Valid()
  {
    if k !in m.entries then m
    else if RecentAsWritten(m.entries[k], now) == [] then m.Delete(k)
    else m.Set(k, RecentAsWritten(m.entries[k], now))
  }

  /** The lists part-way through the walk: the visited endpoints are filtered. */
  function Partial(entries: map<string, seq<int>>, visited: set<string>, now: int): map<string, seq<int>> {
    map k | k in entries && (k in visited ==> RecentAsWritten(entries[k], now) != []) ::
      if k in visited then RecentAsWritten(entries[k], now) else entries[k]
  }

  lemma KeptStep(keys: seq<string>, entries: map<string, seq<int>>, i: nat, now: int)
    requires i < |keys| && KeysIn(keys, entries)
    ensures KeptEndpoints(keys[..i + 1], entries, now)
         == KeptEndpoints(keys[..i], entries, now) + (if RecentAsWritten(entries[keys[i]], now) == [] then [] else [keys[i]])
  {
    assert keys[..i + 1][..i] == keys[..i];
  }

  lemma PartialStep(entries: map<string, seq<int>>, visited: set<string>, k: string, now: int)
    requires k in entries && k !in visited
    ensures RecentAsWritten(entries[k], now) == [] ==> Partial(entries, visited, now) - {k} == Partial(entries, visited + {k}, now)
    ensures RecentAsWritten(entries[k], now) != [] ==>
      Partial(entries, visited, now)[k := RecentAsWritten(entries[k], now)] == Partial(entries, visited + {k}, now)
  {
  }

  lemma SweepAdvance(keys: seq<string>, entries: map<string, seq<int>>, i: nat,
                     m: OrderedMap<string, seq<int>>, now: int)
    requires OrderedMap(keys, entries).Valid() && i < |keys| && m.Valid()
    requires m.keys == KeptEndpoints(keys[..i], entries, now) + keys[i..]
    requires m.entries == Partial(entries, Visited(keys, i), now)
    ensures SweepAt(m, keys[i], now).keys == KeptEndpoints(keys[..i + 1], entries, now) + keys[i + 1..]
    ensures SweepAt(m, keys[i], now).entries == Partial(entries, Visited(keys, i + 1), now)
  {
    var k := keys[i];
    assert k !in Visited(keys, i) by {
      forall j | 0 <= j < i ensures keys[j] != k { }
    }
    assert Visited(keys, i + 1) == Visited(keys, i) + {k};
    PartialStep(entries, Visited(keys, i), k, now);
    assert m.entries[k] == entries[k];
    SweepAdvanceKeys(keys, entries, i, m, now);
  }

  lemma SweepAdvanceKeys(keys: seq<string>, entries: map<string, seq<int>>, i: nat,
                         m: OrderedMap<string, seq<int>>, now: int)
    requires OrderedMap(keys, entries).Valid() && i < |keys| && m.Valid()
    requires m.keys == KeptEndpoints(keys[..i], entries, now) + keys[i..]
    requires keys[i] in m.entries && m.entries[keys[i]] == entries[keys[i]]
    ensures SweepAt(m, keys[i], now).keys == KeptEndpoints(keys[..i + 1], entries, now) + keys[i + 1..]
  {
    var k := keys[i];
    var kept := KeptEndpoints(keys[..i], entries, now);
    var rest := keys[i + 1..];
    KeyUnique(kept, keys, i);
    KeptStep(keys, entries, i, now);
    Associative(kept, [k], rest);
    if RecentAsWritten(entries[k], now) == [] {
      assert SweepAt(m, k, now).keys == RemoveKey(m.keys, k);
      RemoveKeyBetween(kept, k, rest);
      RightUnit(kept);
    }
  }

  lemma SweepStart(keys: seq<string>, entries: map<string, seq<int>>, now: int)
    ensures KeysIn(keys[..0], entries)
    ensures KeptEndpoints(keys[..0], entries, now) + keys[0..] == keys
    ensures entries == Partial(entries, Visited(keys, 0), now)
  {
    assert keys[..0] == [] && keys[0..] == keys;
  }

  lemma SweepDone(keys: seq<string>, entries: map<string, seq<int>>, m: OrderedMap<string, seq<int>>, now: int)
    requires OrderedMap(keys, entries).Valid()
    requires m.keys == KeptEndpoints(keys[..|keys|], entries, now) + keys[|keys|..]
    requires m.entries == Partial(entries, Visited(keys, |keys|), now)
    ensures m == PrunedMetrics(OrderedMap(keys, entries), now)
  {
    assert keys[..|keys|] == keys;
    assert KeptEndpoints(keys, entries, now) + keys[|keys|..] == KeptEndpoints(keys, entries, now);
    forall k | k in entries ensures k in Visited(keys, |keys|) {
      var j :| 0 <= j < |keys| && keys[j] == k;
    }
  }

  /** The walk of `cleanup` over the entries, filtering each list and deleting the
      endpoints left empty. */
  method PruneSamples(metrics: OrderedMap<string, seq<int>>, now: int) returns (m: OrderedMap<string, seq<int>>)
    requires metrics.Valid()
    ensures m.Valid() && m == PrunedMetrics(metrics, now)
  {
    m := metrics;
    var keys := metrics.keys;
    var entries := metrics.entries;
    var i := 0;
    SweepStart(keys, entries, now);
    while i < |keys|
      invariant 0 <= i <= |keys| && m.Valid()
      invariant OrderedMap(keys, entries).Valid() && KeysIn(keys[..i], entries)
      invariant m.keys == KeptEndpoints(keys[..i], entries, now) + keys[i..]
      invariant m.entries == Partial(entries, Visited(keys, i), now)
    {
      SweepAdvance(keys, entries, i, m, now);
      m := SweepAt(m, keys[i], now);
      i := i + 1;
      KeysInPrefix(keys, entries, i);
    }
    assert metrics == OrderedMap(keys, entries);
    SweepDone(keys, entries, m, now);
  }

  // ---------------------------------------------------------------------------
  // The monitor

  class PerformanceMonitor {
    var metrics: OrderedMap<string, seq<int>>
    const startTime: int
    const startCpuUsage: CpuUsage

    predicate Valid()
      reads this
    {
      metrics.Valid()
    }

    constructor(now: int, cpu: CpuUsage)
      ensures Valid() && metrics == Empty() && startTime == now && startCpuUsage == cpu
    {
      metrics := Empty();
      startTime := now;
      startCpuUsage := cpu;
    }

    /** `recordRequestTime`: append the duration to the list of its endpoint, keyed
        by the three-pass rewrite and created at the end of the order if needed,
        then keep the durations above the cutoff. */
    method RecordRequestTime(endpoint: string, duration: int, now: int)
      requires Valid()
      modifies this`metrics
      ensures Valid()
      ensures var key := NormalizeAsWritten(endpoint);
        var before := if key in old(metrics).entries then old(metrics).entries[key] else [];
        metrics == old(metrics).Set(key, RecentAsWritten(before + [duration], now))
    {
      var key := NormalizeAsWritten(endpoint);
      if !metrics.Has(key) {
        metrics := metrics.Set(key, []);
      }
      var times := metrics.entries[key] + [duration];
      metrics := metrics.Set(key, RecentAsWritten(times, now));
    }

    /** `getMetrics`: the sample count, the average duration and the slow count over
        all endpoints; uptime since construction; CPU time since construction. */
    method GetMetrics(memory: MemoryUsage, cpu: CpuUsage, now: int) returns (r: PerformanceMetrics)
      requires Valid()
      ensures var all := Flatten(metrics.Values());
        && r.requestCount == |all|
        && r.slowQueries == SlowCount(all) <= r.requestCount
        && r.averageResponseTime == Average(TotalTime(all), |all|)
      ensures r.memoryUsage == memory && r.uptime == now - startTime && r.timestamp == now
      ensures r.cpuUsage == CpuUsage(cpu.user - startCpuUsage.user, cpu.system - startCpuUsage.system)
    {
      var vals := metrics.Values();
      var totalRequests: nat := 0;
      var totalTime := 0;
      var slowQueries: nat := 0;
      var i := 0;
      while i < |vals|
        invariant 0 <= i <= |vals|
        invariant totalRequests == |Flatten(vals[..i])|
        invariant totalTime == TotalTime(Flatten(vals[..i]))
        invariant slowQueries == SlowCount(Flatten(vals[..i]))
      {
        var times := vals[i];
        ghost var before := Flatten(vals[..i]);
        totalRequests := totalRequests + |times|;
        var j := 0;
        assert before + times[..0] == before;
        while j < |times|
          invariant 0 <= j <= |times|
          invariant totalTime == TotalTime(before + times[..j])
          invariant slowQueries == SlowCount(before + times[..j])
        {
          assert (before + times[..j + 1])[..|before| + j] == before + times[..j];
          totalTime := totalTime + times[j];
          if times[j] > SLOW_QUERY_THRESHOLD {
            slowQueries := slowQueries + 1;
          }
          j := j + 1;
        }
        assert vals[..i + 1][..i] == vals[..i];
        assert times[..j] == times;
        i := i + 1;
      }
      assert vals[..i] == vals;
      SlowCountBounds(Flatten(vals));
      r := PerformanceMetrics(totalRequests, Average(totalTime, totalRequests), slowQueries, memory,
                              CpuUsage(cpu.user - startCpuUsage.user, cpu.system - startCpuUsage.system),
                              now - startTime, now);
    }

    /** `getEndpointMetrics`: one entry per endpoint, in map order. */
    method GetEndpointMetrics() returns (r: seq<(string, EndpointStats)>)
      requires Valid()
      ensures |r| == |metrics.keys|
      ensures forall i :: 0 <= i < |r| ==> r[i] == (metrics.keys[i], StatsOf(metrics.entries[metrics.keys[i]]))
    {
      var keys := metrics.keys;
      r := [];
      var i := 0;
      while i < |keys|
        invariant 0 <= i <= |keys| && |r| == i
        invariant forall j :: 0 <= j < i ==> r[j] == (keys[j], StatsOf(metrics.entries[keys[j]]))
      {
        var times := metrics.entries[keys[i]];
        r := r + [(keys[i], StatsOf(times))];
        i := i + 1;
      }
    }

    /** `isHealthy`: false as soon as one check fails — heap above 512 MiB, average
        above 500 ms, or more than a tenth of the samples slow. */
    method IsHealthy(memory: MemoryUsage, cpu: CpuUsage, now: int) returns (healthy: bool)
      requires Valid()
      ensures healthy <==> HealthyFigures(memory.heapUsed, Flatten(metrics.Values()))
    {
      var m := GetMetrics(memory, cpu, now);
      ghost var all := Flatten(metrics.Values());
      if m.requestCount > 0 {
        AverageAbove(TotalTime(all), |all|, AVG_RESPONSE_TIME_LIMIT);
        ShareAbove(m.slowQueries, m.requestCount);
      } else {
        assert all == [];
      }
      if m.memoryUsage.heapUsed > MEMORY_LIMIT {
        return false;
      }
      if m.averageResponseTime > AVG_RESPONSE_TIME_LIMIT as real {
        return false;
      }
      if m.requestCount > 0 && (m.slowQueries as real) / (m.requestCount as real) > 0.1 {
        return false;
      }
      return true;
    }

    /** `cleanup`: filter every list to the window and delete the empty ones. */
    method Cleanup(now: int)
      requires Valid()
      modifies this`metrics
      ensures Valid()
      ensures metrics == PrunedMetrics(old(metrics), now)
    {
      metrics := PruneSamples(metrics, now);
    }
  }
}
