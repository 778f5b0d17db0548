/** The security monitor: per-IP threat records with a risk score, one-minute global
    counters, the set of blocked addresses with their unblock timers, anomaly
    detection, the security report, hourly cleanup, and the two middlewares built on
    it. The clock is the `now` parameter (milliseconds). The audit events that the
    middlewares write are returned to the caller instead of being written, and the
    regular-expression engine is the `Searcher` the monitor is created with. */
module Monitoring {
  import opened Wrappers
  import opened OrderedMaps
  import opened RegexTest
  import opened Http
  import opened Seqs
  import opened Sorting
  import opened Strings
  import Json
  import Audit

  const MAX_REQUESTS_PER_MINUTE: nat := 1000
  const MAX_ERRORS_PER_MINUTE: nat := 50
  const MAX_AUTH_FAILURES_PER_MINUTE: nat := 5
  const HIGH_RISK_SCORE: nat := 75
  const CRITICAL_RISK_SCORE: nat := 90
  const BLOCK_DURATION: int := 60 * 60 * 1000
  const AUTH_BLOCK_DURATION: int := 15 * 60 * 1000
  const HIGH_RISK_LOG_SCORE: nat := 70
  const ACTIVE_THREAT_SCORE: nat := 50
  const REPORT_SIZE: nat := 10
  const ONE_MINUTE: int := 60 * 1000
  const ONE_HOUR: int := 60 * 60 * 1000
  const SHORT_SESSION: int := 5 * 60 * 1000

  /** The six suspicious-content patterns, in the order they are tried: SQL keywords,
      script tags, code-injection calls, directory traversal, common account names and
      password words. Only the script-tag and traversal patterns carry the `g` flag. */
  const PATTERNS: seq<Pattern> := [
    Pattern("\\b(union|select|insert|update|delete|drop|create|alter)\\b", "i"),
    Pattern("<script[^>]*>.*?<\\/script>", "gi"),
    Pattern("\\b(eval|exec|system|cmd)\\s*\\(", "i"),
    Pattern("\\.\\.\\/", "g"),
    Pattern("\\b(administrator|admin|root|test|guest)\\b", "i"),
    Pattern("\\b(password|passwd|pwd)\\b", "i")
  ]

  datatype SecurityMetrics = SecurityMetrics(
    requestCount: nat, errorCount: nat, authFailures: nat, suspiciousActivity: nat, lastReset: int)

  datatype Counter = RequestCount | ErrorCount | AuthFailures | SuspiciousActivity

  function FreshMetrics(now: int): SecurityMetrics {
    SecurityMetrics(0, 0, 0, 0, now)
  }

  function Count(m: SecurityMetrics, c: Counter): nat {
    match c
    case RequestCount => m.requestCount
    case ErrorCount => m.errorCount
    case AuthFailures => m.authFailures
    case SuspiciousActivity => m.suspiciousActivity
  }

  /** `updateMetrics`: increment one counter, then start a fresh window when more than
      a minute has passed since the last reset. */
  function Bump(m: SecurityMetrics, c: Counter, now: int): (r: SecurityMetrics)
    ensures now - m.lastReset > ONE_MINUTE ==> r == FreshMetrics(now)
    ensures now - m.lastReset <= ONE_MINUTE ==>
      && r.lastReset == m.lastReset
      && Count(r, c) == Count(m, c) + 1
      && forall d :: d != c ==> Count(r, d) == Count(m, d)
  {
    var incremented := match c
      case RequestCount => m.(requestCount := m.requestCount + 1)
      case ErrorCount => m.(errorCount := m.errorCount + 1)
      case AuthFailures => m.(authFailures := m.authFailures + 1)
      case SuspiciousActivity => m.(suspiciousActivity := m.suspiciousActivity + 1);
    if now - incremented.lastReset > ONE_MINUTE then FreshMetrics(now) else incremented
  }

  /** The increment is made before the window check, so the event that opens a new
      window is not counted in it. */
  lemma RolloverEventIsLost(m: SecurityMetrics, c: Counter, now: int)
    requires now - m.lastReset > ONE_MINUTE
    ensures Count(Bump(m, c, now), c) == 0
  {
  }

  /** A threat record. `serial` is not a field of the source's object: it stands for
      the object's identity, so that a response hook holding a record that has since
      been dropped from the map is seen to update nothing the map holds. */
  datatype Threat = Threat(
    ipAddress: string,
    requestCount: nat,
    errorCount: nat,
    authFailures: nat,
    suspiciousPatterns: seq<string>,
    firstSeen: int,
    lastSeen: int,
    riskScore: nat,
    serial: nat)

  // ---------------------------------------------------------------------------
  // Risk score

  /** The request-rate term: `requestCount / (elapsed / 60000)` compared with 100 and
      50, with the division cross-multiplied. A zero elapsed time gives an infinite
      rate for a positive count (and NaN, which compares false, for zero). */
  function RateTerm(count: nat, elapsed: int): nat {
    if elapsed > 0 then
      if count * ONE_MINUTE > 100 * elapsed then 30
      else if count * ONE_MINUTE > 50 * elapsed then 15
      else 0
    else if elapsed == 0 && count > 0 then 30
    else 0
  }

  /** The error-rate term: `errorCount / requestCount` compared with 0.5 and 0.2. */
  function ErrorTerm(errors: nat, requests: nat): nat {
    if requests > 0 then
      if 2 * errors > requests then 25
      else if 5 * errors > requests then 10
      else 0
    else if errors > 0 then 25
    else 0
  }

  function AuthTerm(failures: nat): nat {
    if failures > 10 then 40 else if failures > 5 then 20 else 0
  }

  function DurationTerm(elapsed: int): nat {
    if elapsed < SHORT_SESSION then 15 else 0
  }

  function RawScore(t: Threat, now: int): nat {
    RateTerm(t.requestCount, now - t.firstSeen) + ErrorTerm(t.errorCount, t.requestCount)
    + AuthTerm(t.authFailures) + 10 * |t.suspiciousPatterns| + DurationTerm(now - t.firstSeen)
  }

  /** `calculateRiskScore`: the sum of the terms, capped at 100. */
  function RiskScore(t: Threat, now: int): (score: nat)
    ensures score <= 100
    ensures score % 5 == 0
    ensures score == 100 || score == RawScore(t, now)
  {
    var raw := RawScore(t, now);
    if raw < 100 then raw else 100
  }

  /** More authentication failures never lower the score. */
  lemma RiskMonotoneInAuthFailures(t: Threat, now: int, extra: nat)
    ensures RiskScore(t, now) <= RiskScore(t.(authFailures := t.authFailures + extra), now)
  {
  }

  /** More errors for the same number of requests never lower the score. */
  lemma RiskMonotoneInErrors(t: Threat, now: int, extra: nat)
    ensures RiskScore(t, now) <= RiskScore(t.(errorCount := t.errorCount + extra), now)
  {
  }

  /** Each further matched pattern adds 10 until the cap. */
  lemma EachPatternAddsTen(t: Threat, now: int, p: string)
    ensures RiskScore(t.(suspiciousPatterns := t.suspiciousPatterns + [p]), now)
         == if RawScore(t, now) + 10 < 100 then RawScore(t, now) + 10 else 100
  {
  }

  /** As time passes without new requests the score never rises. */
  lemma {:induction false} RiskNonIncreasingOverTime(t: Threat, now1: int, now2: int)
    requires t.firstSeen <= now1 <= now2
    ensures RiskScore(t, now2) <= RiskScore(t, now1)
  {
    var e1, e2 := now1 - t.firstSeen, now2 - t.firstSeen;
    assert RateTerm(t.requestCount, e2) <= RateTerm(t.requestCount, e1) by {
      if e1 > 0 {
        assert t.requestCount * ONE_MINUTE - 100 * e2 <= t.requestCount * ONE_MINUTE - 100 * e1;
        assert t.requestCount * ONE_MINUTE - 50 * e2 <= t.requestCount * ONE_MINUTE - 50 * e1;
      }
    }
  }

  /** The score is not monotone in the request count: the error-rate term falls as
      requests are added, so two requests with two errors score higher than ten
      requests with two errors. */
  lemma RiskNotMonotoneInRequests()
    ensures
      var few := Threat("ip", 2, 2, 0, [], 0, 0, 0, 0);
      var many := few.(requestCount := 10);
      RiskScore(many, ONE_HOUR) < RiskScore(few, ONE_HOUR)
  {
  }

  /** The first request from a new address (elapsed time zero) already scores 45,
      plus 10 per matched pattern. */
  lemma FirstRequestScore(ip: string, now: int, pats: seq<string>, serial: nat)
    ensures RiskScore(Threat(ip, 1, 0, 0, pats, now, now, 0, serial), now)
         == if 45 + 10 * |pats| < 100 then 45 + 10 * |pats| else 100
  {
  }

  // ---------------------------------------------------------------------------
  // Pattern scan

  /** `suspiciousPatterns.includes(name) || push(name)`. */
  function AddPattern(pats: seq<string>, name: string): seq<string> {
    if name in pats then pats else pats + [name]
  }

  function AddPatterns(pats: seq<string>, names: seq<string>): (r: seq<string>)
    ensures Distinct(pats) ==> Distinct(r)
    ensures |pats| <= |r| && r[..|pats|] == pats
    ensures forall i :: 0 <= i < |names| ==> names[i] in r
    ensures forall i :: 0 <= i < |r| ==> r[i] in pats || r[i] in names
  {
    if names == [] then pats
    else
      var init := AddPatterns(pats, names[..|names| - 1]);
      var r := AddPattern(init, names[|names| - 1]);
      assert forall i :: 0 <= i < |names| - 1 ==> names[i] in names[..|names| - 1] by {
        forall i | 0 <= i < |names| - 1 ensures names[i] in names[..|names| - 1] {
          assert names[..|names| - 1][i] == names[i];
        }
      }
      r
  }

  /** Recording the same matches twice changes nothing the second time. */
  lemma {:induction false} AddPatternsIdempotent(pats: seq<string>, names: seq<string>)
    ensures AddPatterns(AddPatterns(pats, names), names) == AddPatterns(pats, names)
  {
    var once := AddPatterns(pats, names);
    AddPatternsPresent(once, names);
  }

  lemma {:induction false} AddPatternsPresent(pats: seq<string>, names: seq<string>)
    requires forall i :: 0 <= i < |names| ==> names[i] in pats
    ensures AddPatterns(pats, names) == pats
  {
    if names != [] {
      AddPatternsPresent(pats, names[..|names| - 1]);
    }
  }

  datatype Scan = Scan(names: seq<string>, lastIndex: seq<nat>)

  /** Testing the first `n` patterns against `content` in order: the names of those
      that matched and every pattern's `lastIndex` afterwards. */
  function ScanPatterns(search: Searcher, lastIndex: seq<nat>, content: string, n: nat): (r: Scan)
    requires |lastIndex| == |PATTERNS| && n <= |PATTERNS|
    ensures |r.lastIndex| == |PATTERNS|
    ensures r.lastIndex[n..] == lastIndex[n..]
  {
    if n == 0 then Scan([], lastIndex)
    else
      var prev := ScanPatterns(search, lastIndex, content, n - 1);
      var p := n - 1;
      var t := Test(search, p, PATTERNS[p], prev.lastIndex[p], content);
      Scan(prev.names + (if t.matched then [PATTERNS[p].Text()] else []), prev.lastIndex[p := t.lastIndex])
  }

  lemma AddPatternsSnoc(pats: seq<string>, names: seq<string>, name: string)
    ensures AddPatterns(pats, names + [name]) == AddPattern(AddPatterns(pats, names), name)
  {
    assert (names + [name])[..|names|] == names;
  }

  /** A pattern without the `g` flag is reported exactly when the engine finds it from
      the start of the content, whatever earlier requests did. */
  lemma ScanReportsNonGlobal(search: Searcher, lastIndex: seq<nat>, content: string, p: nat)
    requires |lastIndex| == |PATTERNS| && p < |PATTERNS| && !PATTERNS[p].Global()
    ensures PATTERNS[p].Text() in ScanPatterns(search, lastIndex, content, |PATTERNS|).names
        <==> search(p, content, 0).Some?
  {
    ScanSettled(search, lastIndex, content, p, p + 1, |PATTERNS|);
    ScanNamesBelow(search, lastIndex, content, p);
  }

  lemma {:induction false} ScanNamesBelow(search: Searcher, lastIndex: seq<nat>, content: string, n: nat)
    requires |lastIndex| == |PATTERNS| && n <= |PATTERNS|
    ensures forall q :: n <= q < |PATTERNS| ==> PATTERNS[q].Text() !in ScanPatterns(search, lastIndex, content, n).names
  {
    PatternTextsDistinct();
    if n > 0 {
      ScanNamesBelow(search, lastIndex, content, n - 1);
    }
  }

  lemma PatternTextsDistinct()
    ensures forall p, q :: 0 <= p < q < |PATTERNS| ==> PATTERNS[p].Text() != PATTERNS[q].Text()
  {
    assert |PATTERNS[0].Text()| == 60 && |PATTERNS[1].Text()| == 30 && |PATTERNS[2].Text()| == 32;
    assert |PATTERNS[3].Text()| == 9 && |PATTERNS[4].Text()| == 44 && |PATTERNS[5].Text()| == 28;
  }

  /** Testing patterns n..m-1 leaves the state and the report of an earlier pattern alone. */
  lemma {:induction false} ScanSettled(search: Searcher, lastIndex: seq<nat>, content: string, p: nat, n: nat, m: nat)
    requires |lastIndex| == |PATTERNS| && p < n <= m <= |PATTERNS|
    ensures ScanPatterns(search, lastIndex, content, m).lastIndex[p] == ScanPatterns(search, lastIndex, content, n).lastIndex[p]
    ensures PATTERNS[p].Text() in ScanPatterns(search, lastIndex, content, m).names
        <==> PATTERNS[p].Text() in ScanPatterns(search, lastIndex, content, n).names
  {
    if m > n {
      ScanSettled(search, lastIndex, content, p, n, m - 1);
      var prev := ScanPatterns(search, lastIndex, content, m - 1);
      var t := Test(search, m - 1, PATTERNS[m - 1], prev.lastIndex[m - 1], content);
      TextsDiffer(p, m - 1);
      assert ScanPatterns(search, lastIndex, content, m)
          == Scan(prev.names + (if t.matched then [PATTERNS[m - 1].Text()] else []), prev.lastIndex[m - 1 := t.lastIndex]);
    }
  }

  lemma TextsDiffer(p: nat, q: nat)
    requires p < q < |PATTERNS|
    ensures PATTERNS[p].Text() != PATTERNS[q].Text()
  {
    PatternTextsDistinct();
  }

  /** The traversal pattern carries the `g` flag, so its `lastIndex` survives from one
      request to the next: when the only traversal sequence in a content ends at `e`,
      the same content sent again (from any address) is not flagged. */
  lemma TraversalMissedOnRepeat(search: Searcher, lastIndex: seq<nat>, content: string, e: nat)
    requires |lastIndex| == |PATTERNS| && lastIndex[3] == 0
    requires search(3, content, 0) == Some(e) && search(3, content, e) == None
    ensures var first := ScanPatterns(search, lastIndex, content, |PATTERNS|);
      && PATTERNS[3].Text() in first.names
      && PATTERNS[3].Text() !in ScanPatterns(search, first.lastIndex, content, |PATTERNS|).names
  {
    var first := ScanPatterns(search, lastIndex, content, |PATTERNS|);
    ScanSettled(search, lastIndex, content, 3, 4, |PATTERNS|);
    ScanSettled(search, first.lastIndex, content, 3, 4, |PATTERNS|);
    ScanNamesBelow(search, first.lastIndex, content, 3);
  }

  // ---------------------------------------------------------------------------
  // Analysis of one request

  /** `${url} ${userAgent} ${JSON.stringify(body)}`; the body's JSON text is passed in. */
  function Content(req: Request, bodyText: string): string {
    req.url + " " + OrElse(req.userAgent, "") + " " + bodyText
  }

  function NewThreat(ip: string, now: int, serial: nat): Threat {
    Threat(ip, 0, 0, 0, [], now, now, 0, serial)
  }

  /** The record of `ip` before this request, created when missing. */
  function Prior(threats: OrderedMap<string, Threat>, ip: string, now: int, serial: nat): Threat {
    if ip in threats.entries then threats.entries[ip] else NewThreat(ip, now, serial)
  }

  /** The record after `analyzeThreat`: one more request, seen now, the recorded
      pattern names replaced by `pats`, and the score recomputed. */
  function Analyzed(prior: Threat, pats: seq<string>, now: int): (t: Threat)
    ensures t.requestCount == prior.requestCount + 1 && t.lastSeen == now
    ensures t.firstSeen == prior.firstSeen && t.ipAddress == prior.ipAddress && t.serial == prior.serial
    ensures t.errorCount == prior.errorCount && t.authFailures == prior.authFailures
    ensures t.suspiciousPatterns == pats
    ensures t.riskScore == RiskScore(t, now)
  {
    var bumped := prior.(requestCount := prior.requestCount + 1, lastSeen := now, suspiciousPatterns := pats);
    bumped.(riskScore := RiskScore(bumped, now))
  }

  /** Every stored record carries a serial handed out before `next`. */
  predicate SerialsBelow(threats: OrderedMap<string, Threat>, next: nat) {
    forall ip | ip in threats.entries :: threats.entries[ip].serial < next
  }

  datatype Analysis = Analysis(threat: Threat, threats: OrderedMap<string, Threat>, lastIndex: seq<nat>, nextSerial: nat)

  /** The whole effect of `analyzeThreat` on the monitor's state. */
  function Analyze(search: Searcher, threats: OrderedMap<string, Threat>, lastIndex: seq<nat>, nextSerial: nat,
                   req: Request, bodyText: string, now: int): (a: Analysis)
    requires threats.Valid() && |lastIndex| == |PATTERNS|
    ensures a.threats.Valid() && |a.lastIndex| == |PATTERNS|
    ensures a.threats.entries == threats.entries[ClientIp(req) := a.threat]
    ensures var prior := Prior(threats, ClientIp(req), now, nextSerial);
      var scan := ScanPatterns(search, lastIndex, Content(req, bodyText), |PATTERNS|);
      && a.threat.requestCount == prior.requestCount + 1
      && a.threat.suspiciousPatterns == AddPatterns(prior.suspiciousPatterns, scan.names)
      && a.lastIndex == scan.lastIndex
    ensures var ip := ClientIp(req);
      a.threat.serial == (if ip in threats.entries then threats.entries[ip].serial else nextSerial)
    ensures nextSerial <= a.nextSerial
    ensures SerialsBelow(threats, nextSerial) ==> SerialsBelow(a.threats, a.nextSerial)
  {
    var ip := ClientIp(req);
    var scan := ScanPatterns(search, lastIndex, Content(req, bodyText), |PATTERNS|);
    var prior := Prior(threats, ip, now, nextSerial);
    var t := Analyzed(prior, AddPatterns(prior.suspiciousPatterns, scan.names), now);
    Analysis(t, threats.Set(ip, t), scan.lastIndex,
             if ip in threats.entries then nextSerial else nextSerial + 1)
  }

  // ---------------------------------------------------------------------------
  // Blocking

  /** A pending `setTimeout` that unblocks `ip` at time `due`. */
  datatype Timer = Timer(ip: string, due: int)

  /** Node's timer delay: values below 1 or above 2147483647 become 1. */
  function TimerDelay(duration: int): (d: int)
    ensures 1 <= d <= 2147483647
    ensures 1 <= duration <= 2147483647 ==> d == duration
  {
    if duration < 1 || duration > 2147483647 then 1 else duration
  }

  /** `blockedIPs.add(ip)` on the insertion-ordered set. */
  function AddBlocked(blocked: seq<string>, ip: string): seq<string> {
    if ip in blocked then blocked else blocked + [ip]
  }

  /** Adding to the blocked set adds exactly the address, once. */
  lemma AddBlockedFacts(blocked: seq<string>, ip: string)
    ensures Distinct(blocked) ==> Distinct(AddBlocked(blocked, ip))
    ensures forall x :: x in AddBlocked(blocked, ip) <==> x in blocked || x == ip
  {
  }

  function DueIps(timers: seq<Timer>, now: int): set<string> {
    set t | t in timers && t.due <= now :: t.ip
  }

  function PendingTimers(timers: seq<Timer>, now: int): (r: seq<Timer>)
    ensures forall t :: t in r <==> t in timers && t.due > now
  {
    if timers == [] then []
    else PendingTimers(timers[..|timers| - 1], now)
         + (if timers[|timers| - 1].due > now then [timers[|timers| - 1]] else [])
  }

  function WithoutIps(blocked: seq<string>, ips: set<string>): (r: seq<string>)
    ensures Distinct(blocked) ==> Distinct(r)
    ensures forall x :: x in r <==> x in blocked && x !in ips
  {
    if blocked == [] then []
    else
      var init := WithoutIps(blocked[..|blocked| - 1], ips);
      var last := blocked[|blocked| - 1];
      assert forall x :: x in blocked <==> x in blocked[..|blocked| - 1] || x == last by {
        assert blocked == blocked[..|blocked| - 1] + [last];
      }
      init + (if last in ips then [] else [last])
  }

  /** A second block of an address does not cancel the first one's timer: blocking for
      an hour at t0 and again at t0 + 30 min lifts the block at t0 + 60 min. */
  lemma SecondBlockCutShort(ip: string, t0: int)
    ensures
      var half := BLOCK_DURATION / 2;
      var blocked := AddBlocked(AddBlocked([], ip), ip);
      var timers := [Timer(ip, t0 + TimerDelay(BLOCK_DURATION)), Timer(ip, t0 + half + TimerDelay(BLOCK_DURATION))];
      var later := t0 + BLOCK_DURATION;
      ip !in WithoutIps(blocked, DueIps(timers, later))
  {
    var timers := [Timer(ip, t0 + TimerDelay(BLOCK_DURATION)), Timer(ip, t0 + BLOCK_DURATION / 2 + TimerDelay(BLOCK_DURATION))];
    assert timers[0] in timers;
    assert ip in DueIps(timers, t0 + BLOCK_DURATION);
  }

  // ---------------------------------------------------------------------------
  // Anomalies, report and cleanup

  function GlobalAnomalies(m: SecurityMetrics): (r: seq<string>)
    ensures "High request volume detected" in r <==> m.requestCount > MAX_REQUESTS_PER_MINUTE
    ensures "High error rate detected" in r <==> m.errorCount > MAX_ERRORS_PER_MINUTE
    ensures "High authentication failure rate" in r <==> m.authFailures > MAX_AUTH_FAILURES_PER_MINUTE
  {
    (if m.requestCount > MAX_REQUESTS_PER_MINUTE then ["High request volume detected"] else [])
    + (if m.errorCount > MAX_ERRORS_PER_MINUTE then ["High error rate detected"] else [])
    + (if m.authFailures > MAX_AUTH_FAILURES_PER_MINUTE then ["High authentication failure rate"] else [])
  }

  function CriticalMessage(ip: string): string {
    "Critical threat detected from IP: " + ip
  }

  function HighRiskMessage(ip: string): string {
    "High risk activity from IP: " + ip
  }

  function ThreatMessage(ip: string, t: Threat): seq<string> {
    if t.riskScore >= CRITICAL_RISK_SCORE then [CriticalMessage(ip)]
    else if t.riskScore >= HIGH_RISK_SCORE then [HighRiskMessage(ip)]
    else []
  }

  /** The per-address messages, in map order. */
  function ThreatAnomalies(keys: seq<string>, entries: map<string, Threat>): seq<string>
    requires KeysIn(keys, entries)
  {
    if keys == [] then []
    else
      var ip := keys[|keys| - 1];
      ThreatAnomalies(keys[..|keys| - 1], entries) + ThreatMessage(ip, entries[ip])
  }

  /** The addresses that `detectAnomalies` blocks, in map order. */
  function CriticalIps(keys: seq<string>, entries: map<string, Threat>): seq<string>
    requires KeysIn(keys, entries)
  {
    if keys == [] then []
    else
      var ip := keys[|keys| - 1];
      CriticalIps(keys[..|keys| - 1], entries) + (if entries[ip].riskScore >= CRITICAL_RISK_SCORE then [ip] else [])
  }

  lemma {:induction false} CriticalIpsMembers(keys: seq<string>, entries: map<string, Threat>)
    requires KeysIn(keys, entries)
    ensures forall ip :: ip in CriticalIps(keys, entries) <==> ip in keys && entries[ip].riskScore >= CRITICAL_RISK_SCORE
  {
    if keys != [] {
      var init := keys[..|keys| - 1];
      CriticalIpsMembers(init, entries);
      assert keys == init + [keys[|keys| - 1]];
    }
  }

  /** Blocking each address of `ips` in turn. */
  function BlockAll(blocked: seq<string>, ips: seq<string>): seq<string> {
    if ips == [] then blocked
    else AddBlocked(BlockAll(blocked, ips[..|ips| - 1]), ips[|ips| - 1])
  }

  lemma {:induction false} BlockAllFacts(blocked: seq<string>, ips: seq<string>)
    ensures Distinct(blocked) ==> Distinct(BlockAll(blocked, ips))
    ensures forall x :: x in BlockAll(blocked, ips) <==> x in blocked || x in ips
  {
    if ips != [] {
      var init := ips[..|ips| - 1];
      BlockAllFacts(blocked, init);
      AddBlockedFacts(BlockAll(blocked, init), ips[|ips| - 1]);
      assert ips == init + [ips[|ips| - 1]];
    }
  }

  /** One hour-long unblock timer per address, all due at `due`. */
  function TimersFor(ips: seq<string>, due: int): seq<Timer> {
    if ips == [] then [] else TimersFor(ips[..|ips| - 1], due) + [Timer(ips[|ips| - 1], due)]
  }

  /** One more record of the map walk. */
  lemma WalkStep(keys: seq<string>, entries: map<string, Threat>, i: nat)
    requires KeysIn(keys, entries) && i < |keys|
    ensures ThreatAnomalies(keys[..i + 1], entries) == ThreatAnomalies(keys[..i], entries) + ThreatMessage(keys[i], entries[keys[i]])
    ensures CriticalIps(keys[..i + 1], entries)
         == CriticalIps(keys[..i], entries) + (if entries[keys[i]].riskScore >= CRITICAL_RISK_SCORE then [keys[i]] else [])
  {
    assert keys[..i + 1][..i] == keys[..i];
  }

  lemma BlockSnoc(blocked: seq<string>, ips: seq<string>, ip: string, due: int)
    ensures BlockAll(blocked, ips + [ip]) == AddBlocked(BlockAll(blocked, ips), ip)
    ensures TimersFor(ips + [ip], due) == TimersFor(ips, due) + [Timer(ip, due)]
    ensures TimersFor([ip], due) == [Timer(ip, due)] && TimersFor([], due) == []
    ensures ips + [] == ips
  {
    assert (ips + [ip])[..|ips|] == ips;
    assert [ip][..0] == [];
  }

  /** An address is named in a "critical" message exactly when its score reaches 90, and
      in a "high risk" message exactly when its score is in [75, 90). */
  lemma {:induction false} ThreatAnomaliesExact(keys: seq<string>, entries: map<string, Threat>, ip: string)
    requires KeysIn(keys, entries)
    ensures CriticalMessage(ip) in ThreatAnomalies(keys, entries)
        <==> ip in keys && entries[ip].riskScore >= CRITICAL_RISK_SCORE
    ensures HighRiskMessage(ip) in ThreatAnomalies(keys, entries)
        <==> ip in keys && HIGH_RISK_SCORE <= entries[ip].riskScore < CRITICAL_RISK_SCORE
  {
    if keys != [] {
      var init := keys[..|keys| - 1];
      var last := keys[|keys| - 1];
      ThreatAnomaliesExact(init, entries, ip);
      assert keys == init + [last];
      MessagesInjective(ip, last);
      MessagesInjective(last, ip);
    }
  }

  lemma MessagesInjective(a: string, b: string)
    ensures CriticalMessage(a) == CriticalMessage(b) ==> a == b
    ensures HighRiskMessage(a) == HighRiskMessage(b) ==> a == b
    ensures CriticalMessage(a) != HighRiskMessage(b)
  {
    if CriticalMessage(a) == CriticalMessage(b) {
      assert a == CriticalMessage(a)[34..];
    }
    if HighRiskMessage(a) == HighRiskMessage(b) {
      assert a == HighRiskMessage(a)[28..];
    }
    assert CriticalMessage(a)[0] != HighRiskMessage(b)[0];
  }

  predicate IsActive(t: Threat) {
    t.riskScore > ACTIVE_THREAT_SCORE
  }

  function ScoreOf(t: Threat): int {
    t.riskScore
  }

  /** Sorting the active threats keeps exactly the active ones of `values`. */
  lemma SortedActive(values: seq<Threat>)
    ensures forall x :: x in SortDesc(Filter(values, IsActive), ScoreOf) ==> IsActive(x) && x in values
  {
    var hot := Filter(values, IsActive);
    forall x | x in SortDesc(hot, ScoreOf) ensures IsActive(x) && x in values {
      assert x in multiset(hot);
    }
  }

  /** The report's `activeThreats`: scores above 50, highest first, at most ten, each
      active record at most as often as it occurs among the active ones. */
  function ActiveThreats(values: seq<Threat>): (r: seq<Threat>)
    ensures |r| <= REPORT_SIZE
    ensures |r| == if |Filter(values, IsActive)| < REPORT_SIZE then |Filter(values, IsActive)| else REPORT_SIZE
    ensures SortedDesc(r, ScoreOf)
    ensures forall i :: 0 <= i < |r| ==> IsActive(r[i]) && r[i] in values
    ensures multiset(r) <= multiset(Filter(values, IsActive))
  {
    TopActive(values);
    Take(SortDesc(Filter(values, IsActive), ScoreOf), REPORT_SIZE)
  }

  /** The first ten of the sorted active records are sorted, active and drawn from them. */
  lemma TopActive(values: seq<Threat>)
    ensures var hot := Filter(values, IsActive);
      var r := Take(SortDesc(hot, ScoreOf), REPORT_SIZE);
      && SortedDesc(r, ScoreOf)
      && (forall i :: 0 <= i < |r| ==> IsActive(r[i]) && r[i] in values)
      && multiset(r) <= multiset(hot)
  {
    var sorted := SortDesc(Filter(values, IsActive), ScoreOf);
    SortedActive(values);
    TakeFacts(sorted, REPORT_SIZE, ScoreOf);
  }

  /** The report holds the highest scores: an active threat left out scores no more
      than any reported one, and nothing is left out while fewer than ten are active. */
  lemma ActiveThreatsAreTheHighest(values: seq<Threat>, t: Threat)
    requires t in values && IsActive(t) && t !in ActiveThreats(values)
    ensures |ActiveThreats(values)| == REPORT_SIZE
    ensures forall i :: 0 <= i < REPORT_SIZE ==> ActiveThreats(values)[i].riskScore >= t.riskScore
  {
    var hot := Filter(values, IsActive);
    var sorted := SortDesc(hot, ScoreOf);
    var k :| 0 <= k < |values| && values[k] == t;
    assert t in hot;
    assert t in multiset(sorted);
    var j :| 0 <= j < |sorted| && sorted[j] == t;
    assert j >= REPORT_SIZE;
  }

  function Stale(t: Threat, now: int): bool {
    t.lastSeen < now - ONE_HOUR && t.riskScore < ACTIVE_THREAT_SCORE
  }

  function StaleAt(now: int): Threat -> bool {
    t => Stale(t, now)
  }

  /** `cleanup` drops exactly the records last seen more than an hour ago whose score is
      below 50, and keeps the others in their order. */
  function Pruned(threats: OrderedMap<string, Threat>, now: int): (r: OrderedMap<string, Threat>)
    requires threats.Valid()
    ensures forall ip :: ip in r.entries <==> ip in threats.entries && !Stale(threats.entries[ip], now)
    ensures forall ip :: ip in r.entries ==> r.entries[ip] == threats.entries[ip]
  {
    Without(threats, StaleAt(now))
  }

  datatype Ticket = Ticket(ip: string, serial: nat)

  /** What the `res.end` hook adds to the record it captured, if the map still holds it. */
  function CountResponse(threats: OrderedMap<string, Threat>, ticket: Ticket, statusCode: int): (r: OrderedMap<string, Threat>)
    requires threats.Valid()
    ensures r.Valid() && r.keys == threats.keys && r.entries.Keys == threats.entries.Keys
    ensures forall ip :: ip in r.entries && ip != ticket.ip ==> r.entries[ip] == threats.entries[ip]
    ensures ticket.ip in threats.entries && threats.entries[ticket.ip].serial == ticket.serial ==>
      var t, u := threats.entries[ticket.ip], r.entries[ticket.ip];
      && u.errorCount == t.errorCount + (if statusCode >= 400 then 1 else 0)
      && u.authFailures == t.authFailures + (if statusCode == 401 || statusCode == 403 then 1 else 0)
      && u == t.(errorCount := u.errorCount, authFailures := u.authFailures)
    ensures !(ticket.ip in threats.entries && threats.entries[ticket.ip].serial == ticket.serial) ==> r == threats
  {
    if statusCode >= 400 && ticket.ip in threats.entries && threats.entries[ticket.ip].serial == ticket.serial then
      var t := threats.entries[ticket.ip];
      var authFailure := statusCode == 401 || statusCode == 403;
      threats.Set(ticket.ip, t.(errorCount := t.errorCount + 1,
                                authFailures := if authFailure then t.authFailures + 1 else t.authFailures))
    else threats
  }

  /** The ticket a request takes does not reach a record created for its address
      later, once the first was deleted: the serial it carries was handed out before
      the counter moved on, and the new record's serial is the counter at its creation. */
  lemma RecreatedRecordIgnoresTicket(search: Searcher, threats: OrderedMap<string, Threat>, lastIndex: seq<nat>,
                                     nextSerial: nat, req: Request, bodyText: string, now: int,
                                     later: OrderedMap<string, Threat>, laterIndex: seq<nat>, laterSerial: nat,
                                     again: Request, againText: string, againNow: int, statusCode: int)
    requires threats.Valid() && |lastIndex| == |PATTERNS| && SerialsBelow(threats, nextSerial)
    requires later.Valid() && |laterIndex| == |PATTERNS|
    requires Analyze(search, threats, lastIndex, nextSerial, req, bodyText, now).nextSerial <= laterSerial
    requires ClientIp(again) == ClientIp(req) && ClientIp(req) !in later.entries
    ensures var a := Analyze(search, threats, lastIndex, nextSerial, req, bodyText, now);
      var b := Analyze(search, later, laterIndex, laterSerial, again, againText, againNow);
      CountResponse(b.threats, Ticket(ClientIp(req), a.threat.serial), statusCode) == b.threats
  {
    var ip := ClientIp(req);
    var a := Analyze(search, threats, lastIndex, nextSerial, req, bodyText, now);
    var b := Analyze(search, later, laterIndex, laterSerial, again, againText, againNow);
    assert a.threats.entries[ip] == a.threat;
    assert a.threat.serial < laterSerial;
    assert b.threats.entries[ip].serial == laterSerial;
  }

  function ThreatJson(t: Threat): Json.Value {
    Json.Obj([
      ("ipAddress", Json.Str(t.ipAddress)),
      ("requestCount", Json.Num(t.requestCount as real)),
      ("errorCount", Json.Num(t.errorCount as real)),
      ("authFailures", Json.Num(t.authFailures as real)),
      ("suspiciousPatterns", Json.Arr(seq(|t.suspiciousPatterns|, i requires 0 <= i < |t.suspiciousPatterns| => Json.Str(t.suspiciousPatterns[i])))),
      ("firstSeen", Json.Num(t.firstSeen as real)),
      ("lastSeen", Json.Num(t.lastSeen as real)),
      ("riskScore", Json.Num(t.riskScore as real))])
  }

  datatype Report = Report(
    metrics: SecurityMetrics,
    blockedIPs: seq<string>,
    activeThreats: seq<Threat>,
    totalThreats: nat,
    anomalies: seq<string>)

  /** `isHighRiskIP`: the address has a record scoring at least 75. */
  predicate HighRisk(threats: OrderedMap<string, Threat>, ip: string) {
    ip in threats.entries && threats.entries[ip].riskScore >= HIGH_RISK_SCORE
  }

  /** `shouldBlockIP`: the address is blocked or high-risk. */
  predicate Blocks(blocked: seq<string>, threats: OrderedMap<string, Threat>, ip: string) {
    ip in blocked || HighRisk(threats, ip)
  }

  class SecurityMonitor {
    const search: Searcher
    var metrics: SecurityMetrics
    var threats: OrderedMap<string, Threat>
    /** `blockedIPs`, in insertion order. */
    var blocked: seq<string>
    /** The unblock callbacks still to fire. */
    var timers: seq<Timer>
    /** The `lastIndex` of each pattern object. */
    var lastIndex: seq<nat>
    var nextSerial: nat

    predicate Valid()
      reads this`threats, this`blocked, this`lastIndex, this`nextSerial
    {
      && threats.Valid()
      && Distinct(blocked)
      && |lastIndex| == |PATTERNS|
      && (forall ip | ip in threats.entries :: threats.entries[ip].ipAddress == ip)
      && SerialsBelow(threats, nextSerial)
    }

    constructor (search: Searcher, now: int)
      ensures Valid()
      ensures this.search == search && metrics == FreshMetrics(now)
      ensures threats == Empty() && blocked == [] && timers == [] && lastIndex == [0, 0, 0, 0, 0, 0]
    {
      this.search := search;
      metrics := FreshMetrics(now);
      threats := Empty();
      blocked := [];
      timers := [];
      lastIndex := [0, 0, 0, 0, 0, 0];
      nextSerial := 0;
    }

    method UpdateMetrics(c: Counter, now: int)
      requires Valid()
      modifies this`metrics
      ensures Valid()
      ensures metrics == Bump(old(metrics), c, now)
    {
      match c {
        case RequestCount => metrics := metrics.(requestCount := metrics.requestCount + 1);
        case ErrorCount => metrics := metrics.(errorCount := metrics.errorCount + 1);
        case AuthFailures => metrics := metrics.(authFailures := metrics.authFailures + 1);
        case SuspiciousActivity => metrics := metrics.(suspiciousActivity := metrics.suspiciousActivity + 1);
      }
      if now - metrics.lastReset > ONE_MINUTE {
        metrics := FreshMetrics(now);
      }
    }

    /** `analyzeThreat`: find or create the address's record, count the request, test
        every pattern against the content, and rescore. */
    method AnalyzeThreat(req: Request, bodyText: string, now: int) returns (t: Threat)
      requires Valid()
      modifies this`threats, this`lastIndex, this`nextSerial
      ensures Valid()
      ensures Analysis(t, threats, lastIndex, nextSerial)
           == Analyze(search, old(threats), old(lastIndex), old(nextSerial), req, bodyText, now)
    {
      ghost var a := Analyze(search, threats, lastIndex, nextSerial, req, bodyText, now);
      var ip := ClientIp(req);
      var prior := Prior(threats, ip, now, nextSerial);
      var serial := if ip in threats.entries then nextSerial else nextSerial + 1;
      var pats := RecordMatches(Content(req, bodyText), prior.suspiciousPatterns);
      t := Analyzed(prior, pats, now);
      threats := threats.Set(ip, t);
      nextSerial := serial;
      assert Analysis(t, threats, lastIndex, nextSerial) == a;
    }

    /** The pattern loop of `analyzeThreat`: test each pattern in turn and append the
        name of each one that matched and is not yet recorded. */
    method RecordMatches(content: string, recorded: seq<string>) returns (pats: seq<string>)
      requires |lastIndex| == |PATTERNS|
      modifies this`lastIndex
      ensures var scan := ScanPatterns(search, old(lastIndex), content, |PATTERNS|);
        pats == AddPatterns(recorded, scan.names) && lastIndex == scan.lastIndex
    {
      pats := recorded;
      var p := 0;
      while p < |PATTERNS|
        invariant 0 <= p <= |PATTERNS| && |lastIndex| == |PATTERNS|
        invariant lastIndex == ScanPatterns(search, old(lastIndex), content, p).lastIndex
        invariant pats == AddPatterns(recorded, ScanPatterns(search, old(lastIndex), content, p).names)
      {
        var tested := Test(search, p, PATTERNS[p], lastIndex[p], content);
        ghost var before := ScanPatterns(search, old(lastIndex), content, p);
        lastIndex := lastIndex[p := tested.lastIndex];
        if tested.matched {
          var name := PATTERNS[p].Text();
          AddPatternsSnoc(recorded, before.names, name);
          if name !in pats {
            pats := pats + [name];
          }
        } else {
          assert before.names + [] == before.names;
        }
        p := p + 1;
      }
    }

    predicate IsHighRiskIP(ip: string)
      reads this`threats
    {
      HighRisk(threats, ip)
    }

    predicate ShouldBlockIP(ip: string)
      reads this`threats, this`blocked
    {
      Blocks(blocked, threats, ip)
    }

    /** `blockIP`: add to the blocked set and schedule the removal. */
    method BlockIP(ip: string, duration: int, now: int)
      modifies this`blocked, this`timers
      ensures blocked == AddBlocked(old(blocked), ip)
      ensures timers == old(timers) + [Timer(ip, now + TimerDelay(duration))]
    {
      if ip !in blocked {
        blocked := blocked + [ip];
      }
      timers := timers + [Timer(ip, now + TimerDelay(duration))];
    }

    /** The event loop running every unblock callback whose time has come. */
    method ExpireBlocks(now: int)
      requires Distinct(blocked)
      modifies this`blocked, this`timers
      ensures Distinct(blocked)
      ensures blocked == WithoutIps(old(blocked), DueIps(old(timers), now))
      ensures timers == PendingTimers(old(timers), now)
    {
      blocked := WithoutIps(blocked, DueIps(timers, now));
      timers := PendingTimers(timers, now);
    }

    /** `detectAnomalies`: the global counters, then every record in map order; a
        critical record's address is blocked for an hour. */
    method DetectAnomalies(now: int) returns (anomalies: seq<string>)
      requires Valid()
      modifies this`blocked, this`timers
      ensures Valid()
      ensures anomalies == GlobalAnomalies(metrics) + ThreatAnomalies(threats.keys, threats.entries)
      ensures blocked == BlockAll(old(blocked), CriticalIps(threats.keys, threats.entries))
      ensures timers == old(timers) + TimersFor(CriticalIps(threats.keys, threats.entries), now + TimerDelay(BLOCK_DURATION))
      ensures forall ip :: ip in threats.entries && threats.entries[ip].riskScore >= CRITICAL_RISK_SCORE ==> ip in blocked
    {
      anomalies := GlobalAnomalies(metrics);
      ghost var global := anomalies;
      ghost var due := now + TimerDelay(BLOCK_DURATION);
      var keys := threats.keys;
      var entries := threats.entries;
      ghost var critical: seq<string> := [];
      var i := 0;
      assert keys[..0] == [];
      RightUnit(global);
      RightUnit(timers);
      while i < |keys|
        invariant 0 <= i <= |keys|
        invariant critical == CriticalIps(keys[..i], entries)
        invariant anomalies == global + ThreatAnomalies(keys[..i], entries)
        invariant blocked == BlockAll(old(blocked), critical)
        invariant timers == old(timers) + TimersFor(critical, due)
      {
        var ip := keys[i];
        var t := entries[ip];
        WalkStep(keys, entries, i);
        ghost var crit := if t.riskScore >= CRITICAL_RISK_SCORE then [ip] else [];
        Associative(global, ThreatAnomalies(keys[..i], entries), ThreatMessage(ip, t));
        Associative(old(timers), TimersFor(critical, due), TimersFor(crit, due));
        BlockSnoc(old(blocked), critical, ip, due);
        var message := CheckThreat(ip, t, now);
        anomalies := anomalies + message;
        critical := critical + crit;
        i := i + 1;
      }
      assert keys[..i] == keys;
      BlockAllFacts(old(blocked), CriticalIps(keys, entries));
      CriticalIpsMembers(keys, entries);
    }

    /** One record of the `detectAnomalies` walk. */
    method CheckThreat(ip: string, t: Threat, now: int) returns (message: seq<string>)
      modifies this`blocked, this`timers
      ensures message == ThreatMessage(ip, t)
      ensures t.riskScore >= CRITICAL_RISK_SCORE ==>
        blocked == AddBlocked(old(blocked), ip) && timers == old(timers) + [Timer(ip, now + TimerDelay(BLOCK_DURATION))]
      ensures t.riskScore < CRITICAL_RISK_SCORE ==> blocked == old(blocked) && timers == old(timers)
    {
      if t.riskScore >= CRITICAL_RISK_SCORE {
        message := [CriticalMessage(ip)];
        BlockIP(ip, BLOCK_DURATION, now);
      } else if t.riskScore >= HIGH_RISK_SCORE {
        message := [HighRiskMessage(ip)];
      } else {
        message := [];
      }
    }

    /** `getSecurityReport`: the blocked list is read before the anomaly pass blocks
        any new address. */
    method GetSecurityReport(now: int) returns (r: Report)
      requires Valid()
      modifies this`blocked, this`timers
      ensures Valid()
      ensures r.metrics == metrics && r.blockedIPs == old(blocked)
      ensures r.activeThreats == ActiveThreats(threats.Values())
      ensures r.totalThreats == |threats.entries|
      ensures r.anomalies == GlobalAnomalies(metrics) + ThreatAnomalies(threats.keys, threats.entries)
      ensures blocked == BlockAll(old(blocked), CriticalIps(threats.keys, threats.entries))
      ensures timers == old(timers) + TimersFor(CriticalIps(threats.keys, threats.entries), now + TimerDelay(BLOCK_DURATION))
    {
      var snapshot := blocked;
      var active := ActiveThreats(threats.Values());
      var total := threats.Size();
      var anomalies := DetectAnomalies(now);
      r := Report(metrics, snapshot, active, total, anomalies);
    }

    /** `cleanup`: walk the records in map order, deleting the stale ones. */
    method Cleanup(now: int)
      requires Valid()
      modifies this`threats
      ensures Valid()
      ensures threats == Pruned(old(threats), now)
    {
      threats := DeleteWhere(threats, StaleAt(now));
    }

    /** `securityMiddleware`: refuse a blocked or high-risk address; otherwise analyze
        the request, count it, log it when its score is at least 70, and pass it on. The
        ticket is what the response hook captured. */
    method SecurityMiddleware(req: Request, bodyText: string, now: int)
      returns (reply: Reply, ticket: Option<Ticket>, logged: seq<Audit.AuditEvent>)
      requires Valid()
      modifies this`threats, this`lastIndex, this`nextSerial, this`metrics
      ensures Valid()
      ensures var ip := ClientIp(req);
        Blocks(old(blocked), old(threats), ip) ==>
          && reply == Respond(403, "ACCESS_DENIED") && ticket == None
          && logged == [Audit.SecurityEvent(req, "BLOCKED_IP_ACCESS", Json.Obj([("ip", Json.Str(ip))]), Some(Audit.CRITICAL))]
          && threats == old(threats) && lastIndex == old(lastIndex) && nextSerial == old(nextSerial)
          && metrics == old(metrics)
      ensures var ip := ClientIp(req);
        !Blocks(old(blocked), old(threats), ip) ==>
          var a := Analyze(search, old(threats), old(lastIndex), old(nextSerial), req, bodyText, now);
          && reply == Next && ticket == Some(Ticket(ip, a.threat.serial))
          && threats == a.threats && lastIndex == a.lastIndex && nextSerial == a.nextSerial
          && metrics == Bump(old(metrics), RequestCount, now)
          && logged == (if a.threat.riskScore >= HIGH_RISK_LOG_SCORE then [HighRiskEvent(req, a.threat)] else [])
    {
      var ip := ClientIp(req);
      if ShouldBlockIP(ip) {
        logged := [Audit.SecurityEvent(req, "BLOCKED_IP_ACCESS", Json.Obj([("ip", Json.Str(ip))]), Some(Audit.CRITICAL))];
        return Respond(403, "ACCESS_DENIED"), None, logged;
      }
      ghost var a := Analyze(search, threats, lastIndex, nextSerial, req, bodyText, now);
      var t := AnalyzeAndCount(req, bodyText, now);
      assert t == a.threat && threats == a.threats && lastIndex == a.lastIndex && nextSerial == a.nextSerial;
      logged := if t.riskScore >= HIGH_RISK_LOG_SCORE then [HighRiskEvent(req, t)] else [];
      reply, ticket := Next, Some(Ticket(ip, t.serial));
    }

    /** The admitted path of `securityMiddleware`: analyze, then count the request. */
    method AnalyzeAndCount(req: Request, bodyText: string, now: int) returns (t: Threat)
      requires Valid()
      modifies this`threats, this`lastIndex, this`nextSerial, this`metrics
      ensures Valid()
      ensures Analysis(t, threats, lastIndex, nextSerial)
           == Analyze(search, old(threats), old(lastIndex), old(nextSerial), req, bodyText, now)
      ensures metrics == Bump(old(metrics), RequestCount, now)
    {
      t := AnalyzeThreat(req, bodyText, now);
      UpdateMetrics(RequestCount, now);
    }

    /** The `res.end` hook: an error status counts an error, 401 and 403 also an
        authentication failure, in the global counters and in the captured record. */
    method OnResponseEnd(ticket: Ticket, statusCode: int, now: int)
      requires Valid()
      modifies this`threats, this`metrics
      ensures Valid()
      ensures threats == CountResponse(old(threats), ticket, statusCode)
      ensures metrics == if statusCode < 400 then old(metrics)
        else if statusCode == 401 || statusCode == 403 then Bump(Bump(old(metrics), ErrorCount, now), AuthFailures, now)
        else Bump(old(metrics), ErrorCount, now)
    {
      if statusCode >= 400 {
        UpdateMetrics(ErrorCount, now);
        if statusCode == 401 || statusCode == 403 {
          UpdateMetrics(AuthFailures, now);
        }
      }
      threats := CountResponse(threats, ticket, statusCode);
    }

    /** `authThreatDetection`: analyze the request; five or more recorded
        authentication failures block the address for 15 minutes and refuse with 429. */
    method AuthThreatDetection(req: Request, bodyText: string, now: int) returns (reply: Reply, logged: seq<Audit.AuditEvent>)
      requires Valid()
      modifies this`threats, this`lastIndex, this`nextSerial, this`blocked, this`timers
      ensures Valid()
      ensures var ip := ClientIp(req);
        var a := Analyze(search, old(threats), old(lastIndex), old(nextSerial), req, bodyText, now);
        && threats == a.threats && lastIndex == a.lastIndex && nextSerial == a.nextSerial
        && (a.threat.authFailures >= 5 ==>
              && reply == Respond(429, "AUTH_RATE_LIMITED")
              && logged == [BruteForceEvent(req, a.threat)]
              && blocked == AddBlocked(old(blocked), ip)
              && timers == old(timers) + [Timer(ip, now + AUTH_BLOCK_DURATION)]
              && ShouldBlockIP(ip))
        && (a.threat.authFailures < 5 ==>
              reply == Next && logged == [] && blocked == old(blocked) && timers == old(timers))
    {
      ghost var a := Analyze(search, threats, lastIndex, nextSerial, req, bodyText, now);
      var t := AnalyzeThreat(req, bodyText, now);
      assert t == a.threat && threats == a.threats && lastIndex == a.lastIndex && nextSerial == a.nextSerial;
      reply, logged := RefuseBruteForce(req, t, now);
    }

    /** The check after the analysis in `authThreatDetection`: five or more recorded
        authentication failures log a CRITICAL event, block the address for 15
        minutes and refuse with 429; otherwise the request goes on. */
    method RefuseBruteForce(req: Request, t: Threat, now: int) returns (reply: Reply, logged: seq<Audit.AuditEvent>)
      requires Distinct(blocked)
      modifies this`blocked, this`timers
      ensures Distinct(blocked)
      ensures var ip := ClientIp(req);
        && (t.authFailures >= 5 ==>
              && reply == Respond(429, "AUTH_RATE_LIMITED")
              && logged == [BruteForceEvent(req, t)]
              && blocked == AddBlocked(old(blocked), ip) && ip in blocked
              && timers == old(timers) + [Timer(ip, now + AUTH_BLOCK_DURATION)])
        && (t.authFailures < 5 ==>
              reply == Next && logged == [] && blocked == old(blocked) && timers == old(timers))
    {
      var ip := ClientIp(req);
      if t.authFailures >= 5 {
        logged := [BruteForceEvent(req, t)];
        AddBlockedFacts(blocked, ip);
        BlockIP(ip, AUTH_BLOCK_DURATION, now);
        reply := Respond(429, "AUTH_RATE_LIMITED");
      } else {
        reply, logged := Next, [];
      }
    }
  }

  function HighRiskEvent(req: Request, t: Threat): Audit.AuditEvent {
    Audit.SecurityEvent(req, "HIGH_RISK_REQUEST", Json.Obj([
      ("riskScore", Json.Num(t.riskScore as real)),
      ("suspiciousPatterns", Json.Arr(seq(|t.suspiciousPatterns|, i requires 0 <= i < |t.suspiciousPatterns| => Json.Str(t.suspiciousPatterns[i])))),
      ("threatData", ThreatJson(t))]), Some(Audit.HIGH))
  }

  function BruteForceEvent(req: Request, t: Threat): Audit.AuditEvent {
    Audit.SecurityEvent(req, "BRUTE_FORCE_ATTEMPT", Json.Obj([
      ("ip", Json.Str(ClientIp(req))),
      ("authFailures", Json.Num(t.authFailures as real)),
      ("riskScore", Json.Num(t.riskScore as real))]), Some(Audit.CRITICAL))
  }
}
