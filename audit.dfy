/** The audit logger: the audit-event builders, the risk level of an API request, and
    the log directory it appends to, rotates and prunes. The directory is a map from
    file name to the file's entries and size in bytes; the date in a file name, the
    ISO timestamp and the random event id are parameters, and the serialized length
    of an entry is passed in with it. */
module Audit {
  import opened Wrappers
  import opened Strings
  import opened Http
  import Json

  datatype RiskLevel = LOW | MEDIUM | HIGH | CRITICAL
  datatype Status = SUCCESS | FAILURE | ERROR
  datatype Compliance = Compliance(pciDss: bool, sox: bool, gdpr: bool)

  datatype AuditEvent = AuditEvent(
    userId: Option<int>,
    username: Option<string>,
    sessionId: Option<string>,
    action: string,
    resourceType: string,
    resourceId: Option<string>,
    ipAddress: string,
    userAgent: string,
    httpMethod: string,
    endpoint: string,
    status: Status,
    statusCode: int,
    details: Option<Json.Value>,
    riskLevel: RiskLevel,
    compliance: Compliance)

  /** An event as written: stamped with the time and a generated id. */
  datatype StampedEvent = StampedEvent(timestamp: string, eventId: string, event: AuditEvent)

  const MAX_LOG_FILES: nat := 365
  const MAX_FILE_SIZE: nat := 100 * 1024 * 1024

  /** Every builder tags its event for all three regimes. */
  const ALL_REGIMES := Compliance(true, true, true)

  predicate IsMutatingMethod(m: string) {
    m == "POST" || m == "PUT" || m == "PATCH" || m == "DELETE"
  }

  /** The risk level of an API request; the first rule that applies wins. */
  function DetermineRiskLevel(path: string, httpMethod: string, statusCode: int): (r: RiskLevel)
    ensures Contains(path, "/auth") ==> r == MEDIUM
    ensures !Contains(path, "/auth") && Contains(path, "/admin") ==> r == HIGH
    ensures !Contains(path, "/auth") && !Contains(path, "/admin") && statusCode >= 400 ==> r == HIGH
    ensures r == LOW <==>
      !Contains(path, "/auth") && !Contains(path, "/admin") && statusCode < 400 && !IsMutatingMethod(httpMethod)
    ensures r != CRITICAL
  {
    if Contains(path, "/auth") then MEDIUM
    else if Contains(path, "/admin") then HIGH
    else if statusCode >= 400 then HIGH
    else if IsMutatingMethod(httpMethod) then MEDIUM
    else LOW
  }

  /** An authentication path outranks everything else: a failed admin request under
      "/auth" is still only MEDIUM. */
  lemma AuthPathOutranksFailure(path: string, httpMethod: string, statusCode: int)
    requires Contains(path, "/auth") && Contains(path, "/admin") && statusCode >= 500
    ensures DetermineRiskLevel(path, httpMethod, statusCode) == MEDIUM
  {
  }

  function AgentOf(req: Request): string {
    OrElse(req.userAgent, "unknown")
  }

  function AuthenticationAttempt(req: Request, success: bool, userId: Option<int>, username: Option<string>): (e: AuditEvent)
    ensures e.action == (if success then "LOGIN_SUCCESS" else "LOGIN_FAILURE")
    ensures e.resourceType == "AUTHENTICATION"
    ensures e.status == (if success then SUCCESS else FAILURE)
    ensures e.statusCode == (if success then 200 else 401)
    ensures e.riskLevel == (if success then LOW else MEDIUM)
    ensures e.userId == userId && e.username == username && e.compliance == ALL_REGIMES
    ensures e.ipAddress == ClientIp(req) && e.endpoint == req.path
  {
    AuditEvent(userId, username, None,
      if success then "LOGIN_SUCCESS" else "LOGIN_FAILURE", "AUTHENTICATION", None,
      ClientIp(req), AgentOf(req), req.httpMethod, req.path,
      if success then SUCCESS else FAILURE, if success then 200 else 401,
      None, if success then LOW else MEDIUM, ALL_REGIMES)
  }

  function DataAccess(req: Request, resourceType: string, resourceId: string, userId: Option<int>): (e: AuditEvent)
    ensures e.action == "DATA_ACCESS" && e.resourceType == ToUpper(resourceType)
    ensures e.resourceId == Some(resourceId) && e.userId == userId
    ensures e.status == SUCCESS && e.statusCode == 200 && e.riskLevel == LOW
    ensures e.details.None? && e.compliance == ALL_REGIMES
  {
    AuditEvent(userId, None, None, "DATA_ACCESS", ToUpper(resourceType), Some(resourceId),
      ClientIp(req), AgentOf(req), req.httpMethod, req.path,
      SUCCESS, 200, None, LOW, ALL_REGIMES)
  }

  function DataModification(req: Request, resourceType: string, resourceId: string, userId: Option<int>,
                            changes: Option<Json.Value>): (e: AuditEvent)
    ensures e.action == "DATA_MODIFICATION" && e.resourceType == ToUpper(resourceType)
    ensures e.resourceId == Some(resourceId) && e.userId == userId
    ensures e.status == SUCCESS && e.statusCode == 200 && e.riskLevel == MEDIUM
    ensures e.details == changes && e.compliance == ALL_REGIMES
  {
    AuditEvent(userId, None, None, "DATA_MODIFICATION", ToUpper(resourceType), Some(resourceId),
      ClientIp(req), AgentOf(req), req.httpMethod, req.path,
      SUCCESS, 200, changes, MEDIUM, ALL_REGIMES)
  }

  /** `logSecurityEvent`; an omitted risk level defaults to HIGH. */
  function SecurityEvent(req: Request, eventType: string, details: Json.Value, riskLevel: Option<RiskLevel>): (e: AuditEvent)
    ensures e.action == "SECURITY_" + ToUpper(eventType) && e.resourceType == "SECURITY"
    ensures e.status == ERROR && e.statusCode == 403
    ensures e.riskLevel == riskLevel.GetOr(HIGH)
    ensures e.userId.None? && e.details == Some(details) && e.compliance == ALL_REGIMES
  {
    AuditEvent(None, None, None, "SECURITY_" + ToUpper(eventType), "SECURITY", None,
      ClientIp(req), AgentOf(req), req.httpMethod, req.path,
      ERROR, 403, Some(details), riskLevel.GetOr(HIGH), ALL_REGIMES)
  }

  /** `logApiRequest`, written by the audit middleware when a response finishes. */
  function ApiRequest(req: Request, statusCode: int, userId: Option<int>, sessionId: Option<string>): (e: AuditEvent)
    ensures e.action == "API_REQUEST" && e.resourceType == "API"
    ensures e.status == ERROR <==> statusCode >= 400
    ensures e.status == SUCCESS <==> statusCode < 400
    ensures e.statusCode == statusCode
    ensures e.riskLevel == DetermineRiskLevel(req.path, req.httpMethod, statusCode)
    ensures e.userId == userId && e.sessionId == sessionId && e.compliance == ALL_REGIMES
  {
    AuditEvent(userId, None, sessionId, "API_REQUEST", "API", None,
      ClientIp(req), AgentOf(req), req.httpMethod, req.path,
      if statusCode >= 400 then ERROR else SUCCESS, statusCode, None,
      DetermineRiskLevel(req.path, req.httpMethod, statusCode), ALL_REGIMES)
  }

  /** Only a security event can carry the CRITICAL level. */
  lemma OnlySecurityEventsAreCritical(req: Request, b: bool, u: Option<int>, n: Option<string>, t: string,
                                      id: string, c: Option<Json.Value>, code: int, s: Option<string>)
    ensures AuthenticationAttempt(req, b, u, n).riskLevel != CRITICAL
    ensures DataAccess(req, t, id, u).riskLevel != CRITICAL
    ensures DataModification(req, t, id, u, c).riskLevel != CRITICAL
    ensures ApiRequest(req, code, u, s).riskLevel != CRITICAL
  {
  }

  // ---------------------------------------------------------------------------
  // File names, rotation and retention

  function LogFileName(day: string): (name: string)
    ensures StartsWith(name, "audit-") && EndsWith(name, ".log")
  {
    "audit-" + day + ".log"
  }

  /** `filePath.replace('.log', '-' + timestamp + '.log')`: the first ".log" gains the
      rotation timestamp. */
  function RotatedName(name: string, now: nat): string {
    ReplaceFirst(name, ".log", "-" + NatToString(now) + ".log")
  }

  /** For a day string without ".log" in it, the rotated name keeps the day and puts the
      timestamp just before the extension. */
  lemma RotatedNameOfDailyFile(day: string, now: nat)
    requires IndexOf(day + ".log", ".log") == Some(|day|)
    ensures RotatedName(LogFileName(day), now) == "audit-" + day + "-" + NatToString(now) + ".log"
    ensures RotatedName(LogFileName(day), now) != LogFileName(day)
  {
    var name := LogFileName(day);
    assert name == "audit-" + (day + ".log");
    IndexAfterPrefix("audit-", day + ".log", ".log", |day|);
    var rotated := RotatedName(name, now);
    assert rotated == name[..6 + |day|] + ("-" + NatToString(now) + ".log") + name[6 + |day| + 4..];
    assert name[..6 + |day|] == "audit-" + day;
    assert name[6 + |day| + 4..] == [];
    assert |rotated| == |name| + 1 + |NatToString(now)|;
  }

  /** The source rewrites the whole path `<dir>/<name>`. When the directory holds no '.',
      that agrees with rewriting the file name alone inside the same directory. */
  lemma RotatedPathInDirectory(dir: string, name: string, now: nat)
    requires forall j :: 0 <= j < |dir| ==> dir[j] != '.'
    requires IndexOf(name, ".log").Some?
    ensures ReplaceFirst(dir + "/" + name, ".log", "-" + NatToString(now) + ".log")
         == dir + "/" + RotatedName(name, now)
  {
    var k := IndexOf(name, ".log").value;
    var p := dir + "/";
    IndexAfterPrefix(p, name, ".log", k);
    assert dir + "/" + name == p + name;
    var rep := "-" + NatToString(now) + ".log";
    assert (p + name)[..|p| + k] == p + name[..k];
    assert (p + name)[|p| + k + 4..] == name[k + 4..];
    calc {
      ReplaceFirst(p + name, ".log", rep);
      (p + name)[..|p| + k] + rep + (p + name)[|p| + k + 4..];
      p + name[..k] + rep + name[k + 4..];
      { assert p + name[..k] + rep + name[k + 4..] == p + (name[..k] + rep + name[k + 4..]); }
      p + RotatedName(name, now);
    }
  }

  datatype LogFile = LogFile(entries: seq<StampedEvent>, size: nat)

  /** `rotateLogIfNeeded`: a file strictly larger than the ceiling is renamed; a missing
      file is left alone. */
  function Rotate(dir: map<string, LogFile>, name: string, now: nat): (r: map<string, LogFile>)
    ensures name !in dir || dir[name].size <= MAX_FILE_SIZE ==> r == dir
    ensures name in dir && dir[name].size > MAX_FILE_SIZE && RotatedName(name, now) != name ==>
      name !in r && RotatedName(name, now) in r && r[RotatedName(name, now)] == dir[name]
      && forall f :: f != name && f != RotatedName(name, now) ==> (f in r <==> f in dir) && (f in r ==> r[f] == dir[f])
  {
    if name in dir && dir[name].size > MAX_FILE_SIZE then
      var target := RotatedName(name, now);
      if target == name then dir else (dir - {name})[target := dir[name]]
    else dir
  }

  /** `fs.appendFile`: creates the file when it is missing. */
  function Append(dir: map<string, LogFile>, name: string, e: StampedEvent, bytes: nat): (r: map<string, LogFile>)
    ensures name in r
    ensures r[name].entries == (if name in dir then dir[name].entries else []) + [e]
    ensures r[name].size == (if name in dir then dir[name].size else 0) + bytes
    ensures forall f :: f != name ==> (f in r <==> f in dir) && (f in r ==> r[f] == dir[f])
  {
    var prior := if name in dir then dir[name] else LogFile([], 0);
    dir[name := LogFile(prior.entries + [e], prior.size + bytes)]
  }

  /** Rotation trigger: once a day's file is over the ceiling, the next write moves its
      whole content to the rotated name and starts the file afresh with the new entry. */
  lemma RotationPreservesContent(dir: map<string, LogFile>, day: string, now: nat, e: StampedEvent, bytes: nat)
    requires IndexOf(day + ".log", ".log") == Some(|day|)
    requires LogFileName(day) in dir && dir[LogFileName(day)].size > MAX_FILE_SIZE
    ensures var r := Append(Rotate(dir, LogFileName(day), now), LogFileName(day), e, bytes);
      && r[LogFileName(day)].entries == [e]
      && r[RotatedName(LogFileName(day), now)] == dir[LogFileName(day)]
  {
    RotatedNameOfDailyFile(day, now);
  }

  predicate IsAuditLog(f: string) {
    StartsWith(f, "audit-") && EndsWith(f, ".log")
  }

  /** The default `Array.prototype.sort` order on strings (by character codes). */
  predicate LexLess(a: string, b: string) {
    if a == [] then b != []
    else if b == [] then false
    else if a[0] != b[0] then a[0] < b[0]
    else LexLess(a[1..], b[1..])
  }

  lemma {:induction false} LexIrreflexive(a: string)
    ensures !LexLess(a, a)
  {
    if a != [] {
      LexIrreflexive(a[1..]);
    }
  }

  lemma {:induction false} LexAsymmetric(a: string, b: string)
    requires LexLess(a, b)
    ensures !LexLess(b, a)
  {
    if a != [] && b != [] && a[0] == b[0] {
      LexAsymmetric(a[1..], b[1..]);
    }
  }

  lemma {:induction false} LexTransitive(a: string, b: string, c: string)
    requires LexLess(a, b) && LexLess(b, c)
    ensures LexLess(a, c)
  {
    if a != [] && b != [] && c != [] && a[0] == b[0] && b[0] == c[0] {
      LexTransitive(a[1..], b[1..], c[1..]);
    }
  }

  lemma {:induction false} LexTotal(a: string, b: string)
    requires a != b
    ensures LexLess(a, b) || LexLess(b, a)
  {
    if a != [] && b != [] && a[0] == b[0] {
      assert a == [a[0]] + a[1..] && b == [b[0]] + b[1..];
      LexTotal(a[1..], b[1..]);
    }
  }

  predicate StrictlyAscending(s: seq<string>) {
    forall i, j :: 0 <= i < j < |s| ==> LexLess(s[i], s[j])
  }

  function InsertName(x: string, s: seq<string>): (r: seq<string>)
    requires StrictlyAscending(s) && x !in s
    ensures StrictlyAscending(r)
    ensures multiset(r) == multiset(s) + multiset{x}
  {
    if s == [] then [x]
    else if LexLess(x, s[0]) then
      assert forall j :: 0 <= j < |s| ==> LexLess(x, s[j]) by {
        forall j | 0 < j < |s| ensures LexLess(x, s[j]) {
          LexTransitive(x, s[0], s[j]);
        }
      }
      [x] + s
    else
      LexTotal(x, s[0]);
      var rest := InsertName(x, s[1..]);
      assert forall j :: 0 <= j < |rest| ==> LexLess(s[0], rest[j]) by {
        forall j | 0 <= j < |rest| ensures LexLess(s[0], rest[j]) {
          assert rest[j] in multiset(rest);
          if rest[j] != x {
            assert rest[j] in s[1..];
            var m :| 0 <= m < |s[1..]| && s[1..][m] == rest[j];
            assert s[1 + m] == rest[j];
          }
        }
      }
      assert s == [s[0]] + s[1..];
      [s[0]] + rest
  }

  /** `.sort()` on a list of distinct names. */
  function SortNames(s: seq<string>): (r: seq<string>)
    requires OrderedMapsDistinct(s)
    ensures StrictlyAscending(r)
    ensures multiset(r) == multiset(s)
  {
    if s == [] then []
    else
      var init := s[..|s| - 1];
      assert s == init + [s[|s| - 1]];
      assert s[|s| - 1] !in init;
      var sorted := SortNames(init);
      assert s[|s| - 1] !in multiset(sorted);
      InsertName(s[|s| - 1], sorted)
  }

  predicate OrderedMapsDistinct(s: seq<string>) {
    forall i, j :: 0 <= i < j < |s| ==> s[i] != s[j]
  }

  function Reverse<T>(s: seq<T>): (r: seq<T>)
    ensures |r| == |s|
    ensures forall i :: 0 <= i < |s| ==> r[i] == s[|s| - 1 - i]
  {
    if s == [] then [] else Reverse(s[1..]) + [s[0]]
  }

  function FilterAuditLogs(s: seq<string>): (r: seq<string>)
    ensures forall f :: f in r <==> f in s && IsAuditLog(f)
    ensures OrderedMapsDistinct(s) ==> OrderedMapsDistinct(r)
  {
    if s == [] then []
    else (if IsAuditLog(s[0]) then [s[0]] else []) + FilterAuditLogs(s[1..])
  }

  /** How many audit log names in `names` sort after `f`. */
  function NewerLogCount(f: string, names: set<string>): nat {
    |NewerLogs(f, names)|
  }

  function NewerLogs(f: string, names: set<string>): set<string> {
    set g | g in names && IsAuditLog(g) && LexLess(f, g)
  }

  /** The retention rule stated without sorting: an audit log is deleted exactly when at
      least 365 audit logs sort after it. */
  function ExpiredLogs(names: set<string>): (r: set<string>)
    ensures forall f :: f in r <==> f in names && IsAuditLog(f) && NewerLogCount(f, names) >= MAX_LOG_FILES
  {
    set f | f in names && IsAuditLog(f) && NewerLogCount(f, names) >= MAX_LOG_FILES
  }

  lemma {:induction false} DistinctCard<T>(s: seq<T>)
    requires forall i, j :: 0 <= i < j < |s| ==> s[i] != s[j]
    ensures |set x | x in s| == |s|
  {
    if s != [] {
      var init := s[..|s| - 1];
      DistinctCard(init);
      assert (set x | x in s) == (set x | x in init) + {s[|s| - 1]};
      assert s[|s| - 1] !in init;
    }
  }

  /** In a strictly descending list, the element at index i has exactly i elements of
      the list after it in sort order. */
  lemma RankInDescending(d: seq<string>, i: nat)
    requires i < |d|
    requires StrictlyDescending(d)
    ensures (set g | g in d && LexLess(d[i], g)) == (set g | g in d[..i])
    ensures |set g | g in d && LexLess(d[i], g)| == i
  {
    forall g | g in d && LexLess(d[i], g) ensures g in d[..i] {
      var k :| 0 <= k < |d| && d[k] == g;
      if k == i {
        LexIrreflexive(g);
      } else if k > i {
        LexAsymmetric(d[k], d[i]);
      }
      assert d[..i][k] == g;
    }
    forall g | g in d[..i] ensures g in d && LexLess(d[i], g) {
      var k :| 0 <= k < i && d[..i][k] == g;
      assert d[k] == g;
    }
    forall a, b | 0 <= a < b < |d[..i]| ensures d[..i][a] != d[..i][b] {
      assert LexLess(d[b], d[a]);
      if d[a] == d[b] {
        LexIrreflexive(d[a]);
      }
    }
    DistinctCard(d[..i]);
  }

  function Elems<T>(s: seq<T>): set<T> {
    set x | x in s
  }

  lemma ElemsPrefix<T>(s: seq<T>, i: nat)
    requires i < |s|
    ensures Elems(s[..i + 1]) == Elems(s[..i]) + {s[i]}
  {
    assert s[..i + 1] == s[..i] + [s[i]];
  }

  predicate StrictlyDescending(d: seq<string>) {
    forall a, b :: 0 <= a < b < |d| ==> LexLess(d[b], d[a])
  }

  lemma SortNamesMembers(s: seq<string>)
    requires OrderedMapsDistinct(s)
    ensures forall f :: f in SortNames(s) <==> f in s
    ensures |SortNames(s)| == |s|
  {
    var r := SortNames(s);
    assert |multiset(r)| == |multiset(s)|;
    forall f ensures f in r <==> f in s {
      assert f in r <==> f in multiset(r);
      assert f in s <==> f in multiset(s);
    }
  }

  lemma ReverseOfAscending(asc: seq<string>)
    requires StrictlyAscending(asc)
    ensures StrictlyDescending(Reverse(asc))
    ensures forall f :: f in Reverse(asc) <==> f in asc
  {
    var d := Reverse(asc);
    forall f ensures f in d <==> f in asc {
      if f in asc {
        var k :| 0 <= k < |asc| && asc[k] == f;
        assert d[|asc| - 1 - k] == f;
      }
    }
    forall a, b | 0 <= a < b < |d| ensures LexLess(d[b], d[a]) {
      assert d[b] == asc[|d| - 1 - b] && d[a] == asc[|d| - 1 - a];
    }
  }

  /** The audit logs of a listing, newest (greatest) name first. */
  function NewestFirst(names: seq<string>): (d: seq<string>)
    requires OrderedMapsDistinct(names)
    ensures StrictlyDescending(d)
    ensures forall f :: f in d <==> f in names && IsAuditLog(f)
    ensures |d| == |FilterAuditLogs(names)|
  {
    var logs := FilterAuditLogs(names);
    SortNamesMembers(logs);
    ReverseOfAscending(SortNames(logs));
    Reverse(SortNames(logs))
  }

  /** What `cleanupOldLogs` deletes: the names after the first 365 of the audit logs
      sorted and reversed. */
  function LogsToDelete(names: seq<string>): (r: seq<string>)
    requires OrderedMapsDistinct(names)
  {
    var logs := NewestFirst(names);
    if |logs| > MAX_LOG_FILES then logs[MAX_LOG_FILES..] else []
  }

  /** The i-th newest audit log has exactly i newer audit logs. */
  lemma NewestFirstRank(names: seq<string>, i: nat)
    requires OrderedMapsDistinct(names) && i < |NewestFirst(names)|
    ensures NewerLogCount(NewestFirst(names)[i], Elems(names)) == i
  {
    var d := NewestFirst(names);
    RankInDescending(d, i);
    NewerLogsOfListing(d[i], names, d);
  }

  lemma NewerLogsOfListing(f: string, names: seq<string>, d: seq<string>)
    requires forall x :: x in d <==> x in names && IsAuditLog(x)
    ensures NewerLogs(f, Elems(names)) == set g | g in d && LexLess(f, g)
  {
    var newer := NewerLogs(f, Elems(names));
    forall g ensures g in newer <==> g in d && LexLess(f, g) {
      assert g in Elems(names) <==> g in names;
    }
  }

  /** The sorted selection deletes exactly the expired logs, and nothing when there are
      at most 365 audit logs. */
  lemma LogsToDeleteAreExpired(names: seq<string>)
    requires OrderedMapsDistinct(names)
    ensures Elems(LogsToDelete(names)) == ExpiredLogs(Elems(names))
    ensures |FilterAuditLogs(names)| <= MAX_LOG_FILES ==> LogsToDelete(names) == []
  {
    forall f ensures f in Elems(LogsToDelete(names)) <==> f in ExpiredLogs(Elems(names)) {
      if f in Elems(LogsToDelete(names)) {
        DeletedIsExpired(names, f);
      }
      if f in ExpiredLogs(Elems(names)) {
        ExpiredIsDeleted(names, f);
      }
    }
  }

  lemma DeletedIsExpired(names: seq<string>, f: string)
    requires OrderedMapsDistinct(names) && f in LogsToDelete(names)
    ensures f in ExpiredLogs(Elems(names))
  {
    var d := NewestFirst(names);
    var k :| MAX_LOG_FILES <= k < |d| && d[k] == f;
    NewestFirstRank(names, k);
    assert f in names;
  }

  lemma ExpiredIsDeleted(names: seq<string>, f: string)
    requires OrderedMapsDistinct(names) && f in ExpiredLogs(Elems(names))
    ensures f in LogsToDelete(names)
  {
    var d := NewestFirst(names);
    assert f in names;
    var k :| 0 <= k < |d| && d[k] == f;
    NewestFirstRank(names, k);
    assert k >= MAX_LOG_FILES;
    assert LogsToDelete(names) == d[MAX_LOG_FILES..];
    InSuffix(d, MAX_LOG_FILES, k);
  }

  lemma InSuffix<T>(d: seq<T>, m: nat, k: nat)
    requires m <= k < |d|
    ensures d[k] in d[m..]
  {
    assert d[m..][k - m] == d[k];
  }

  class AuditLogger {
    /** The audit log directory: file name to file. */
    var files: map<string, LogFile>
    /** What was echoed to the process error stream. */
    var errorStream: seq<StampedEvent>

    constructor ()
      ensures files == map[] && errorStream == []
    {
      files := map[];
      errorStream := [];
    }

    /** `logEvent`: stamp, rotate the day's file if it is too large, append exactly one
        entry, and echo a CRITICAL event to the error stream. */
    method LogEvent(event: AuditEvent, day: string, timestamp: string, eventId: string, now: nat, entryBytes: nat)
      modifies this
      ensures var name := LogFileName(day);
        files == Append(Rotate(old(files), name, now), name, StampedEvent(timestamp, eventId, event), entryBytes)
      ensures errorStream == old(errorStream) +
        (if event.riskLevel == CRITICAL then [StampedEvent(timestamp, eventId, event)] else [])
    {
      var stamped := StampedEvent(timestamp, eventId, event);
      var name := LogFileName(day);
      RotateLogIfNeeded(name, now);
      files := Append(files, name, stamped, entryBytes);
      if event.riskLevel == CRITICAL {
        errorStream := errorStream + [stamped];
      }
    }

    method RotateLogIfNeeded(name: string, now: nat)
      modifies this`files
      ensures files == Rotate(old(files), name, now)
    {
      if name in files && files[name].size > MAX_FILE_SIZE {
        var target := RotatedName(name, now);
        if target != name {
          var content := files[name];
          files := (files - {name})[target := content];
        }
      }
    }

    /** `cleanupOldLogs`: list the directory, keep the audit logs, sort them newest
        first and delete all after the first 365. */
    method CleanupOldLogs()
      modifies this`files
      ensures files.Keys == old(files.Keys) - ExpiredLogs(old(files.Keys))
      ensures forall f :: f in files ==> files[f] == old(files[f])
    {
      var listing := ListDirectory(files.Keys);
      var doomed := LogsToDelete(listing);
      LogsToDeleteAreExpired(listing);
      var i := 0;
      while i < |doomed|
        invariant 0 <= i <= |doomed|
        invariant files.Keys == old(files.Keys) - Elems(doomed[..i])
        invariant forall f :: f in files ==> files[f] == old(files[f])
      {
        ElemsPrefix(doomed, i);
        files := files - {doomed[i]};
        i := i + 1;
      }
      assert doomed[..i] == doomed;
    }
  }

  /** `fs.readdir`: the names in some order, each once. */
  method ListDirectory(names: set<string>) returns (s: seq<string>)
    ensures OrderedMapsDistinct(s)
    ensures Elems(s) == names
  {
    s := [];
    var rest := names;
    while rest != {}
      invariant rest !! Elems(s)
      invariant Elems(s) + rest == names
      invariant OrderedMapsDistinct(s)
      decreases rest
    {
      var f :| f in rest;
      s := s + [f];
      rest := rest - {f};
    }
  }

  /** Ordering of the trail: two events logged one after the other on a day whose file
      stays under the ceiling end that file's entries in the order they were logged. */
  lemma SuccessiveEventsKeepOrder(dir: map<string, LogFile>, name: string, now1: nat, now2: nat,
                                  e1: StampedEvent, e2: StampedEvent, b1: nat, b2: nat)
    requires (if name in dir then dir[name].size else 0) + b1 <= MAX_FILE_SIZE
    ensures var once := Append(Rotate(dir, name, now1), name, e1, b1);
      var twice := Append(Rotate(once, name, now2), name, e2, b2);
      twice[name].entries == (if name in dir then dir[name].entries else []) + [e1, e2]
  {
    var once := Append(Rotate(dir, name, now1), name, e1, b1);
    assert Rotate(once, name, now2) == once;
  }
}
