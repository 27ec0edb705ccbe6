/** The durable ledger of route runtime incidents: write-once rows keyed by incident,
    replay detection, one audit event per row, and a pending result resolved once. */
module IncidentLedger {
  import opened Options
  import opened Decimals
  import opened Text

  // ---- evidence --------------------------------------------------------------------

  datatype ArtifactId = ArtifactId(extensionId: string, version: string, digest: string, instanceId: string)

  /** Enumerations of the routes package are their strings. */
  datatype Evidence = Evidence(
    key: string, revision: nat, stepIndex: int, phase: string, stage: string, action: string,
    mode: string, routeId: string, contract: string, method_: string, pathSignature: string,
    failureCode: string, causeClass: string, observed: bool, actorId: int, status: int,
    commitState: string, artifact: ArtifactId)

  datatype LocalResult = Pending | Quarantined | StaleMissing | StaleArtifact | QuarantineFailed

  const MAX_INT64 := 0x7fff_ffff_ffff_ffff
  const MAX_INT32 := 0x7fff_ffff

  predicate IsHex64(s: string) {
    |s| == 64 && forall i :: 0 <= i < 64 ==> '0' <= s[i] <= '9' || 'a' <= s[i] <= 'f'
  }

  predicate TrimmedText(s: string, maxBytes: nat) {
    s != [] && s == Trim(s) && Utf8Length(s) <= maxBytes
  }

  predicate Lower(c: char) { 'a' <= c <= 'z' || '0' <= c <= '9' }

  predicate IsName(s: string) {
    |s| >= 1 && Lower(s[0]) && forall i :: 0 <= i < |s| ==> Lower(s[i]) || s[i] in "._-"
  }

  predicate IsPositiveNumber(s: string) {
    |s| >= 1 && s[0] != '0' && forall i :: 0 <= i < |s| ==> '0' <= s[i] <= '9'
  }

  predicate SplitsAt(s: string, at: nat) {
    at < |s| && s[at] == '@' && IsName(s[..at]) && IsPositiveNumber(s[at + 1..])
  }

  /** `^[a-z0-9][a-z0-9._-]*@[1-9][0-9]*$` */
  predicate IsContract(s: string) { exists at :: 0 <= at < |s| && SplitsAt(s, at) }

  /** `^[A-Z][A-Z0-9!#$%&'*+.^_`|~-]{0,31}$` */
  predicate IsMethod(s: string) {
    1 <= |s| <= 32 && 'A' <= s[0] <= 'Z' &&
    forall i :: 1 <= i < |s| ==> 'A' <= s[i] <= 'Z' || '0' <= s[i] <= '9' || s[i] in "!#$%&'*+.^_`|~-"
  }

  predicate ValidStreamClass(c: string) {
    c in {"runtime_transport", "host_budget", "invalid_preflight", "missing_terminal"}
  }

  /** `ValidRouteStreamFailure` on evidence of the handler stage. */
  predicate ValidHandlerEvidence(e: Evidence) {
    && e.revision > 0 && e.stepIndex >= 0 && e.phase == "handler" && e.stage == "handler"
    && e.action in {"add", "replace"} && e.mode in {"multipart", "stream", "sse", "websocket"}
    && e.failureCode == "transport_failed" && ValidStreamClass(e.causeClass) && e.observed
    && e.commitState in {"side_effect_started", "response_started"}
    && e.routeId != "" && e.contract != "" && e.method_ != "" && e.pathSignature != ""
    && e.artifact.extensionId != "" && e.artifact.version != ""
    && e.artifact.digest != "" && e.artifact.instanceId != ""
  }

  /** The response stage admits the filter, wrap and after steps. */
  predicate ValidResponseEvidence(e: Evidence) {
    && e.stage == "response" && e.mode == "http" && e.status != 0 && e.commitState == "committed"
    && e.phase in {"filter", "wrap", "after"} && e.action == e.phase
    && ((e.failureCode == "transport_failed" && e.causeClass == "runtime_transport")
        || (e.failureCode == "response_schema_rejected" && e.causeClass == "response_schema"))
  }

  /** `validRouteRuntimeIncidentEvidence` */
  predicate ValidEvidence(e: Evidence) {
    && IsHex64(e.key) && 0 < e.revision <= MAX_INT64 && 0 <= e.stepIndex <= MAX_INT32 && e.observed
    && e.actorId >= 0 && 0 <= e.status <= 599 && !(0 < e.status < 100)
    && TrimmedText(e.routeId, 200) && IsContract(e.contract) && IsMethod(e.method_)
    && e.pathSignature != [] && Utf8Length(e.pathSignature) <= 1024
    && TrimmedText(e.artifact.extensionId, 200) && TrimmedText(e.artifact.version, 100)
    && IsHex64(e.artifact.digest) && TrimmedText(e.artifact.instanceId, 200)
    && (if e.stage == "handler" then ValidHandlerEvidence(e) else ValidResponseEvidence(e))
  }

  const DIGITS := "0123456789"
  const SMALL := "abcdefghijklmnopqrstuvwxyz"
  const UPPER_CASE := "ABCDEFGHIJKLMNOPQRSTUVWXYZ"
  const MARKS := "!#$%&'*+.^_`|~-"
  const HEX_DIGITS := DIGITS + "abcdef"
  const LOWER_CASE := SMALL + DIGITS
  const METHOD_MARKS := DIGITS + MARKS

  predicate Over(s: string, alphabet: string) { forall i :: 0 <= i < |s| ==> s[i] in alphabet }

  lemma DigitAlphabet(c: char)
    ensures c in DIGITS <==> '0' <= c <= '9'
  {
    if '0' <= c <= '9' { assert DIGITS[c as int - '0' as int] == c; }
  }

  lemma SmallAlphabet(c: char)
    ensures c in SMALL <==> 'a' <= c <= 'z'
  {
    if 'a' <= c <= 'z' { assert SMALL[c as int - 'a' as int] == c; }
  }

  lemma UpperAlphabet(c: char)
    ensures c in UPPER_CASE <==> 'A' <= c <= 'Z'
  {
    if 'A' <= c <= 'Z' { assert UPPER_CASE[c as int - 'A' as int] == c; }
  }

  lemma HexAlphabet(c: char)
    ensures c in HEX_DIGITS <==> '0' <= c <= '9' || 'a' <= c <= 'f'
  {
    DigitAlphabet(c);
    if 'a' <= c <= 'f' { assert "abcdef"[c as int - 'a' as int] == c; }
  }

  lemma LowerAlphabet(c: char)
    ensures c in LOWER_CASE <==> Lower(c)
  {
    DigitAlphabet(c);
    SmallAlphabet(c);
  }

  lemma MethodAlphabet(c: char)
    ensures c in METHOD_MARKS <==> '0' <= c <= '9' || c in MARKS
  {
    DigitAlphabet(c);
  }

  /** A name over small letters, digits and three marks that starts with none of these. */
  predicate NameShape(s: string) { s != [] && s[0] in LOWER_CASE && Over(s, LOWER_CASE + "._-") }

  /** An HTTP method: at most 32 characters, the first a capital letter. */
  predicate MethodShape(s: string) {
    s != [] && |s| <= 32 && s[0] in UPPER_CASE && Over(s, UPPER_CASE + METHOD_MARKS)
  }

  lemma ShapesMeaning(s: string)
    ensures IsHex64(s) <==> |s| == 64 && Over(s, HEX_DIGITS)
    ensures IsName(s) <==> NameShape(s)
    ensures IsMethod(s) <==> MethodShape(s)
  {
    forall i | 0 <= i < |s| ensures s[i] in HEX_DIGITS <==> '0' <= s[i] <= '9' || 'a' <= s[i] <= 'f' { HexAlphabet(s[i]); }
    NamesMeaning(s);
    MethodsMeaning(s);
  }

  lemma NamesMeaning(s: string)
    ensures IsName(s) <==> NameShape(s)
  {
    forall i | 0 <= i < |s|
      ensures (s[i] in LOWER_CASE <==> Lower(s[i])) && (s[i] in LOWER_CASE + "._-" <==> Lower(s[i]) || s[i] in "._-")
    {
      LowerAlphabet(s[i]);
    }
  }

  lemma MethodsMeaning(s: string)
    ensures IsMethod(s) <==> MethodShape(s)
  {
    forall i | 0 <= i < |s|
      ensures s[i] in UPPER_CASE <==> 'A' <= s[i] <= 'Z'
      ensures s[i] in UPPER_CASE + METHOD_MARKS <==> s[i] in UPPER_CASE || '0' <= s[i] <= '9' || s[i] in MARKS
    {
      UpperAlphabet(s[i]);
      MethodAlphabet(s[i]);
    }
  }

  predicate JoinsTo(name: string, version: nat, contract: string) {
    NameShape(name) && version > 0 && contract == name + "@" + Decimal(version)
  }

  lemma SplitJoins(s: string, at: nat)
    requires at < |s| && SplitsAt(s, at)
    ensures AllDigits(s[at + 1..]) && JoinsTo(s[..at], Value(s[at + 1..]), s)
  {
    var name, version := s[..at], s[at + 1..];
    assert s == name + "@" + version;
    ValueDecimal(version);
    NamesMeaning(name);
  }

  lemma JoinSplits(name: string, version: nat, s: string)
    requires JoinsTo(name, version, s)
    ensures |name| < |s| && SplitsAt(s, |name|)
  {
    DecimalValue(version);
    ShapesMeaning(name);
    assert s[..|name|] == name && s[|name| + 1..] == Decimal(version);
  }

  /** A contract is a name and a positive decimal version joined by `@`. */
  lemma ContractIff(s: string)
    ensures IsContract(s) <==> exists name: string, version: nat :: JoinsTo(name, version, s)
  {
    if IsContract(s) {
      var at :| 0 <= at < |s| && SplitsAt(s, at);
      SplitJoins(s, at);
    }
    if name: string, version: nat :| JoinsTo(name, version, s) { JoinSplits(name, version, s); }
  }

  /** The numbers of an incident: a revision and a step that fit their columns, an actor
      or none, and an HTTP status or none. */
  predicate NumbersFit(e: Evidence) {
    && 1 <= e.revision <= MAX_INT64 && 0 <= e.stepIndex <= MAX_INT32 && e.actorId >= 0
    && (e.status == 0 || 100 <= e.status <= 599)
  }

  predicate TextFits(s: string, maxBytes: nat) { s != [] && Unpadded(s) && Utf8Length(s) <= maxBytes }

  /** The names of an incident, none of them empty or padded. */
  ghost predicate NamesFit(e: Evidence) {
    && |e.key| == 64 && Over(e.key, HEX_DIGITS) && |e.artifact.digest| == 64 && Over(e.artifact.digest, HEX_DIGITS)
    && TextFits(e.routeId, 200) && TextFits(e.artifact.extensionId, 200)
    && TextFits(e.artifact.version, 100) && TextFits(e.artifact.instanceId, 200)
    && e.pathSignature != [] && Utf8Length(e.pathSignature) <= 1024 && MethodShape(e.method_)
    && exists name: string, version: nat :: JoinsTo(name, version, e.contract)
  }

  lemma NamesFitIff(e: Evidence)
    ensures NamesFit(e) <==>
            && IsHex64(e.key) && IsHex64(e.artifact.digest) && IsContract(e.contract) && IsMethod(e.method_)
            && TrimmedText(e.routeId, 200) && TrimmedText(e.artifact.extensionId, 200)
            && TrimmedText(e.artifact.version, 100) && TrimmedText(e.artifact.instanceId, 200)
            && e.pathSignature != [] && Utf8Length(e.pathSignature) <= 1024
  {
    ContractIff(e.contract);
    ShapesMeaning(e.key);
    ShapesMeaning(e.artifact.digest);
    ShapesMeaning(e.method_);
    TrimmedIff(e.routeId);
    TrimmedIff(e.artifact.extensionId);
    TrimmedIff(e.artifact.version);
    TrimmedIff(e.artifact.instanceId);
  }

  /** A stream handler that failed in transport after it began, with a Host cause. */
  predicate StreamIncident(e: Evidence) {
    && e.stage == "handler" && e.phase == "handler" && (e.action == "add" || e.action == "replace")
    && (e.mode == "multipart" || e.mode == "stream" || e.mode == "sse" || e.mode == "websocket")
    && (e.commitState == "side_effect_started" || e.commitState == "response_started")
    && e.failureCode == "transport_failed"
    && (e.causeClass == "runtime_transport" || e.causeClass == "host_budget"
        || e.causeClass == "invalid_preflight" || e.causeClass == "missing_terminal")
  }

  /** A response step that failed after the response was committed. */
  predicate ResponseIncident(e: Evidence) {
    && e.stage == "response" && e.mode == "http" && e.commitState == "committed" && e.status != 0
    && (e.phase == "filter" || e.phase == "wrap" || e.phase == "after") && e.action == e.phase
    && (if e.failureCode == "transport_failed" then e.causeClass == "runtime_transport"
        else e.failureCode == "response_schema_rejected" && e.causeClass == "response_schema")
  }

  /** What evidence is accepted: an observed execution with fitting numbers and names, of
      a stream handler before the commit or of a response step after it. */
  lemma AcceptedEvidence(e: Evidence)
    ensures ValidEvidence(e) <==>
            e.observed && NumbersFit(e) && NamesFit(e) && (StreamIncident(e) || ResponseIncident(e))
  {
    NamesFitIff(e);
  }

  // ---- rows ------------------------------------------------------------------------------

  /** The stored columns; a missing actor and a missing status are NULL. */
  datatype Row = Row(
    id: nat, columns: Evidence, revision: int, actor: Option<int>, status: Option<int>,
    versionId: int, auditId: nat, result: LocalResult, resolved: bool)

  datatype AuditEvent = AuditEvent(incidentKey: string, actor: Option<int>, metadata: Evidence)

  datatype Record = Record(
    id: nat, evidence: Evidence, versionId: int, auditId: nat, result: LocalResult, resolved: bool)

  datatype Ledger = Ledger(rows: map<string, Row>, audits: seq<AuditEvent>)

  function Nullable(n: int): Option<int> { if n > 0 then Some(n) else None }

  function Coalesce(n: Option<int>): int { if n.Some? then n.value else 0 }

  /** What the row's evidence columns hold; actor, status and revision live apart. */
  function Columns(e: Evidence): Evidence { e.(actorId := 0, status := 0, revision := 0) }

  function InsertRow(id: nat, e: Evidence, versionId: int, auditId: nat): Row {
    Row(id, Columns(e), e.revision, Nullable(e.actorId), Nullable(e.status), versionId, auditId, Pending, false)
  }

  /** `scanRouteRuntimeIncident` */
  function Scan(r: Row): Option<Record> {
    if r.revision <= 0 then None
    else Some(Record(r.id,
                     r.columns.(actorId := Coalesce(r.actor), status := Coalesce(r.status), revision := r.revision),
                     r.versionId, r.auditId, r.result, r.resolved))
  }

  /** What the columns can hold without loss. */
  predicate Storable(e: Evidence) { e.revision > 0 && e.actorId >= 0 && e.status >= 0 }

  /** Storing and scanning is the identity exactly on storable evidence, which valid
      evidence always is: 0 and NULL are the same actor and the same status. */
  lemma ScanInvertsInsert(id: nat, e: Evidence, versionId: int, auditId: nat)
    ensures Scan(InsertRow(id, e, versionId, auditId)) == Some(Record(id, e, versionId, auditId, Pending, false))
            <==> Storable(e)
    ensures ValidEvidence(e) ==> Storable(e)
  {
    var r := e.(actorId := Coalesce(Nullable(e.actorId)), status := Coalesce(Nullable(e.status)));
    assert Storable(e) ==> r == e;
    assert r == e ==> r.actorId == e.actorId && r.status == e.status;
  }

  // ---- transactions ----------------------------------------------------------------------

  /** How a transaction may end besides succeeding. */
  datatype Fault = NoFault | Aborted | AckLost

  datatype CreateResult = Created(record: Record) | Replayed(record: Record) | Invalid | Conflict | Unavailable

  type Versions = map<(string, string, string), int>

  function VersionKey(e: Evidence): (string, string, string) {
    (e.artifact.extensionId, e.artifact.version, e.artifact.digest)
  }

  function Inserted(l: Ledger, versions: Versions, e: Evidence): Ledger
    requires VersionKey(e) in versions
  {
    Ledger(l.rows[e.key := InsertRow(|l.audits|, e, versions[VersionKey(e)], |l.audits|)],
           l.audits + [AuditEvent(e.key, Nullable(e.actorId), Columns(e))])
  }

  /** `CreatePending`: one transaction under the key's advisory lock. */
  function CreatePending(l: Ledger, versions: Versions, e: Evidence, f: Fault): (Ledger, CreateResult) {
    if !ValidEvidence(e) then (l, Invalid)
    else if e.key in l.rows then
      var scanned := Scan(l.rows[e.key]);
      if scanned.None? then (l, Unavailable)
      else if scanned.value.evidence != e then (l, Conflict)
      else if f != NoFault then (l, Unavailable)
      else (l, Replayed(scanned.value))
    else if VersionKey(e) !in versions then (l, Invalid)
    else if f == Aborted then (l, Unavailable)
    else
      var l' := Inserted(l, versions, e);
      if f == AckLost then (l', Unavailable)
      else (l', Created(Record(|l.audits|, e, versions[VersionKey(e)], |l.audits|, Pending, false)))
  }

  /** The UPDATE of `Resolve`: takes effect only on a pending row. */
  function ResolvePending(l: Ledger, key: string, result: LocalResult): Ledger {
    if key in l.rows && l.rows[key].result == Pending then
      l.(rows := l.rows[key := l.rows[key].(result := result, resolved := true)])
    else l
  }

  datatype ResolveResult =
    | Resolved(record: Record) | NotFound | ResolveConflict | ResolveInvalid | ResolveUnavailable

  /** The SELECT that follows an UPDATE without effect. */
  function ReadResolved(l: Ledger, key: string, result: LocalResult): ResolveResult {
    if key !in l.rows then NotFound
    else
      var scanned := Scan(l.rows[key]);
      if scanned.None? then ResolveUnavailable
      else if scanned.value.result != result then ResolveConflict
      else Resolved(scanned.value)
  }

  // ---- interleaved callers -------------------------------------------------------------------

  /** `existed`: the row was there, already resolved, when the UPDATE ran. */
  datatype Pc =
    | Updating(key: string, result: LocalResult)
    | Reading(key: string, result: LocalResult, existed: bool)
    | Answered(key: string, result: LocalResult, answer: ResolveResult)

  datatype World = World(ledger: Ledger, versions: Versions, resolvers: map<nat, Pc>)

  datatype Action =
    | Create(evidence: Evidence, fault: Fault)
    | BeginResolve(t: nat, key: string, result: LocalResult)
    | Tick(t: nat, fault: Fault)
    | PublishVersions(versions: Versions)

  predicate Init(w: World) { w.ledger == Ledger(map[], []) && w.resolvers == map[] }

  predicate Enabled(w: World, a: Action) {
    match a
    case BeginResolve(t, _, _) => t !in w.resolvers
    case Tick(t, _) => t in w.resolvers && !w.resolvers[t].Answered?
    case _ => true
  }

  function TickStep(w: World, t: nat, f: Fault): World
    requires Enabled(w, Tick(t, f))
  {
    var pc := w.resolvers[t];
    match pc
    case Updating(key, result) =>
      if result == Pending || !IsHex64(key) then
        w.(resolvers := w.resolvers[t := Answered(key, result, ResolveInvalid)])
      else if f == Aborted then w.(resolvers := w.resolvers[t := Answered(key, result, ResolveUnavailable)])
      else
        var l := ResolvePending(w.ledger, key, result);
        if key in w.ledger.rows && w.ledger.rows[key].result == Pending then
          var scanned := Scan(l.rows[key]);
          w.(ledger := l,
             resolvers := w.resolvers[t := Answered(key, result,
               if f == AckLost || scanned.None? then ResolveUnavailable else Resolved(scanned.value))])
        else w.(resolvers := w.resolvers[t := Reading(key, result, key in w.ledger.rows)])
    case Reading(key, result, _) =>
      w.(resolvers := w.resolvers[t := Answered(key, result,
        if f != NoFault then ResolveUnavailable else ReadResolved(w.ledger, key, result))])
    case Answered(_, _, _) => w
  }

  function Step(w: World, a: Action): World
    requires Enabled(w, a)
  {
    match a
    case Create(e, f) => w.(ledger := CreatePending(w.ledger, w.versions, e, f).0)
    case BeginResolve(t, key, result) => w.(resolvers := w.resolvers[t := Updating(key, result)])
    case Tick(t, f) => TickStep(w, t, f)
    case PublishVersions(v) => w.(versions := v)
  }

  ghost predicate Run(w: World, acts: seq<Action>, last: World)
    decreases |acts|
  {
    if acts == [] then w == last
    else Enabled(w, acts[0]) && Run(Step(w, acts[0]), acts[1..], last)
  }

  // ---- invariant -----------------------------------------------------------------------------

  /** A row holds valid evidence under its key and owns exactly its audit event. */
  predicate RowInv(l: Ledger, key: string, r: Row) {
    && r.auditId < |l.audits| && l.audits[r.auditId].incidentKey == key
    && l.audits[r.auditId].metadata == r.columns && l.audits[r.auditId].actor == r.actor
    && Scan(r).Some? && Scan(r).value.evidence.key == key
    && (r.resolved <==> r.result != Pending)
  }

  predicate AuditOwned(l: Ledger, i: nat)
    requires i < |l.audits|
  {
    l.audits[i].incidentKey in l.rows && l.rows[l.audits[i].incidentKey].auditId == i
  }

  /** Rows and audit events are one to one. */
  predicate LedgerInv(l: Ledger) {
    && (forall key :: key in l.rows ==> RowInv(l, key, l.rows[key]))
    && (forall i :: 0 <= i < |l.audits| ==> AuditOwned(l, i))
  }

  predicate ResolverInv(l: Ledger, pc: Pc) {
    match pc
    case Updating(_, _) => true
    case Reading(key, result, existed) =>
      result != Pending && (existed ==> key in l.rows && l.rows[key].result != Pending)
    case Answered(key, result, answer) =>
      answer.Resolved? ==> key in l.rows && result != Pending && Scan(l.rows[key]) == Some(answer.record)
                           && answer.record.result == result
  }

  predicate Inv(w: World) {
    && LedgerInv(w.ledger)
    && (forall t :: t in w.resolvers ==> ResolverInv(w.ledger, w.resolvers[t]))
  }

  lemma InitInv(w: World)
    requires Init(w)
    ensures Inv(w)
  {
  }

  /** What a ledger never takes back. */
  predicate RowKept(l: Ledger, l': Ledger, key: string)
    requires key in l.rows
  {
    && key in l'.rows
    && l'.rows[key] == l.rows[key].(result := l'.rows[key].result, resolved := l'.rows[key].resolved)
    && (l.rows[key].result != Pending ==> l'.rows[key] == l.rows[key])
  }

  predicate Grows(l: Ledger, l': Ledger) {
    && (forall key :: key in l.rows ==> RowKept(l, l', key))
    && |l.audits| <= |l'.audits| && l'.audits[..|l.audits|] == l.audits
  }

  lemma InsertedKeeps(l: Ledger, versions: Versions, e: Evidence)
    requires LedgerInv(l) && Storable(e) && e.key !in l.rows && VersionKey(e) in versions
    ensures LedgerInv(Inserted(l, versions, e)) && Grows(l, Inserted(l, versions, e))
  {
    var l' := Inserted(l, versions, e);
    forall key | key in l'.rows ensures RowInv(l', key, l'.rows[key]) {
      if key != e.key { assert RowInv(l, key, l.rows[key]); }
    }
    forall i | 0 <= i < |l'.audits| ensures AuditOwned(l', i) {
      if i < |l.audits| { assert AuditOwned(l, i); }
    }
  }

  lemma GrowsReflexive(l: Ledger)
    ensures Grows(l, l)
  {
  }

  lemma CreateKeeps(l: Ledger, versions: Versions, e: Evidence, f: Fault)
    requires LedgerInv(l)
    ensures LedgerInv(CreatePending(l, versions, e, f).0) && Grows(l, CreatePending(l, versions, e, f).0)
  {
    var l' := CreatePending(l, versions, e, f).0;
    GrowsReflexive(l);
    if l' != l {
      assert ValidEvidence(e) && e.key !in l.rows && VersionKey(e) in versions;
      InsertedKeeps(l, versions, e);
    }
  }

  lemma ResolveKeeps(l: Ledger, key: string, result: LocalResult)
    requires LedgerInv(l) && result != Pending
    ensures LedgerInv(ResolvePending(l, key, result)) && Grows(l, ResolvePending(l, key, result))
  {
    var l' := ResolvePending(l, key, result);
    forall k | k in l'.rows ensures RowInv(l', k, l'.rows[k]) && RowKept(l, l', k) {
      assert RowInv(l, k, l.rows[k]);
    }
    forall i | 0 <= i < |l'.audits| ensures AuditOwned(l', i) {
      assert AuditOwned(l, i);
    }
  }

  lemma ResolverKept(l: Ledger, l': Ledger, pc: Pc)
    requires ResolverInv(l, pc) && Grows(l, l')
    ensures ResolverInv(l', pc)
  {
    match pc
    case Reading(key, _, existed) => if existed { assert RowKept(l, l', key); }
    case Answered(key, _, answer) => if answer.Resolved? { assert RowKept(l, l', key); }
    case Updating(_, _) =>
  }

  lemma StepLedger(w: World, a: Action)
    requires LedgerInv(w.ledger) && Enabled(w, a)
    ensures LedgerInv(Step(w, a).ledger) && Grows(w.ledger, Step(w, a).ledger)
  {
    match a
    case Create(e, f) => CreateKeeps(w.ledger, w.versions, e, f);
    case Tick(t, f) => TickLedger(w, t, f);
    case BeginResolve(_, _, _) | PublishVersions(_) => GrowsReflexive(w.ledger);
  }

  lemma TickLedger(w: World, t: nat, f: Fault)
    requires LedgerInv(w.ledger) && Enabled(w, Tick(t, f))
    ensures LedgerInv(Step(w, Tick(t, f)).ledger) && Grows(w.ledger, Step(w, Tick(t, f)).ledger)
  {
    GrowsReflexive(w.ledger);
    var pc := w.resolvers[t];
    if pc.Updating? && pc.result != Pending { ResolveKeeps(w.ledger, pc.key, pc.result); }
  }

  lemma TickAnswer(w: World, t: nat, f: Fault)
    requires LedgerInv(w.ledger) && Enabled(w, Tick(t, f)) && ResolverInv(w.ledger, w.resolvers[t])
    ensures var w' := Step(w, Tick(t, f)); ResolverInv(w'.ledger, w'.resolvers[t])
  {
    var pc := w.resolvers[t];
    if pc.key in w.ledger.rows { assert RowInv(w.ledger, pc.key, w.ledger.rows[pc.key]); }
  }

  lemma StepKeeps(w: World, a: Action)
    requires Inv(w) && Enabled(w, a)
    ensures Inv(Step(w, a)) && Grows(w.ledger, Step(w, a).ledger)
  {
    var w' := Step(w, a);
    StepLedger(w, a);
    if a.Tick? { TickAnswer(w, a.t, a.fault); }
    forall t | t in w'.resolvers ensures ResolverInv(w'.ledger, w'.resolvers[t]) {
      if !(a.Tick? && a.t == t) { OtherResolver(w, a, t); }
    }
  }

  lemma OtherResolver(w: World, a: Action, t: nat)
    requires Inv(w) && Enabled(w, a) && t in Step(w, a).resolvers && !(a.Tick? && a.t == t)
    requires Grows(w.ledger, Step(w, a).ledger)
    ensures ResolverInv(Step(w, a).ledger, Step(w, a).resolvers[t])
  {
    if t in w.resolvers {
      assert Step(w, a).resolvers[t] == w.resolvers[t];
      ResolverKept(w.ledger, Step(w, a).ledger, w.resolvers[t]);
    }
  }

  lemma GrowsTrans(a: Ledger, b: Ledger, c: Ledger)
    requires Grows(a, b) && Grows(b, c)
    ensures Grows(a, c)
  {
    forall key | key in a.rows ensures RowKept(a, c, key) {
      assert RowKept(a, b, key) && RowKept(b, c, key);
    }
  }

  /** Over any run of CreatePending and Resolve with faults and retries: rows are never
      lost, evidence and ids never change, the result leaves pending at most once, and
      rows and audit events correspond one to one. */
  lemma {:induction false} LedgerIsWriteOnce(w: World, acts: seq<Action>, last: World)
    requires Inv(w) && Run(w, acts, last)
    ensures Inv(last) && Grows(w.ledger, last.ledger)
    decreases |acts|
  {
    if acts != [] {
      StepKeeps(w, acts[0]);
      LedgerIsWriteOnce(Step(w, acts[0]), acts[1..], last);
      GrowsTrans(w.ledger, Step(w, acts[0]).ledger, last.ledger);
    } else {
      GrowsReflexive(w.ledger);
    }
  }

  // ---- replays -----------------------------------------------------------------------------------

  /** Once a key is recorded with evidence `e0`, at any later time a fault-free
      CreatePending of that key is accepted as a replay iff the evidence is equal, is a
      conflict iff valid evidence differs, and writes nothing either way. */
  lemma ReplayAcceptedIffEqual(
    w: World, acts: seq<Action>, last: World, e0: Evidence, e: Evidence)
    requires Inv(w) && Run(w, acts, last) && ValidEvidence(e) && e.key == e0.key
    requires e0.key in w.ledger.rows && Scan(w.ledger.rows[e0.key]).value.evidence == e0
    ensures var (l, answer) := CreatePending(last.ledger, last.versions, e, NoFault);
            && l == last.ledger
            && (answer.Replayed? <==> e == e0) && (answer.Conflict? <==> e != e0)
            && (answer.Replayed? ==> answer.record.evidence == e0)
  {
    LedgerIsWriteOnce(w, acts, last);
    assert RowKept(w.ledger, last.ledger, e0.key);
    assert RowInv(w.ledger, e0.key, w.ledger.rows[e0.key]);
    assert RowInv(last.ledger, e0.key, last.ledger.rows[e0.key]);
  }

  /** A creation whose acknowledgement was lost is recovered by its own replay. */
  lemma LostCreationIsReplayed(l: Ledger, versions: Versions, e: Evidence)
    requires LedgerInv(l) && ValidEvidence(e) && e.key !in l.rows && VersionKey(e) in versions
    ensures CreatePending(l, versions, e, AckLost).1 == Unavailable
    ensures var l' := CreatePending(l, versions, e, AckLost).0;
            CreatePending(l', versions, e, NoFault) ==
              (l', Replayed(CreatePending(l, versions, e, NoFault).1.record))
  {
    ScanInvertsInsert(|l.audits|, e, versions[VersionKey(e)], |l.audits|);
  }

  /** A creation of a new key: without the exact installed version it is invalid; otherwise
      it answers the pending record under that version's id, and row and audit event
      appear together, also when only the acknowledgement is lost; an aborted one leaves
      nothing behind. */
  lemma CreationMeaning(l: Ledger, versions: Versions, e: Evidence, f: Fault)
    requires LedgerInv(l) && ValidEvidence(e) && e.key !in l.rows
    ensures var (l', answer) := CreatePending(l, versions, e, f);
            var installed := (e.artifact.extensionId, e.artifact.version, e.artifact.digest);
            && (installed !in versions ==> l' == l && answer == Invalid)
            && (installed in versions && f == Aborted ==> l' == l && answer == Unavailable)
            && (installed in versions && f != Aborted ==>
                  && l'.rows.Keys == l.rows.Keys + {e.key} && |l'.audits| == |l.audits| + 1
                  && l'.audits[|l.audits|].incidentKey == e.key
                  && Scan(l'.rows[e.key]) == Some(Record(|l.audits|, e, versions[installed], |l.audits|, Pending, false))
                  && answer == if f == AckLost then Unavailable else Created(Scan(l'.rows[e.key]).value))
  {
    if VersionKey(e) in versions { ScanInvertsInsert(|l.audits|, e, versions[VersionKey(e)], |l.audits|); }
  }

  /** The UPDATE of one Resolve: a bad key or result is refused; a pending row takes the
      result for good, acknowledged or not; a row that is resolved, or missing, is left to
      the SELECT. */
  lemma UpdateMeaning(w: World, t: nat, f: Fault)
    requires Inv(w) && t in w.resolvers && w.resolvers[t].Updating?
    ensures var pc, v := w.resolvers[t], Step(w, Tick(t, f));
            var refused := pc.result == Pending || !IsHex64(pc.key);
            var pending := pc.key in w.ledger.rows && w.ledger.rows[pc.key].result == Pending;
            && (refused ==> v.ledger == w.ledger && v.resolvers[t].Answered? && v.resolvers[t].answer == ResolveInvalid)
            && (!refused && f == Aborted ==>
                  v.ledger == w.ledger && v.resolvers[t].Answered? && v.resolvers[t].answer == ResolveUnavailable)
            && (!refused && f != Aborted && pending ==>
                  && pc.key in v.ledger.rows && v.ledger.rows[pc.key].result == pc.result && v.ledger.rows[pc.key].resolved
                  && v.resolvers[t].Answered?
                  && (v.resolvers[t].answer.Resolved? <==> f == NoFault)
                  && (f == AckLost ==> v.resolvers[t].answer == ResolveUnavailable))
            && (!refused && f != Aborted && !pending ==> v.ledger == w.ledger && v.resolvers[t].Reading?)
  {
    var pc := w.resolvers[t];
    if pc.key in w.ledger.rows { assert RowInv(w.ledger, pc.key, w.ledger.rows[pc.key]); }
  }

  /** A Resolve that succeeded holds for good, so any two that succeeded agree. */
  lemma ResolutionIsFinal(w: World, acts: seq<Action>, last: World, t: nat, u: nat)
    requires Inv(w) && Run(w, acts, last)
    requires t in w.resolvers && w.resolvers[t].Answered? && w.resolvers[t].answer.Resolved?
    requires u in last.resolvers && last.resolvers[u].Answered? && last.resolvers[u].answer.Resolved?
    requires last.resolvers[u].key == w.resolvers[t].key
    ensures w.resolvers[t].key in last.ledger.rows
    ensures last.ledger.rows[w.resolvers[t].key].result == w.resolvers[t].result
    ensures last.resolvers[u].result == w.resolvers[t].result
    ensures last.resolvers[u].answer.record == w.resolvers[t].answer.record
  {
    LedgerIsWriteOnce(w, acts, last);
    assert ResolverInv(w.ledger, w.resolvers[t]) && ResolverInv(last.ledger, last.resolvers[u]);
    assert RowKept(w.ledger, last.ledger, w.resolvers[t].key);
  }

  /** A Resolve that reports a conflict read a different result, and it can have read a
      pending row only when that row was created between its UPDATE and its SELECT. */
  lemma ResolveConflictMeaning(w: World, t: nat)
    requires Inv(w) && t in w.resolvers && w.resolvers[t].Reading?
    ensures var pc := w.resolvers[t];
            var answer := Step(w, Tick(t, NoFault)).resolvers[t].answer;
            && Step(w, Tick(t, Aborted)).resolvers[t].answer == ResolveUnavailable
            && Step(w, Tick(t, AckLost)).resolvers[t].answer == ResolveUnavailable
            && (answer.NotFound? <==> pc.key !in w.ledger.rows)
            && (answer.Resolved? <==> pc.key in w.ledger.rows && w.ledger.rows[pc.key].result == pc.result)
            && (answer.ResolveConflict? <==> pc.key in w.ledger.rows && w.ledger.rows[pc.key].result != pc.result)
            && (answer.ResolveConflict? && pc.existed ==> w.ledger.rows[pc.key].result != Pending)
  {
    var pc := w.resolvers[t];
    assert ResolverInv(w.ledger, pc);
    if pc.key in w.ledger.rows { assert RowInv(w.ledger, pc.key, w.ledger.rows[pc.key]); }
  }

  // ---- the store object ----------------------------------------------------------------------------

  /** `PostgresRouteRuntimeIncidentStore`; each method is one transaction or statement. */
  class RouteRuntimeIncidentStore {
    var rows: map<string, Row>
    var audits: seq<AuditEvent>
    var versions: Versions

    constructor (versions: Versions)
      ensures Contents() == Ledger(map[], []) && this.versions == versions
    {
      rows, audits, this.versions := map[], [], versions;
    }

    ghost function Contents(): Ledger
      reads this
    {
      Ledger(rows, audits)
    }

    method Create(e: Evidence, f: Fault) returns (answer: CreateResult)
      modifies this`rows, this`audits
      ensures (Contents(), answer) == CreatePending(old(Contents()), versions, e, f)
    {
      if !ValidEvidence(e) { return Invalid; }
      if e.key in rows {
        var scanned := Scan(rows[e.key]);
        if scanned.None? { return Unavailable; }
        if scanned.value.evidence != e { return Conflict; }
        if f != NoFault { return Unavailable; }
        return Replayed(scanned.value);
      }
      if VersionKey(e) !in versions { return Invalid; }
      if f == Aborted { return Unavailable; }
      var versionId, auditId := versions[VersionKey(e)], |audits|;
      audits := audits + [AuditEvent(e.key, Nullable(e.actorId), Columns(e))];
      rows := rows[e.key := InsertRow(auditId, e, versionId, auditId)];
      if f == AckLost { return Unavailable; }
      return Created(Record(auditId, e, versionId, auditId, Pending, false));
    }

    /** Resolve without a concurrent caller between its two statements. */
    method Resolve(key: string, result: LocalResult) returns (answer: ResolveResult)
      requires LedgerInv(Contents())
      modifies this`rows
      ensures LedgerInv(Contents())
      ensures result == Pending || !IsHex64(key) ==> answer.ResolveInvalid? && Contents() == old(Contents())
      ensures result != Pending && IsHex64(key) ==>
                && Contents() == ResolvePending(old(Contents()), key, result)
                && (answer.NotFound? <==> key !in rows)
                && (answer.Resolved? <==> key in rows && rows[key].result == result)
                && (answer.ResolveConflict? <==> key in rows && rows[key].result != result)
    {
      if result == Pending || !IsHex64(key) { return ResolveInvalid; }
      ResolveKeeps(Contents(), key, result);
      if key in rows && rows[key].result == Pending {
        rows := rows[key := rows[key].(result := result, resolved := true)];
      }
      if key !in rows { return NotFound; }
      assert RowInv(Contents(), key, rows[key]);
      var scanned := Scan(rows[key]);
      if scanned.value.result != result { return ResolveConflict; }
      return Resolved(scanned.value);
    }
  }
}
