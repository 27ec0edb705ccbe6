/** The uninstall purge: one database transaction, one idempotent database disposition
    and one file-tree removal, under crashes, lost commit acknowledgements, retries and
    reinstalls of the same extension. */
module LifecyclePurge {
  import opened Options

  // ---- requests and receipts ---------------------------------------------------

  datatype Mode = Preserve | Export | Complete

  datatype Request = Request(
    cleanupId: string, operationId: int, mode: Mode, extensionId: string, version: string,
    versionId: int, digest: string, path: string, exportId: string, exportDigest: string)

  /** The raw proof with what parsing and hashing it yields. */
  datatype Proof = Proof(bytes: string, isNonEmptyObject: bool, sha256: string)

  datatype DatabaseReceipt = DatabaseReceipt(
    cleanupId: string, operationId: int, mode: Mode, extensionId: string, version: string,
    versionId: int, digest: string, exportId: string, exportDigest: string,
    credentialRevoked: bool, resourceExisted: bool, disposition: string,
    schemaRetained: bool, rolesRemoved: bool, receiptId: string, proofDigest: string,
    proof: Proof, exportEvidenceDigest: string)

  datatype PurgeReceipt = PurgeReceipt(
    cleanupId: string, operationId: int, mode: Mode, digest: string,
    material: (string, int, string, string, string), disposition: string,
    proof: (Request, string, string, string))

  predicate IsHexDigit(c: char) { '0' <= c <= '9' || 'a' <= c <= 'f' }

  /** `validProductionLifecycleDigest` */
  predicate ValidDigest(s: string) {
    |s| == 64 && forall i :: 0 <= i < |s| ==> IsHexDigit(s[i])
  }

  /** `validProductionLifecycleOpaqueID`: no allowed character is white space. */
  predicate ValidOpaqueId(s: string) {
    1 <= |s| <= 200 &&
    forall i :: 0 <= i < |s| ==>
      'a' <= s[i] <= 'z' || 'A' <= s[i] <= 'Z' || '0' <= s[i] <= '9' || s[i] in "._-:"
  }

  function ExpectedDisposition(m: Mode): string {
    match m
    case Preserve => "preserved"
    case Export => "exported_then_removed"
    case Complete => "removed"
  }

  /** `validateProductionLifecycleDatabaseReceipt` */
  predicate ValidDatabaseReceipt(q: Request, r: DatabaseReceipt) {
    && r.cleanupId == q.cleanupId && r.operationId == q.operationId && r.mode == q.mode
    && r.extensionId == q.extensionId && r.version == q.version
    && r.versionId == q.versionId && r.digest == q.digest
    && r.exportId == q.exportId && r.exportDigest == q.exportDigest
    && r.credentialRevoked && ValidOpaqueId(r.receiptId) && ValidDigest(r.proofDigest)
    && r.proof.isNonEmptyObject && r.proof.sha256 == r.proofDigest
    && r.disposition == ExpectedDisposition(q.mode)
    && r.schemaRetained == (q.mode == Preserve && r.resourceExisted)
    && r.rolesRemoved == (q.mode != Preserve && r.resourceExisted)
    && (if q.mode == Export then ValidDigest(r.exportEvidenceDigest) else r.exportEvidenceDigest == "")
  }

  /** `productionLifecycleCleanupReceipt`, with the hash kept as its material. */
  function ReceiptFor(q: Request, r: DatabaseReceipt): PurgeReceipt {
    PurgeReceipt(q.cleanupId, q.operationId, q.mode, q.digest,
                 (q.cleanupId, q.operationId, q.digest, r.receiptId, r.proofDigest),
                 r.disposition, (q, r.receiptId, r.proofDigest, r.proof.bytes))
  }

  // ---- the database and the file tree ----------------------------------------------

  datatype Artifact = Artifact(version: string, digest: string, path: string)

  datatype Extension = Extension(active: Option<int>, versions: map<int, Artifact>)

  /** Committed rows of one extension id: its identity, and what refers to it.
      `trust` and `frontendTrust` hold the grants that are not revoked. */
  datatype Db = Db(
    extension: Option<Extension>, bindings: set<nat>, trust: set<nat>,
    frontendTrust: set<nat>, mailSelection: set<nat>)

  datatype Tree = Absent | Present(digest: string)

  datatype LockResult = Locked(present: bool) | LockConflict

  /** The identity row is exactly the retained artifact. */
  predicate RetainedRow(q: Request, db: Db) {
    && db.extension.Some? && db.extension.value.active == Some(q.versionId)
    && q.versionId in db.extension.value.versions
    && db.extension.value.versions[q.versionId] == Artifact(q.version, q.digest, q.path)
  }

  /** `lockExactExtension` */
  function LockExact(q: Request, db: Db): LockResult {
    if db.extension.None? then Locked(false)
    else if db.extension.value.active != Some(q.versionId) then LockConflict
    else if q.versionId !in db.extension.value.versions then LockConflict
    else if db.extension.value.versions[q.versionId] != Artifact(q.version, q.digest, q.path) then LockConflict
    else Locked(true)
  }

  /** The statements of `commitPurge` executed so far inside the transaction. */
  datatype Delta = Delta(bindings: bool, trust: bool, frontendTrust: bool, mail: bool, identity: bool)

  const NO_DELTA := Delta(false, false, false, false, false)

  function Execute(statement: nat, d: Delta): Delta {
    if statement == 0 then d.(bindings := true)
    else if statement == 1 then d.(trust := true)
    else if statement == 2 then d.(frontendTrust := true)
    else if statement == 3 then d.(mail := true)
    else d.(identity := true)
  }

  function Commit(db: Db, d: Delta): Db {
    Db(if d.identity then None else db.extension,
       if d.bindings then {} else db.bindings,
       if d.trust then {} else db.trust,
       if d.frontendTrust then {} else db.frontendTrust,
       if d.mail then {} else db.mailSelection)
  }

  const PURGED := Db(None, {}, {}, {}, {})

  // ---- attempts ------------------------------------------------------------------------

  datatype Pc =
    | AwaitLock
    | LockIdentity
    | Inspect(present: bool)
    | CheckRuntime(present: bool)
    | Dispose(present: bool)
    | Reinspect(receipt: DatabaseReceipt)
    | Remove(receipt: DatabaseReceipt)
    | Removing(receipt: DatabaseReceipt)
    | VerifyRemoval(receipt: DatabaseReceipt)
    | Statement(next: nat, delta: Delta, receipt: DatabaseReceipt)
    | CommitTx(present: bool, delta: Delta, receipt: DatabaseReceipt)
    | Succeeded(answer: PurgeReceipt)
    | Failed(conflict: bool)
    | Crashed

  datatype World = World(
    request: Request, db: Db, tree: Tree, disposed: Option<DatabaseReceipt>,
    lock: Option<nat>, attempts: map<nat, Pc>)

  /** Outcome of an effect: done, failed before it took effect, or took effect with
      its acknowledgement lost. */
  datatype Env =
    | Good | Fault
    | Disposition(receipt: DatabaseReceipt) | DispositionLost(receipt: DatabaseReceipt)
    | StillRunning
    | Partially(left: string)
    | CommitLost

  datatype Action =
    | Start(t: nat)
    | Tick(t: nat, env: Env)
    | Crash(t: nat)
    // The rest of the system, once the retained row is gone.
    | InsertExtension(version: int, artifact: Artifact)
    | DeleteExtension
    | ChangeReferences(bindings: set<nat>, trust: set<nat>, frontendTrust: set<nat>, mail: set<nat>)
    | WriteTree(tree: Tree)

  predicate Holding(pc: Pc) {
    !(pc.AwaitLock? || pc.Succeeded? || pc.Failed? || pc.Crashed?)
  }

  predicate Ended(pc: Pc) { pc.Succeeded? || pc.Failed? || pc.Crashed? }

  predicate CanTick(w: World, t: nat, env: Env)
    requires t in w.attempts
  {
    match w.attempts[t]
    case AwaitLock => (env.Good? && w.lock.None?) || env.Fault?
    case CheckRuntime(_) => env.Good? || env.Fault? || env.StillRunning?
    case Dispose(_) =>
      || env.Fault?
      // The disposition is idempotent: it always answers its first receipt.
      || ((env.Disposition? || env.DispositionLost?) &&
          (w.disposed.None? || w.disposed.value == env.receipt))
    case Remove(_) => env.Fault? || env.Partially?
    case CommitTx(_, _, _) => env.Good? || env.Fault? || env.CommitLost?
    case Succeeded(_) | Failed(_) | Crashed => false
    case _ => env.Good? || env.Fault?
  }

  predicate Enabled(w: World, a: Action) {
    match a
    case Start(t) => t !in w.attempts
    case Tick(t, env) => t in w.attempts && CanTick(w, t, env)
    case Crash(t) => t in w.attempts && !Ended(w.attempts[t])
    case InsertExtension(v, _) => w.db.extension.None? && v != w.request.versionId
    case DeleteExtension | ChangeReferences(_, _, _, _) | WriteTree(_) => !RetainedRow(w.request, w.db)
  }

  /** Deferred rollback and process death both end the transaction and its locks. */
  function End(w: World, t: nat, pc: Pc): World {
    w.(attempts := w.attempts[t := pc], lock := if w.lock == Some(t) then None else w.lock)
  }

  function Move(w: World, t: nat, pc: Pc): World { w.(attempts := w.attempts[t := pc]) }

  function Conflict(w: World, t: nat): World { End(w, t, Failed(true)) }

  function AfterDisposition(w: World, t: nat, present: bool, r: DatabaseReceipt): World {
    var w1 := w.(disposed := Some(r));
    if !ValidDatabaseReceipt(w.request, r) then Conflict(w1, t)
    else if present then Move(w1, t, Reinspect(r))
    else Move(w1, t, CommitTx(false, NO_DELTA, r))
  }

  function TickStep(w: World, t: nat, env: Env): World
    requires Enabled(w, Tick(t, env))
  {
    if env.Fault? then End(w, t, Failed(false)) else
    match w.attempts[t]
    case AwaitLock => Move(w.(lock := Some(t)), t, LockIdentity)
    case LockIdentity =>
      var l := LockExact(w.request, w.db);
      if l.LockConflict? then Conflict(w, t) else Move(w, t, Inspect(l.present))
    case Inspect(present) =>
      if w.tree.Present? && w.tree.digest != w.request.digest then Conflict(w, t)
      else if !present && w.tree.Present? then Conflict(w, t)
      else Move(w, t, CheckRuntime(present))
    case CheckRuntime(present) =>
      if env.StillRunning? then Conflict(w, t) else Move(w, t, Dispose(present))
    case Dispose(present) =>
      if env.DispositionLost? then End(w.(disposed := Some(env.receipt)), t, Failed(false))
      else AfterDisposition(w, t, present, env.receipt)
    case Reinspect(r) =>
      if w.tree.Absent? then Move(w, t, Statement(0, NO_DELTA, r))
      else if w.tree.digest != w.request.digest then Conflict(w, t)
      else Move(w, t, Remove(r))
    case Remove(r) => Move(w.(tree := Present(env.left)), t, Removing(r))
    case Removing(r) => Move(w.(tree := Absent), t, VerifyRemoval(r))
    case VerifyRemoval(r) =>
      if w.tree.Present? then Conflict(w, t) else Move(w, t, Statement(0, NO_DELTA, r))
    case Statement(next, delta, r) =>
      if next == 4 && !(w.db.extension.Some? && w.db.extension.value.active == Some(w.request.versionId)) then
        Conflict(w, t)
      else
        Move(w, t, if next < 4 then Statement(next + 1, Execute(next, delta), r)
                   else CommitTx(true, Execute(next, delta), r))
    case CommitTx(present, delta, r) =>
      var w1 := w.(db := Commit(w.db, delta));
      if env.CommitLost? then End(w1, t, Failed(false)) else End(w1, t, Succeeded(ReceiptFor(w.request, r)))
  }

  function Step(w: World, a: Action): World
    requires Enabled(w, a)
  {
    match a
    case Start(t) => w.(attempts := w.attempts[t := AwaitLock])
    case Tick(t, env) => TickStep(w, t, env)
    case Crash(t) => End(w, t, Crashed)
    case InsertExtension(v, artifact) =>
      w.(db := w.db.(extension := Some(Extension(Some(v), map[v := artifact]))))
    case DeleteExtension => w.(db := w.db.(extension := None))
    case ChangeReferences(b, g, f, m) =>
      w.(db := w.db.(bindings := b, trust := g, frontendTrust := f, mailSelection := m))
    case WriteTree(tree) => w.(tree := tree)
  }

  predicate Init(w: World) {
    RetainedRow(w.request, w.db) && w.disposed.None? && w.lock.None? && w.attempts == map[]
  }

  ghost predicate Run(w: World, acts: seq<Action>, last: World)
    decreases |acts|
  {
    if acts == [] then w == last
    else Enabled(w, acts[0]) && Run(Step(w, acts[0]), acts[1..], last)
  }

  predicate ByAttempt(a: Action) { a.Start? || a.Tick? || a.Crash? }

  predicate NoReinstall(acts: seq<Action>) {
    forall i :: 0 <= i < |acts| ==> ByAttempt(acts[i])
  }

  // ---- invariant -----------------------------------------------------------------------

  predicate ReceiptOk(w: World, r: DatabaseReceipt) {
    w.disposed == Some(r) && ValidDatabaseReceipt(w.request, r)
  }

  /** The first `n` statements of the purge transaction. */
  function Executed(n: nat): Delta
    requires n <= 5
  {
    if n == 0 then NO_DELTA else Execute(n - 1, Executed(n - 1))
  }

  predicate AttemptInv(w: World, pc: Pc) {
    match pc
    case Inspect(_) | CheckRuntime(_) | Dispose(_) =>
      pc.present ==> RetainedRow(w.request, w.db)
    case Reinspect(_) | Removing(_) => RetainedRow(w.request, w.db) && ReceiptOk(w, pc.receipt)
    case Remove(r) => RetainedRow(w.request, w.db) && ReceiptOk(w, r) && w.tree == Present(w.request.digest)
    case VerifyRemoval(r) => RetainedRow(w.request, w.db) && ReceiptOk(w, r) && w.tree.Absent?
    case Statement(next, delta, r) =>
      && RetainedRow(w.request, w.db) && ReceiptOk(w, r) && w.tree.Absent?
      && next <= 4 && delta == Executed(next)
    case CommitTx(present, delta, r) =>
      && ReceiptOk(w, r)
      && (if present then RetainedRow(w.request, w.db) && w.tree.Absent? && delta == Executed(5)
          else delta == NO_DELTA)
    case Succeeded(answer) =>
      && w.disposed.Some? && answer == ReceiptFor(w.request, w.disposed.value)
      && ValidDatabaseReceipt(w.request, w.disposed.value)
    case _ => true
  }

  predicate Inv(w: World) {
    && (w.lock.Some? ==> w.lock.value in w.attempts && Holding(w.attempts[w.lock.value]))
    && (forall t :: t in w.attempts ==>
          AttemptInv(w, w.attempts[t]) && (Holding(w.attempts[t]) ==> w.lock == Some(t)))
  }

  /** What is established outside the moving attempt stays established. */
  lemma AttemptInvKept(w: World, w': World, pc: Pc)
    requires AttemptInv(w, pc) && !Holding(pc) && w'.request == w.request
    requires w.disposed.Some? ==> w'.disposed == w.disposed
    ensures AttemptInv(w', pc)
  {
  }

  /** Local form: what attempt `t` needs to be true of itself. */
  predicate AttemptOk(w: World, t: nat) {
    && t in w.attempts && AttemptInv(w, w.attempts[t])
    && (Holding(w.attempts[t]) ==> w.lock == Some(t))
    && (w.lock == Some(t) ==> Holding(w.attempts[t]))
  }

  lemma EarlyTickOk(w: World, t: nat, env: Env)
    requires AttemptOk(w, t) && Enabled(w, Tick(t, env))
    requires w.attempts[t].AwaitLock? || w.attempts[t].LockIdentity? || w.attempts[t].Inspect? || w.attempts[t].CheckRuntime?
    ensures AttemptOk(Step(w, Tick(t, env)), t)
  {
  }

  lemma DisposeTickOk(w: World, t: nat, env: Env)
    requires AttemptOk(w, t) && Enabled(w, Tick(t, env)) && w.attempts[t].Dispose?
    ensures AttemptOk(Step(w, Tick(t, env)), t)
  {
  }

  lemma RemovalTickOk(w: World, t: nat, env: Env)
    requires AttemptOk(w, t) && Enabled(w, Tick(t, env))
    requires w.attempts[t].Reinspect? || w.attempts[t].Remove? || w.attempts[t].Removing? || w.attempts[t].VerifyRemoval?
    ensures AttemptOk(Step(w, Tick(t, env)), t)
  {
    assert Executed(0) == NO_DELTA;
  }

  lemma CommitTickOk(w: World, t: nat, env: Env)
    requires AttemptOk(w, t) && Enabled(w, Tick(t, env))
    requires w.attempts[t].Statement? || w.attempts[t].CommitTx?
    ensures AttemptOk(Step(w, Tick(t, env)), t)
  {
    var pc := w.attempts[t];
    if pc.Statement? { assert Executed(pc.next + 1) == Execute(pc.next, pc.delta); }
  }

  lemma TickOk(w: World, t: nat, env: Env)
    requires AttemptOk(w, t) && Enabled(w, Tick(t, env))
    ensures AttemptOk(Step(w, Tick(t, env)), t)
  {
    match w.attempts[t]
    case AwaitLock | LockIdentity | Inspect(_) | CheckRuntime(_) => EarlyTickOk(w, t, env);
    case Dispose(_) => DisposeTickOk(w, t, env);
    case Reinspect(_) | Remove(_) | Removing(_) | VerifyRemoval(_) => RemovalTickOk(w, t, env);
    case Statement(_, _, _) | CommitTx(_, _, _) => CommitTickOk(w, t, env);
    case Succeeded(_) | Failed(_) | Crashed =>
  }

  /** One attempt's step leaves the others alone. */
  lemma TickFrame(w: World, t: nat, env: Env)
    requires Enabled(w, Tick(t, env))
    ensures var w' := Step(w, Tick(t, env));
            && w'.request == w.request && (w.disposed.Some? ==> w'.disposed == w.disposed)
            && t in w'.attempts && w'.attempts == w.attempts[t := w'.attempts[t]]
            && (w'.lock != w.lock ==> (w'.lock == Some(t) && w.lock.None?) || (w'.lock.None? && w.lock == Some(t)))
  {
  }

  lemma TickInv(w: World, t: nat, env: Env)
    requires Inv(w) && Enabled(w, Tick(t, env))
    ensures Inv(Step(w, Tick(t, env)))
  {
    var w' := Step(w, Tick(t, env));
    TickOk(w, t, env);
    TickFrame(w, t, env);
    forall u | u in w'.attempts
      ensures AttemptInv(w', w'.attempts[u]) && (Holding(w'.attempts[u]) ==> w'.lock == Some(u))
    {
      if u != t {
        assert w'.attempts[u] == w.attempts[u];
        if Holding(w.attempts[u]) {
          // Nobody else moves the world while u holds the lock: t can only give up.
          assert w.lock == Some(u) && !Holding(w.attempts[t]);
          assert w.attempts[t] == AwaitLock && env.Fault?;
        } else {
          AttemptInvKept(w, w', w.attempts[u]);
        }
      }
    }
  }

  lemma StepInv(w: World, a: Action)
    requires Inv(w) && Enabled(w, a)
    ensures Inv(Step(w, a))
  {
    if a.Tick? { TickInv(w, a.t, a.env); }
  }

  lemma {:induction false} RunPreserves(p: World -> bool, w: World, acts: seq<Action>, last: World)
    requires Inv(w) && p(w) && Run(w, acts, last)
    requires forall v, a | Inv(v) && p(v) && Enabled(v, a) :: p(Step(v, a))
    ensures Inv(last) && p(last)
    decreases |acts|
  {
    if acts != [] {
      StepInv(w, acts[0]);
      RunPreserves(p, Step(w, acts[0]), acts[1..], last);
    }
  }

  // ---- safety without reinstalls --------------------------------------------------------

  /** The committed database is untouched, or purged as a whole with the path gone. */
  predicate AllOrNothing(w: World, before: Db) {
    w.db == before || (w.db == PURGED && w.tree.Absent?)
  }

  /** The attempt has seen the identity row gone, or has answered success. */
  predicate SawGone(pc: Pc) {
    || ((pc.Inspect? || pc.CheckRuntime? || pc.Dispose? || pc.CommitTx?) && !pc.present)
    || pc.Succeeded?
  }

  predicate Quiet(w: World, before: Db) {
    && AllOrNothing(w, before)
    && (forall t :: t in w.attempts && SawGone(w.attempts[t]) ==> w.db == PURGED)
  }

  /** What one step of attempt `t` does to the committed state. */
  lemma TickCommits(w: World, t: nat, env: Env)
    requires AttemptOk(w, t) && Enabled(w, Tick(t, env))
    ensures var w' := Step(w, Tick(t, env));
            && (w'.db != w.db ==> RetainedRow(w.request, w.db) && w'.db == PURGED && w'.tree.Absent?)
            && (w'.tree != w.tree ==> RetainedRow(w.request, w.db))
            && (SawGone(w'.attempts[t]) ==>
                  SawGone(w.attempts[t]) || w'.db.extension.None?)
  {
    if w.attempts[t].CommitTx? {
      assert Executed(5) == Delta(true, true, true, true, true);
    } else {
      TickBeforeCommit(w, t, env);
    }
  }

  lemma TickBeforeCommit(w: World, t: nat, env: Env)
    requires AttemptOk(w, t) && Enabled(w, Tick(t, env)) && !w.attempts[t].CommitTx?
    ensures var w' := Step(w, Tick(t, env));
            && w'.db == w.db
            && (w'.tree != w.tree ==> RetainedRow(w.request, w.db))
            && (SawGone(w'.attempts[t]) ==> SawGone(w.attempts[t]) || w.db.extension.None?)
  {
  }

  lemma QuietStep(w: World, a: Action, before: Db)
    requires Inv(w) && Quiet(w, before) && RetainedRow(w.request, before)
    requires Enabled(w, a) && ByAttempt(a)
    ensures Quiet(Step(w, a), before)
  {
    if a.Tick? {
      TickFrame(w, a.t, a.env);
      TickCommits(w, a.t, a.env);
    }
  }

  /** Over every run of attempts that crash between any two effects or lose a commit
      acknowledgement, without reinstall: the bindings, both kinds of grants, the mail
      selection and the identity row go in one step, after the package path is gone, and
      an attempt answers success only when they are gone. */
  lemma PurgeIsAllOrNothing(w: World, acts: seq<Action>, last: World, before: Db)
    requires Inv(w) && Quiet(w, before) && RetainedRow(w.request, before)
    requires Run(w, acts, last) && NoReinstall(acts)
    ensures Inv(last) && Quiet(last, before) && last.request == w.request
    ensures last.db.extension.None? ==> last.tree.Absent? && last.db == PURGED
    ensures (exists t :: t in last.attempts && last.attempts[t].Succeeded?) ==>
              last.tree.Absent? && last.db == PURGED
    ensures forall t :: t in last.attempts && last.attempts[t].Succeeded? && t !in w.attempts ==>
              SawAFreePath(w, acts, t)
  {
    QuietRun(w, acts, last, before);
    forall t | t in last.attempts && last.attempts[t].Succeeded? && t !in w.attempts ensures SawAFreePath(w, acts, t) {
      SuccessSawTheFreePath(w, t, acts, last);
    }
  }

  lemma {:induction false} QuietRun(w: World, acts: seq<Action>, last: World, before: Db)
    requires Inv(w) && Quiet(w, before) && RetainedRow(w.request, before)
    requires Run(w, acts, last) && NoReinstall(acts)
    ensures Inv(last) && Quiet(last, before) && last.request == w.request
    ensures last.db.extension.None? ==> last.tree.Absent? && last.db == PURGED
    ensures (exists t :: t in last.attempts && last.attempts[t].Succeeded?) ==>
              last.tree.Absent? && last.db == PURGED
    decreases |acts|
  {
    if acts != [] {
      assert ByAttempt(acts[0]);
      StepInv(w, acts[0]);
      QuietStep(w, acts[0], before);
      assert forall i :: 0 <= i < |acts[1..]| ==> acts[1..][i] == acts[i + 1];
      QuietRun(Step(w, acts[0]), acts[1..], last, before);
    }
  }

  // ---- retries -----------------------------------------------------------------------------

  /** A step of attempt `t` in which nothing fails: the runtime is gone and the
      disposition answers a valid receipt. */
  predicate FaultFree(w: World, a: Action, t: nat) {
    && a.Tick? && a.t == t
    && !a.env.Fault? && !a.env.DispositionLost? && !a.env.StillRunning? && !a.env.CommitLost?
    && (a.env.Disposition? ==> ValidDatabaseReceipt(w.request, a.env.receipt))
  }

  ghost predicate FaultFreeRun(w: World, acts: seq<Action>, t: nat, last: World)
    decreases |acts|
  {
    if acts == [] then w == last
    else Enabled(w, acts[0]) && FaultFree(w, acts[0], t) && FaultFreeRun(Step(w, acts[0]), acts[1..], t, last)
  }

  /** What an operator can check before a retry: the path is free, or still holds the
      exact package. */
  predicate TreeIntact(w: World) { w.tree.Absent? || w.tree.digest == w.request.digest }

  /** The fault-free retry `t` is on course: for success iff `intact`. */
  predicate OnCourse(w: World, t: nat, before: Db, intact: bool) {
    && t in w.attempts && Quiet(w, before)
    && match w.attempts[t]
       case AwaitLock => w.lock.None? && intact == TreeIntact(w)
       case LockIdentity => intact == TreeIntact(w)
       case Inspect(present) => intact == TreeIntact(w) && present == w.db.extension.Some?
       case CheckRuntime(_) | Dispose(_) =>
         intact && TreeIntact(w) && w.attempts[t].present == w.db.extension.Some?
       case Reinspect(_) => intact && TreeIntact(w)
       case Remove(_) | Removing(_) | VerifyRemoval(_) | Statement(_, _, _) => intact
       case CommitTx(present, _, _) => intact && present == w.db.extension.Some?
       case Succeeded(_) => intact && w.db == PURGED && w.tree.Absent?
       case Failed(conflict) => conflict && !intact
       case Crashed => false
  }

  lemma OnCourseStep(w: World, a: Action, t: nat, before: Db, intact: bool)
    requires Inv(w) && RetainedRow(w.request, before) && OnCourse(w, t, before, intact)
    requires Enabled(w, a) && FaultFree(w, a, t)
    ensures OnCourse(Step(w, a), t, before, intact)
    ensures Left(Step(w, a).attempts[t]) < Left(w.attempts[t])
  {
    QuietStep(w, a, before);
    var pc := w.attempts[t];
    if Holding(pc) { assert w.lock == Some(t); }
    if pc.CommitTx? || pc.Statement? {
      OnCourseCommit(w, a, t, before, intact);
    } else if pc.AwaitLock? || pc.LockIdentity? || pc.Inspect? || pc.CheckRuntime? {
      OnCourseEarly(w, a, t, before, intact);
    } else {
      OnCourseRemoval(w, a, t, before, intact);
    }
  }

  lemma OnCourseRemoval(w: World, a: Action, t: nat, before: Db, intact: bool)
    requires Inv(w) && RetainedRow(w.request, before) && OnCourse(w, t, before, intact)
    requires Enabled(w, a) && FaultFree(w, a, t) && Quiet(Step(w, a), before)
    requires var pc := w.attempts[t];
             pc.Dispose? || pc.Reinspect? || pc.Remove? || pc.Removing? || pc.VerifyRemoval?
    ensures OnCourse(Step(w, a), t, before, intact)
    ensures Left(Step(w, a).attempts[t]) < Left(w.attempts[t])
  {
  }

  lemma OnCourseEarly(w: World, a: Action, t: nat, before: Db, intact: bool)
    requires Inv(w) && RetainedRow(w.request, before) && OnCourse(w, t, before, intact)
    requires Enabled(w, a) && FaultFree(w, a, t) && Quiet(Step(w, a), before)
    requires w.attempts[t].AwaitLock? || w.attempts[t].LockIdentity? || w.attempts[t].Inspect? || w.attempts[t].CheckRuntime?
    ensures OnCourse(Step(w, a), t, before, intact)
    ensures Left(Step(w, a).attempts[t]) < Left(w.attempts[t])
  {
  }

  lemma OnCourseCommit(w: World, a: Action, t: nat, before: Db, intact: bool)
    requires Inv(w) && RetainedRow(w.request, before) && OnCourse(w, t, before, intact)
    requires Enabled(w, a) && FaultFree(w, a, t) && Quiet(Step(w, a), before)
    requires w.attempts[t].CommitTx? || w.attempts[t].Statement?
    ensures OnCourse(Step(w, a), t, before, intact)
    ensures Left(Step(w, a).attempts[t]) < Left(w.attempts[t])
  {
    var pc := w.attempts[t];
    if pc.CommitTx? && pc.present { assert Executed(5) == Delta(true, true, true, true, true); }
  }

  function Left(pc: Pc): nat {
    match pc
    case AwaitLock => 16 case LockIdentity => 15 case Inspect(_) => 14 case CheckRuntime(_) => 13
    case Dispose(_) => 12 case Reinspect(_) => 11 case Remove(_) => 10 case Removing(_) => 9
    case VerifyRemoval(_) => 8
    case Statement(next, _, _) => if next <= 5 then 7 - next else 1
    case CommitTx(_, _, _) => 1
    case Succeeded(_) | Failed(_) | Crashed => 0
  }

  /** From any state that crashes, lost acknowledgements and failures may have left, a
      retry in which nothing fails ends purged if and only if the path is free or still
      holds the exact package; otherwise it ends in a conflict. */
  lemma {:induction false} RetryConverges(
    w: World, t: nat, before: Db, intact: bool, acts: seq<Action>, last: World)
    requires Inv(w) && RetainedRow(w.request, before) && OnCourse(w, t, before, intact)
    requires FaultFreeRun(w, acts, t, last) && t in last.attempts && Ended(last.attempts[t])
    ensures last.attempts[t].Succeeded? <==> intact
    ensures intact ==> last.db == PURGED && last.tree.Absent?
    ensures !intact ==> last.attempts[t] == Failed(true)
    decreases |acts|
  {
    if acts != [] {
      StepInv(w, acts[0]);
      OnCourseStep(w, acts[0], t, before, intact);
      RetryConverges(Step(w, acts[0]), t, before, intact, acts[1..], last);
    } else {
      assert w == last;
    }
  }

  /** The retry as it starts: after any run without reinstall, with no attempt alive. */
  lemma FreshRetryOutcome(
    w: World, acts: seq<Action>, v: World, t: nat, retry: seq<Action>, last: World)
    requires Init(w) && Run(w, acts, v) && NoReinstall(acts)
    requires forall u :: u in v.attempts ==> Ended(v.attempts[u])
    requires t !in v.attempts && FaultFreeRun(Step(v, Start(t)), retry, t, last)
    requires t in last.attempts && Ended(last.attempts[t])
    ensures last.attempts[t].Succeeded? <==> TreeIntact(v)
    ensures TreeIntact(v) ==> last.db == PURGED && last.tree.Absent?
    ensures !TreeIntact(v) ==> last.attempts[t] == Failed(true)
  {
    PurgeIsAllOrNothing(w, acts, v, w.db);
    StepInv(v, Start(t));
    assert v.lock.None?;
    RetryConverges(Step(v, Start(t)), t, w.db, TreeIntact(v), retry, last);
  }

  /** Such a retry always runs to its end. */
  lemma {:induction false} RetryEnds(w: World, t: nat, before: Db, intact: bool, r: DatabaseReceipt)
    returns (acts: seq<Action>, last: World)
    requires Inv(w) && RetainedRow(w.request, before) && OnCourse(w, t, before, intact)
    requires ValidDatabaseReceipt(w.request, r) && (w.disposed.None? || w.disposed == Some(r))
    ensures FaultFreeRun(w, acts, t, last) && t in last.attempts && Ended(last.attempts[t])
    decreases Left(w.attempts[t])
  {
    if Ended(w.attempts[t]) {
      acts, last := [], w;
    } else {
      var env := if w.attempts[t].Dispose? then Disposition(r)
                 else if w.attempts[t].Remove? then Partially("") else Good;
      var a := Tick(t, env);
      StepInv(w, a);
      OnCourseStep(w, a, t, before, intact);
      KeepsReceipt(w, a, t, r);
      var rest;
      rest, last := RetryEnds(Step(w, a), t, before, intact, r);
      acts := [a] + rest;
      assert acts[1..] == rest;
    }
  }

  lemma KeepsReceipt(w: World, a: Action, t: nat, r: DatabaseReceipt)
    requires Inv(w) && Enabled(w, a) && a.Tick? && (w.disposed.None? || w.disposed == Some(r))
    requires a.env.Disposition? ==> a.env.receipt == r
    requires !a.env.DispositionLost?
    ensures Step(w, a).disposed.None? || Step(w, a).disposed == Some(r)
  {
  }

  /** The steps up to the database disposition, on an untouched installation. */
  lemma ReachesDisposition(w: World) returns (acts: seq<Action>, v: World)
    requires Init(w) && w.tree == Present(w.request.digest)
    ensures Run(w, acts, v) && NoReinstall(acts)
    ensures v == w.(attempts := map[0 := Dispose(true)], lock := Some(0))
  {
    var w1 := Step(w, Start(0));
    var w2 := Step(w1, Tick(0, Good));
    var w3 := Step(w2, Tick(0, Good));
    var w4 := Step(w3, Tick(0, Good));
    v := Step(w4, Tick(0, Good));
    var tail := RunSuffix(w1, Tick(0, Good), Tick(0, Good), Tick(0, Good), Tick(0, Good), v);
    acts := [Start(0)] + tail;
    assert acts[1..] == tail;
  }

  /** The steps from there into the removal and the crash inside it. */
  lemma CrashesInRemoval(w: World, r: DatabaseReceipt, left: string) returns (acts: seq<Action>, v: World)
    requires w.attempts == map[0 := Dispose(true)] && w.lock == Some(0) && w.tree == Present(w.request.digest)
    requires ValidDatabaseReceipt(w.request, r) && w.disposed.None?
    ensures Run(w, acts, v) && NoReinstall(acts)
    ensures v.db == w.db && v.request == w.request && v.tree == Present(left) && v.attempts == map[0 := Crashed]
  {
    var w1 := Step(w, Tick(0, Disposition(r)));
    var w2 := Step(w1, Tick(0, Good));
    var w3 := Step(w2, Tick(0, Partially(left)));
    v := Step(w3, Crash(0));
    acts := RunSuffix(w, Tick(0, Disposition(r)), Tick(0, Good), Tick(0, Partially(left)), Crash(0), v);
  }

  /** The condition is needed: RemoveAll is not atomic, and an attempt that dies inside
      it leaves a tree that no retry accepts. */
  lemma CrashInsideRemoval(w: World, r: DatabaseReceipt, left: string) returns (acts: seq<Action>, v: World)
    requires Init(w) && w.tree == Present(w.request.digest) && ValidDatabaseReceipt(w.request, r)
    requires left != w.request.digest
    ensures Run(w, acts, v) && NoReinstall(acts) && Inv(v)
    ensures v.db == w.db && v.tree == Present(left) && !TreeIntact(v)
    ensures forall u :: u in v.attempts ==> Ended(v.attempts[u])
  {
    var head, mid := ReachesDisposition(w);
    var tail;
    tail, v := CrashesInRemoval(mid, r, left);
    RunAppend(w, head, mid, tail, v);
    acts := head + tail;
    PurgeIsAllOrNothing(w, acts, v, w.db);
  }

  lemma RunSuffix(w: World, a: Action, b: Action, c: Action, d: Action, last: World) returns (acts: seq<Action>)
    requires Enabled(w, a) && Enabled(Step(w, a), b) && Enabled(Step(Step(w, a), b), c)
    requires Enabled(Step(Step(Step(w, a), b), c), d) && last == Step(Step(Step(Step(w, a), b), c), d)
    ensures acts == [a, b, c, d] && Run(w, acts, last)
  {
    acts := [a, b, c, d];
    assert [d][1..] == [];
    assert Run(Step(Step(Step(w, a), b), c), [d], last);
    assert [c, d][1..] == [d];
    assert [b, c, d][1..] == [c, d];
    assert acts[1..] == [b, c, d];
  }

  lemma {:induction false} RunAppend(w: World, xs: seq<Action>, mid: World, ys: seq<Action>, last: World)
    requires Run(w, xs, mid) && Run(mid, ys, last)
    ensures Run(w, xs + ys, last)
    decreases |xs|
  {
    if xs == [] {
      assert xs + ys == ys;
    } else {
      RunAppend(Step(w, xs[0]), xs[1..], mid, ys, last);
      assert (xs + ys)[1..] == xs[1..] + ys;
    }
  }

  // ---- what every success rests on -----------------------------------------------------------

  /** Some step of the run satisfies `p`, with the world it starts from. */
  ghost predicate Happens(w: World, acts: seq<Action>, p: (World, Action) -> bool)
    decreases |acts|
  {
    acts != [] && Enabled(w, acts[0]) && (p(w, acts[0]) || Happens(Step(w, acts[0]), acts[1..], p))
  }

  lemma {:induction false} EndedStays(w: World, t: nat, acts: seq<Action>, last: World)
    requires t in w.attempts && Ended(w.attempts[t]) && Run(w, acts, last)
    ensures t in last.attempts && last.attempts[t] == w.attempts[t]
    decreases |acts|
  {
    if acts != [] {
      OthersKeep(w, t, acts[0]);
      EndedStays(Step(w, acts[0]), t, acts[1..], last);
    }
  }

  predicate MovedBy(a: Action, t: nat) { (a.Tick? || a.Crash?) && a.t == t }

  lemma OthersKeep(w: World, t: nat, a: Action)
    requires t in w.attempts && Enabled(w, a) && !MovedBy(a, t)
    ensures t in Step(w, a).attempts && Step(w, a).attempts[t] == w.attempts[t]
  {
  }

  /** An attempt that found no identity row and inspects an occupied path, whatever it
      holds, touches nothing and ends as a failure on every continuation; without a
      fault it ends in a conflict. */
  lemma OccupiedPathIsRefused(w: World, t: nat, a: Action, acts: seq<Action>, last: World)
    requires t in w.attempts && w.attempts[t] == Inspect(false) && w.tree.Present?
    requires MovedBy(a, t) && Enabled(w, a) && Run(Step(w, a), acts, last)
    ensures Step(w, a).db == w.db && Step(w, a).tree == w.tree && Step(w, a).disposed == w.disposed
    ensures t in last.attempts && (last.attempts[t].Failed? || last.attempts[t].Crashed?)
    ensures a == Tick(t, Good) ==> last.attempts[t] == Failed(true)
  {
    EndedStays(Step(w, a), t, acts, last);
  }

  /** Attempt `t`, which found no row, inspects the path and finds it free. */
  predicate InspectsFreePath(w: World, a: Action, t: nat) {
    a == Tick(t, Good) && t in w.attempts && w.attempts[t] == Inspect(false) && w.tree.Absent?
  }

  ghost predicate InspectedAFreePath(w: World, acts: seq<Action>, t: nat) {
    Happens(w, acts, (v: World, a: Action) => InspectsFreePath(v, a, t))
  }

  /** With reinstalls and everything else going on: an attempt that found no identity row
      succeeds only if its own inspection found the path free. */
  lemma {:induction false} NoRowSuccessInspectedAFreePath(w: World, t: nat, acts: seq<Action>, last: World)
    requires t in w.attempts && w.attempts[t] == Inspect(false)
    requires Run(w, acts, last) && t in last.attempts && last.attempts[t].Succeeded?
    ensures InspectedAFreePath(w, acts, t)
    decreases |acts|
  {
    if MovedBy(acts[0], t) {
      if w.tree.Present? {
        OccupiedPathIsRefused(w, t, acts[0], acts[1..], last);
      } else if acts[0] != Tick(t, Good) {
        EndedStays(Step(w, acts[0]), t, acts[1..], last);
      }
    } else {
      OthersKeep(w, t, acts[0]);
      NoRowSuccessInspectedAFreePath(Step(w, acts[0]), t, acts[1..], last);
    }
  }

  /** Attempt `t` sees with its own eyes that nothing is at the path. */
  predicate SeesFreePath(w: World, a: Action, t: nat) {
    && a == Tick(t, Good) && t in w.attempts && w.tree.Absent?
    && (w.attempts[t] == Inspect(false) || w.attempts[t].Reinspect? || w.attempts[t].VerifyRemoval?)
  }

  ghost predicate SawAFreePath(w: World, acts: seq<Action>, t: nat) {
    Happens(w, acts, (v: World, a: Action) => SeesFreePath(v, a, t))
  }

  predicate PathCleared(pc: Pc) {
    || pc.Statement? || pc.CommitTx? || pc.Succeeded?
    || ((pc.CheckRuntime? || pc.Dispose?) && !pc.present)
  }

  lemma ClearsOnlyBySeeing(w: World, t: nat, a: Action)
    requires Enabled(w, a) && MovedBy(a, t) && !PathCleared(w.attempts[t]) && PathCleared(Step(w, a).attempts[t])
    ensures SeesFreePath(w, a, t)
  {
  }

  /** Every success, of any attempt in any run, was preceded by that attempt seeing the
      path free: at its inspection, or before or after its own removal. */
  lemma {:induction false} SuccessSawTheFreePath(w: World, t: nat, acts: seq<Action>, last: World)
    requires t in w.attempts ==> !PathCleared(w.attempts[t])
    requires Run(w, acts, last) && t in last.attempts && PathCleared(last.attempts[t])
    ensures SawAFreePath(w, acts, t)
    decreases |acts|
  {
    var v := Step(w, acts[0]);
    if MovedBy(acts[0], t) {
      if PathCleared(v.attempts[t]) {
        ClearsOnlyBySeeing(w, t, acts[0]);
      } else {
        SuccessSawTheFreePath(v, t, acts[1..], last);
      }
    } else {
      if t in w.attempts { OthersKeep(w, t, acts[0]); }
      SuccessSawTheFreePath(v, t, acts[1..], last);
    }
  }

  /** Attempt `t` is told that the exact runtime instance is gone. */
  predicate SeesRuntimeGone(w: World, a: Action, t: nat) {
    a == Tick(t, Good) && t in w.attempts && w.attempts[t].CheckRuntime?
  }

  predicate RuntimeCleared(pc: Pc) {
    || pc.Dispose? || pc.Reinspect? || pc.Remove? || pc.Removing? || pc.VerifyRemoval?
    || pc.Statement? || pc.CommitTx? || pc.Succeeded?
  }

  lemma RuntimeClearsOnlyBySeeing(w: World, t: nat, a: Action)
    requires Enabled(w, a) && MovedBy(a, t) && !RuntimeCleared(w.attempts[t]) && RuntimeCleared(Step(w, a).attempts[t])
    ensures SeesRuntimeGone(w, a, t)
  {
  }

  /** No attempt disposes of data, removes files or succeeds without having been told
      that the runtime instance is gone; one that is still there is a conflict. */
  lemma {:induction false} NothingBeforeTheRuntimeIsGone(w: World, t: nat, acts: seq<Action>, last: World)
    requires t in w.attempts ==> !RuntimeCleared(w.attempts[t])
    requires Run(w, acts, last) && t in last.attempts && RuntimeCleared(last.attempts[t])
    ensures Happens(w, acts, (v, a) => SeesRuntimeGone(v, a, t))
    decreases |acts|
  {
    var v := Step(w, acts[0]);
    if MovedBy(acts[0], t) {
      if RuntimeCleared(v.attempts[t]) {
        RuntimeClearsOnlyBySeeing(w, t, acts[0]);
      } else {
        NothingBeforeTheRuntimeIsGone(v, t, acts[1..], last);
      }
    } else {
      if t in w.attempts { OthersKeep(w, t, acts[0]); }
      NothingBeforeTheRuntimeIsGone(v, t, acts[1..], last);
    }
  }

  /** A removal is begun only on a tree that holds exactly the retained package, and only
      a removal that was begun changes the tree. */
  lemma RemovesOnlyTheExactPackage(w: World, a: Action)
    requires Inv(w) && Enabled(w, a) && ByAttempt(a) && Step(w, a).tree != w.tree
    ensures a.Tick? && (w.attempts[a.t].Remove? || w.attempts[a.t].Removing?)
    ensures w.attempts[a.t].Remove? ==> w.tree == Present(w.request.digest)
    ensures w.attempts[a.t].Removing? ==> Step(w, a).tree.Absent?
  {
    assert AttemptInv(w, w.attempts[a.t]);
  }

  /** A failed effect is a failure, not a conflict, and it changes nothing. */
  lemma FaultsChangeNothing(w: World, t: nat)
    requires Enabled(w, Tick(t, Fault))
    ensures var v := Step(w, Tick(t, Fault));
            && v.attempts[t] == Failed(false)
            && v.db == w.db && v.tree == w.tree && v.disposed == w.disposed
  {
  }

  /** A lost acknowledgement is never answered as a success, nor as a conflict: the purge
      has happened, or the disposition is recorded, and the attempt can be repeated. */
  lemma LostAcknowledgementsAreFailures(w: World, t: nat, env: Env)
    requires Inv(w) && t in w.attempts && Enabled(w, Tick(t, env)) && (env.CommitLost? || env.DispositionLost?)
    ensures var v := Step(w, Tick(t, env));
            && v.attempts[t] == Failed(false) && v.tree == w.tree
            && (env.CommitLost? ==> v.db == if w.attempts[t].present then PURGED else w.db)
            && (env.DispositionLost? ==> v.db == w.db && v.disposed == Some(env.receipt))
  {
    assert AttemptInv(w, w.attempts[t]);
    assert Executed(5) == Delta(true, true, true, true, true);
  }

  /** A runtime that is still there, and a disposition that is not the requested one, end
      the attempt in a conflict that has touched neither rows nor files. */
  lemma RefusalsTouchNothing(w: World, t: nat, env: Env)
    requires t in w.attempts && Enabled(w, Tick(t, env))
    requires || env.StillRunning?
             || (env.Disposition? && !ValidDatabaseReceipt(w.request, env.receipt))
    ensures var v := Step(w, Tick(t, env));
            v.db == w.db && v.tree == w.tree && v.attempts[t] == Failed(true) && (w.lock == Some(t) ==> v.lock.None?)
  {
  }

  // ---- reinstalls ------------------------------------------------------------------------

  /** An attempt changes the database or the tree only while the retained row is there. */
  lemma AttemptsTouchOnlyTheRetained(w: World, a: Action)
    requires Inv(w) && Enabled(w, a) && ByAttempt(a) && !RetainedRow(w.request, w.db)
    ensures Step(w, a).db == w.db && Step(w, a).tree == w.tree
  {
  }

  /** The retained row never comes back: reinstalls take fresh version ids. */
  lemma RetainedStaysGone(w: World, acts: seq<Action>, last: World)
    requires Inv(w) && !RetainedRow(w.request, w.db) && Run(w, acts, last)
    requires Foreign(w)
    ensures Inv(last) && Foreign(last) && !RetainedRow(last.request, last.db)
  {
    var p := (v: World) => Foreign(v);
    forall v, a | Inv(v) && p(v) && Enabled(v, a) ensures p(Step(v, a)) { ForeignStep(v, a); }
    RunPreserves(p, w, acts, last);
  }

  lemma ForeignStep(w: World, a: Action)
    requires Inv(w) && Foreign(w) && Enabled(w, a)
    ensures Foreign(Step(w, a))
  {
    if ByAttempt(a) { AttemptsTouchOnlyTheRetained(w, a); }
  }

  predicate Foreign(w: World) {
    w.db.extension.Some? ==> w.db.extension.value.active != Some(w.request.versionId)
  }

  /** Reinstall safety over whole runs: once the retained row is gone, the final row,
      references and tree are exactly what the rest of the system last wrote; the
      attempts of this cleanup, old or new, erase nothing. */
  lemma {:induction false} ReinstallIsNeverPurged(w: World, acts: seq<Action>, last: World)
    requires Inv(w) && Foreign(w) && Run(w, acts, last)
    ensures last.db == WrittenDb(w.db, acts) && last.tree == WrittenTree(w.tree, acts)
    decreases |acts|
  {
    if acts != [] {
      var v := Step(w, acts[0]);
      StepInv(w, acts[0]);
      if ByAttempt(acts[0]) { AttemptsTouchOnlyTheRetained(w, acts[0]); }
      ReinstallIsNeverPurged(v, acts[1..], last);
    }
  }

  /** The database as the actions outside this cleanup alone leave it. */
  function WrittenDb(db: Db, acts: seq<Action>): Db
    decreases |acts|
  {
    if acts == [] then db
    else
      var next := match acts[0]
        case InsertExtension(v, artifact) => db.(extension := Some(Extension(Some(v), map[v := artifact])))
        case DeleteExtension => db.(extension := None)
        case ChangeReferences(b, g, f, m) =>
          db.(bindings := b, trust := g, frontendTrust := f, mailSelection := m)
        case _ => db;
      WrittenDb(next, acts[1..])
  }

  function WrittenTree(tree: Tree, acts: seq<Action>): Tree
    decreases |acts|
  {
    if acts == [] then tree
    else WrittenTree(if acts[0].WriteTree? then acts[0].tree else tree, acts[1..])
  }

  /** All successful attempts of one cleanup answer the same receipt, and it is the
      one that binds the first database disposition. */
  lemma ReceiptsAgree(w: World, acts: seq<Action>, last: World, t: nat, u: nat)
    requires Init(w) && Run(w, acts, last)
    requires t in last.attempts && u in last.attempts
    requires last.attempts[t].Succeeded? && last.attempts[u].Succeeded?
    ensures last.attempts[t].answer == last.attempts[u].answer
    ensures last.disposed.Some? && last.attempts[t].answer == ReceiptFor(last.request, last.disposed.value)
    ensures ValidDatabaseReceipt(last.request, last.disposed.value)
  {
    RunPreserves(_ => true, w, acts, last);
  }

  /** A purge receipt names its request and the disposition it rests on: equal receipts
      come from equal requests, receipt ids, proof digests and proofs. */
  lemma PurgeReceiptBinds(q: Request, r: DatabaseReceipt, q': Request, r': DatabaseReceipt)
    ensures ReceiptFor(q, r) == ReceiptFor(q', r') ==>
              q == q' && r.receiptId == r'.receiptId && r.proofDigest == r'.proofDigest && r.proof.bytes == r'.proof.bytes
              && r.disposition == r'.disposition
  {
  }

  /** A disposition is accepted only for the artifact and operation it was asked for, by
      a proof with its own hash, and with the outcome its mode allows: preserving keeps
      an existing schema and no mode but preserving keeps the roles. */
  lemma AcceptedDispositions(q: Request, r: DatabaseReceipt)
    requires ValidDatabaseReceipt(q, r)
    ensures r.cleanupId == q.cleanupId && r.operationId == q.operationId && r.mode == q.mode
    ensures r.extensionId == q.extensionId && r.version == q.version && r.versionId == q.versionId && r.digest == q.digest
    ensures r.exportId == q.exportId && r.exportDigest == q.exportDigest
    ensures r.credentialRevoked && r.proof.isNonEmptyObject && r.proof.sha256 == r.proofDigest && |r.proofDigest| == 64
    ensures 1 <= |r.receiptId| <= 200
    ensures r.disposition == "preserved" <==> q.mode == Preserve
    ensures r.disposition == "exported_then_removed" <==> q.mode == Export
    ensures r.disposition == "removed" <==> q.mode == Complete
    ensures r.resourceExisted ==> r.schemaRetained != r.rolesRemoved && (r.schemaRetained <==> q.mode == Preserve)
    ensures !r.resourceExisted ==> !r.schemaRetained && !r.rolesRemoved
    ensures r.exportEvidenceDigest != "" <==> q.mode == Export
  {
    var preserved, removed, exported := ExpectedDisposition(Preserve), ExpectedDisposition(Complete), ExpectedDisposition(Export);
    assert |preserved| == 9 && |removed| == 7 && |exported| == 21;
  }

  // ---- the cleanup transaction -------------------------------------------------------------

  datatype CommitOutcome = Committed | AckLost | NotCommitted

  /** `productionLifecycleCleanupIdentity` over the committed rows it works on. */
  class CleanupIdentity {
    const request: Request
    var db: Db
    var present: bool
    var finished: bool

    constructor (request: Request, db: Db)
      ensures this.request == request && this.db == db && !present && !finished
    {
      this.request := request;
      this.db := db;
      present, finished := false, false;
    }

    /** The row lock: present iff the row is exactly the retained artifact. */
    method LockExactExtension() returns (conflict: bool)
      requires !present
      modifies this`present
      ensures !conflict ==> (present <==> db.extension.Some?) && (present ==> RetainedRow(request, db))
      ensures conflict <==> db.extension.Some? && !RetainedRow(request, db)
      ensures LockExact(request, db) == if conflict then LockConflict else Locked(present)
    {
      conflict := false;
      match db.extension {
        case None => present := false;
        case Some(row) =>
          if row.active != Some(request.versionId) || request.versionId !in row.versions
             || row.versions[request.versionId] != Artifact(request.version, request.digest, request.path) {
            return true;
          }
          present := true;
      }
    }

    /** Either the whole purge becomes visible or nothing does, and a finished identity
        is never committed or rolled back again. */
    method CommitPurge(outcome: CommitOutcome) returns (ok: bool)
      modifies this
      ensures ok ==> finished && !old(finished)
      ensures ok <==> !old(finished) && outcome == Committed &&
                      (present ==> old(db).extension.Some? && old(db).extension.value.active == Some(request.versionId))
      ensures present == old(present) && (!ok ==> finished == old(finished))
      ensures db == if !old(finished) && present && outcome != NotCommitted
                       && old(db).extension.Some? && old(db).extension.value.active == Some(request.versionId)
                    then PURGED else old(db)
    {
      if finished { return false; }
      var delta := NO_DELTA;
      if present {
        var statement := 0;
        while statement < 5
          invariant 0 <= statement <= 5 && delta == Executed(statement)
          invariant db == old(db) && present == old(present) && !finished
          invariant statement == 5 ==> db.extension.Some? && db.extension.value.active == Some(request.versionId)
        {
          if statement == 4 && (db.extension.None? || db.extension.value.active != Some(request.versionId)) {
            return false;
          }
          delta := Execute(statement, delta);
          statement := statement + 1;
        }
        assert Executed(5) == Delta(true, true, true, true, true);
      }
      if outcome == NotCommitted { return false; }
      db := Commit(db, delta);
      if outcome == AckLost { return false; }
      finished := true;
      return true;
    }

    method Rollback()
      modifies this`finished
      ensures finished
    {
      if finished { return; }
      finished := true;
    }
  }
}
