/** The lease record and the policy decisions of `scripts/agent-lease.ts` that touch no file.
    UUIDs are modelled as the number of the command that draws them, so they never collide;
    instants are integer milliseconds; the free text of messages and steps is left out. */
module Lease {
  import opened Wrappers

  type Instant = int
  type CommandId = nat
  type LeaseId = CommandId

  const DEFAULT_TTL_SECONDS := 900

  datatype Mode = Write | Read

  /** `pid:<n>|start:<raw lstart>`. */
  datatype ProcessIdentity = ProcessIdentity(pid: int, startedAt: string) {
    /** `parseProcessIdentity` accepts exactly a positive pid with a non-empty start time. */
    predicate Parses() {
      pid > 0 && startedAt != ""
    }
  }

  /** What ownership compares: the session and the full process identity. */
  datatype WriterId = WriterId(sessionId: string, process: ProcessIdentity)

  datatype Repository = Repository(identity: string, worktreeIdentity: string, branch: Option<string>)

  datatype Lineage = Lineage(
    baseOid: Option<string>, candidateOid: Option<string>,
    observedMainOid: Option<string>, testedMergeOid: Option<string>)

  datatype Bindings = Bindings(manifest: string, policy: string, toolchain: string, plan: string)

  /** Branch and workspace state frozen by a takeover. */
  datatype Freeze = Freeze(
    branch: Option<string>, headOid: Option<string>, workspaceDigest: string,
    dirtyPaths: seq<string>, frozenAt: Instant)

  datatype LeaseRecord = LeaseRecord(
    leaseId: LeaseId, generation: nat, taskId: string, mode: Mode, attemptId: CommandId,
    writer: WriterId, toolIdentity: string, repository: Repository, lineage: Lineage,
    bindings: Bindings, allowedPaths: seq<string>,
    createdAt: Instant, heartbeatAt: Instant, expiresAt: Instant, freeze: Option<Freeze>)
  {
    predicate Expired(now: Instant) {
      expiresAt <= now
    }

    /** The record with a later heartbeat: nothing else changes. */
    function Beat(now: Instant, ttlSeconds: nat): LeaseRecord {
      this.(heartbeatAt := now, expiresAt := now + ttlSeconds * 1000)
    }
  }

  /** The two records are the same lease, possibly at different heartbeats. */
  predicate SameLease(a: LeaseRecord, b: LeaseRecord) {
    a.(heartbeatAt := 0, expiresAt := 0) == b.(heartbeatAt := 0, expiresAt := 0)
  }

  datatype RepoFacts = RepoFacts(
    repositoryIdentity: string, worktreeIdentity: string, branch: Option<string>,
    headOid: Option<string>, dirtyPaths: seq<string>, workspaceDigest: string,
    observedMainOid: Option<string>, bindings: Bindings)

  datatype ReasonCode =
    | WriterConflict | ExpiredUnreconciled | PathNotAllowed
    | UnexpectedHead | WrongBranch | UnaccountedState

  /** The seven reconciliation prerequisites, in their order. */
  datatype StepId =
    | HeartbeatExpired | WriterProvenAbsent | WorkspaceFrozen | RecordedAbandoned
    | GenerationIncremented | LineageRevalidated | AttemptIssued

  const STEP_ORDER: seq<StepId> := [
    HeartbeatExpired, WriterProvenAbsent, WorkspaceFrozen, RecordedAbandoned,
    GenerationIncremented, LineageRevalidated, AttemptIssued]

  datatype TakeoverStep = TakeoverStep(number: nat, id: StepId, satisfied: bool)

  datatype LeaseResult =
    | Granted(record: LeaseRecord, steps: seq<TakeoverStep>)
    | Refused(reason: ReasonCode, steps: seq<TakeoverStep>)

  /** `steps` is the receipt of the first `n` prerequisites, in order, all satisfied. */
  predicate Receipt(steps: seq<TakeoverStep>, n: nat)
    requires n <= |STEP_ORDER|
  {
    |steps| == n && forall i :: 0 <= i < n ==> steps[i] == TakeoverStep(i + 1, STEP_ORDER[i], true)
  }

  datatype AcquireOptions = AcquireOptions(
    taskId: string, toolIdentity: string, mode: Option<Mode>, allowedPaths: Option<seq<string>>,
    expectBranch: Option<string>, expectHeadOid: Option<string>, baseOid: Option<string>,
    ttlSeconds: Option<nat>)
  {
    function Ttl(): nat {
      ttlSeconds.GetOr(DEFAULT_TTL_SECONDS)
    }
  }

  predicate Disagrees(expected: Option<string>, observed: Option<string>) {
    expected.Some? && observed != expected
  }

  /** `planAcquire`: the root record of a new lineage, or the reason there is none. */
  function PlanAcquire(o: AcquireOptions, facts: Option<RepoFacts>, c: CommandId, writer: WriterId, now: Instant)
    : Result<LeaseRecord, ReasonCode>
  {
    if facts.None? then Failure(UnaccountedState)
    else if Disagrees(o.expectBranch, facts.value.branch) then Failure(WrongBranch)
    else if Disagrees(o.expectHeadOid, facts.value.headOid) then Failure(UnexpectedHead)
    else
      var f := facts.value;
      Success(LeaseRecord(
        c, 1, o.taskId, o.mode.GetOr(Write), c, writer, o.toolIdentity,
        Repository(f.repositoryIdentity, f.worktreeIdentity, f.branch),
        Lineage(if o.baseOid.Some? then o.baseOid else f.headOid, f.headOid, f.observedMainOid, None),
        f.bindings, o.allowedPaths.GetOr(["."]), now, now, now + o.Ttl() * 1000, None))
  }

  datatype TakeoverContext = TakeoverContext(options: AcquireOptions, facts: RepoFacts, now: Instant)

  /** The branch a takeover expects: the one asked for, or else the incumbent's. */
  function ExpectedBranch(t: TakeoverContext, previous: LeaseRecord): Option<string> {
    if t.options.expectBranch.Some? then t.options.expectBranch else previous.repository.branch
  }

  /** The checks a takeover makes between reading the incumbent record and probing its writer: it gets past them
      exactly when the lease is expired, of this worktree, on the expected branch and head, and names a process;
      the first of these that fails gives the reason. */
  function CheckIncumbent(t: TakeoverContext, previous: LeaseRecord): (r: Result<seq<TakeoverStep>, LeaseResult>)
    ensures r.Success? <==> (
      && previous.Expired(t.now) && previous.repository.worktreeIdentity == t.facts.worktreeIdentity
      && t.facts.branch == ExpectedBranch(t, previous) && !Disagrees(t.options.expectHeadOid, t.facts.headOid)
      && previous.writer.process.Parses())
    ensures r.Success? ==> Receipt(r.value, 1)
    ensures r.Failure? ==> r.error.Refused? && !r.error.reason.PathNotAllowed?
    ensures r.Failure? ==> match r.error.reason
      case WriterConflict => !previous.Expired(t.now)
      case UnaccountedState =>
        previous.Expired(t.now) && previous.repository.worktreeIdentity != t.facts.worktreeIdentity
      case WrongBranch =>
        && previous.Expired(t.now) && previous.repository.worktreeIdentity == t.facts.worktreeIdentity
        && t.facts.branch != ExpectedBranch(t, previous)
      case UnexpectedHead =>
        && previous.Expired(t.now) && previous.repository.worktreeIdentity == t.facts.worktreeIdentity
        && t.facts.branch == ExpectedBranch(t, previous) && Disagrees(t.options.expectHeadOid, t.facts.headOid)
      case ExpiredUnreconciled => previous.Expired(t.now) && !previous.writer.process.Parses()
      case PathNotAllowed => true
    ensures r.Failure? ==> |r.error.steps| == if r.error.reason.ExpiredUnreconciled? then 2 else 1
  {
    if !previous.Expired(t.now) then
      Failure(Refused(WriterConflict, [TakeoverStep(1, HeartbeatExpired, false)]))
    else
      var steps := [TakeoverStep(1, HeartbeatExpired, true)];
      if previous.repository.worktreeIdentity != t.facts.worktreeIdentity then Failure(Refused(UnaccountedState, steps))
      else if t.facts.branch != ExpectedBranch(t, previous) then Failure(Refused(WrongBranch, steps))
      else if Disagrees(t.options.expectHeadOid, t.facts.headOid) then Failure(Refused(UnexpectedHead, steps))
      else if !previous.writer.process.Parses() then
        Failure(Refused(ExpiredUnreconciled, steps + [TakeoverStep(2, WriterProvenAbsent, false)]))
      else Success(steps)
  }

  function FreezeOf(t: TakeoverContext): Freeze {
    Freeze(t.facts.branch, t.facts.headOid, t.facts.workspaceDigest, t.facts.dirtyPaths, t.now)
  }

  /** Prerequisite 6: what the second look at the repository says, if it refuses. */
  function Revalidate(frozen: Freeze, recheck: Option<RepoFacts>): Option<ReasonCode> {
    if recheck.None? then Some(UnaccountedState)
    else if recheck.value.headOid != frozen.headOid || recheck.value.branch != frozen.branch then Some(UnexpectedHead)
    else if recheck.value.workspaceDigest != frozen.workspaceDigest then Some(UnaccountedState)
    else None
  }

  /** The record a takeover publishes: the lineage of `previous`, one generation later. */
  function Successor(t: TakeoverContext, previous: LeaseRecord, c: CommandId, writer: WriterId): LeaseRecord {
    var o, f := t.options, t.facts;
    LeaseRecord(
      c, previous.generation + 1, o.taskId, o.mode.GetOr(previous.mode), c, writer, o.toolIdentity,
      Repository(f.repositoryIdentity, f.worktreeIdentity, f.branch),
      Lineage(previous.lineage.baseOid, f.headOid, f.observedMainOid, None),
      f.bindings, o.allowedPaths.GetOr(previous.allowedPaths),
      t.now, t.now, t.now + o.Ttl() * 1000, Some(FreezeOf(t)))
  }
}
