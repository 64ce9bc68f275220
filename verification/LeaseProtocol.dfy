/** The four lease commands of `scripts/agent-lease.ts` as interleaved steps, one file operation a step.
    Any number of commands are in flight at once; a command that stops taking steps has crashed there.
    A file holds a value: every file of the protocol is written once, under a fresh name, before it is
    linked or renamed, so `link` may copy the value instead of the inode. */
module LeaseProtocol {
  import opened Wrappers
  import opened Lease

  datatype Name =
    | LeasePath
    | Staging(CommandId)
    | Temporary(CommandId)
    | Claim(claimant: CommandId)
    | Released(leaseId: LeaseId, generation: nat)
    | Abandoned(leaseId: LeaseId, generation: nat)
    | AbandonedMeta(leaseId: LeaseId, generation: nat)

  /** `Torn` is a created file whose record is not written yet. */
  datatype Content = Torn | Whole(record: LeaseRecord) | Meta(successorAttempt: CommandId)

  datatype ProcessProbe = Alive(startedAt: string) | Absent | Unknown

  /** The answers of the outside world to one step: a probe, a second look at the repository,
      and whether the file operation fails for a reason other than EEXIST or ENOENT. */
  datatype Environment = Environment(probe: ProcessProbe, recheck: Option<RepoFacts>, fault: bool)

  datatype LinkOutcome = Linked | Exists | Broken

  /** A record on its way to the lease path; `parent` is the record a takeover validated. */
  datatype Publishing = Publishing(record: LeaseRecord, now: Instant, parent: Option<LeaseRecord>,
                                   steps: seq<TakeoverStep>)

  datatype OwnerVerb = BeatVerb(ttlSeconds: nat) | ReleaseVerb

  /** The next file operation of a command. */
  datatype Pc =
    | OpenStaging(p: Publishing)
    | WriteStaging(p: Publishing)
    | LinkStaging(p: Publishing)
    | UnlinkStaging(p: Publishing, outcome: LinkOutcome)
    | ReadHolder(p: Publishing)
    | ReadOwned(verb: OwnerVerb, now: Instant)
    | OpenTemporary(updated: LeaseRecord)
    | WriteTemporary(updated: LeaseRecord)
    | RenameTemporary(updated: LeaseRecord)
    | RenameReleased(owned: LeaseRecord)
    | ReadIncumbent(t: TakeoverContext)
    | ProbeWriter(t: TakeoverContext, previous: LeaseRecord, steps: seq<TakeoverStep>)
    | RenameClaim(t: TakeoverContext, previous: LeaseRecord, steps: seq<TakeoverStep>)
    | RenameEvidence(t: TakeoverContext, previous: LeaseRecord, steps: seq<TakeoverStep>)
    | Recheck(t: TakeoverContext, previous: LeaseRecord, steps: seq<TakeoverStep>)
    | WriteMeta(t: TakeoverContext, previous: LeaseRecord, steps: seq<TakeoverStep>, refusal: Option<ReasonCode>)
    | Done(result: LeaseResult)

  datatype Request =
    | Acquire(options: AcquireOptions)
    | Heartbeat(ttlSeconds: Option<nat>)
    | Release
    | Takeover(options: AcquireOptions)

  datatype Command = Command(writer: WriterId, request: Request, pc: Pc) {
    predicate Active() {
      !pc.Done?
    }
  }

  /** A record as it was first linked to the lease path, and the record its takeover replaced. */
  datatype Publication = Publication(record: LeaseRecord, parent: Option<LeaseRecord>)

  type Publications = map<LeaseId, Publication>

  /** The files and the commands, with three history variables: the processes that have died, every
      publication so far, and the leases granted and not yet released. */
  datatype State = State(
    files: map<Name, Content>, commands: map<CommandId, Command>,
    dead: set<WriterId>, published: Publications, granted: set<LeaseId>)
  {
    function To(c: CommandId, pc: Pc): State
      requires c in commands
    {
      this.(commands := commands[c := commands[c].(pc := pc)])
    }

    function Finish(c: CommandId, result: LeaseResult): State
      requires c in commands
    {
      To(c, Done(result))
    }

    function Store(n: Name, content: Content): State {
      this.(files := files[n := content])
    }

    function Rename(from: Name, target: Name): State
      requires from in files
    {
      this.(files := (files - {from})[target := files[from]])
    }

    function Unlink(n: Name): State {
      this.(files := files - {n})
    }
  }

  const INITIAL := State(map[], map[], {}, map[], {})

  datatype Action =
    | Start(c: CommandId, writer: WriterId, request: Request, facts: Option<RepoFacts>, now: Instant)
    | Advance(c: CommandId, env: Environment)
    | Kill(writer: WriterId)

  /** The work of a command before its first file operation. */
  function Begin(c: CommandId, writer: WriterId, request: Request, facts: Option<RepoFacts>, now: Instant): Pc {
    match request
    case Acquire(options) => (
      match PlanAcquire(options, facts, c, writer, now)
      case Failure(reason) => Done(Refused(reason, []))
      case Success(record) => OpenStaging(Publishing(record, now, None, [])))
    case Heartbeat(ttl) =>
      if facts.None? then Done(Refused(UnaccountedState, []))
      else ReadOwned(BeatVerb(ttl.GetOr(DEFAULT_TTL_SECONDS)), now)
    case Release =>
      if facts.None? then Done(Refused(UnaccountedState, [])) else ReadOwned(ReleaseVerb, now)
    case Takeover(options) =>
      if facts.None? then Done(Refused(UnaccountedState, []))
      else ReadIncumbent(TakeoverContext(options, facts.value, now))
  }

  /** `classifyCreateFailure` after EEXIST: what the loser reads decides what it reports. */
  function Classify(files: map<Name, Content>, now: Instant): ReasonCode {
    if LeasePath !in files then UnaccountedState
    else if !files[LeasePath].Whole? then UnaccountedState
    else if files[LeasePath].record.Expired(now) then ExpiredUnreconciled
    else WriterConflict
  }

  /** `publishLeaseSync`, then the two ways out of it. */
  function AdvancePublish(s: State, c: CommandId, env: Environment): State
    requires c in s.commands
  {
    var pc := s.commands[c].pc;
    match pc
    case OpenStaging(p) =>
      if env.fault then s.To(c, UnlinkStaging(p, Broken))
      else s.Store(Staging(c), Torn).To(c, WriteStaging(p))
    case WriteStaging(p) =>
      if env.fault then s.To(c, UnlinkStaging(p, Broken))
      else s.Store(Staging(c), Whole(p.record)).To(c, LinkStaging(p))
    case LinkStaging(p) =>
      if env.fault || Staging(c) !in s.files then s.To(c, UnlinkStaging(p, Broken))
      else if LeasePath in s.files then s.To(c, UnlinkStaging(p, Exists))
      else
        s.Store(LeasePath, s.files[Staging(c)])
        .(published := s.published[p.record.leaseId := Publication(p.record, p.parent)],
          granted := s.granted + {p.record.leaseId})
        .To(c, UnlinkStaging(p, Linked))
    case UnlinkStaging(p, outcome) => (
      var s' := s.Unlink(Staging(c));
      match outcome
      case Linked => s'.Finish(c, Granted(p.record, p.steps))
      case Exists => s'.To(c, ReadHolder(p))
      case Broken => s'.Finish(c, Refused(UnaccountedState, [])))
    case ReadHolder(p) =>
      s.Finish(c, Refused(if env.fault then UnaccountedState else Classify(s.files, p.now), []))
    case _ => s
  }

  /** `loadOwnedLease`, then `replaceLease` or the rename of `releaseLease`. */
  function AdvanceOwner(s: State, c: CommandId, env: Environment): State
    requires c in s.commands
  {
    var cmd := s.commands[c];
    match cmd.pc
    case ReadOwned(verb, now) =>
      if env.fault || LeasePath !in s.files || !s.files[LeasePath].Whole? then
        s.Finish(c, Refused(UnaccountedState, []))
      else
        var record := s.files[LeasePath].record;
        if record.writer != cmd.writer then s.Finish(c, Refused(WriterConflict, []))
        else (
          match verb
          case BeatVerb(ttl) => s.To(c, OpenTemporary(record.Beat(now, ttl)))
          case ReleaseVerb => s.To(c, RenameReleased(record)))
    case OpenTemporary(updated) =>
      if env.fault then s.Finish(c, Refused(UnaccountedState, []))
      else s.Store(Temporary(c), Torn).To(c, WriteTemporary(updated))
    case WriteTemporary(updated) =>
      if env.fault then s.Finish(c, Refused(UnaccountedState, []))
      else s.Store(Temporary(c), Whole(updated)).To(c, RenameTemporary(updated))
    case RenameTemporary(updated) =>
      if env.fault || Temporary(c) !in s.files then s.Finish(c, Refused(UnaccountedState, []))
      else s.Rename(Temporary(c), LeasePath).Finish(c, Granted(updated, []))
    case RenameReleased(owned) =>
      if env.fault || LeasePath !in s.files then s.Finish(c, Refused(UnaccountedState, []))
      else
        s.Rename(LeasePath, Released(owned.leaseId, owned.generation))
        .(granted := s.granted - {owned.leaseId})
        .Finish(c, Granted(owned, []))
    case _ => s
  }

  /** `takeoverLease` up to its claim of the incumbent lease. */
  function AdvanceTakeover(s: State, c: CommandId, env: Environment): State
    requires c in s.commands
  {
    var cmd := s.commands[c];
    match cmd.pc
    case ReadIncumbent(t) =>
      if env.fault || LeasePath !in s.files || !s.files[LeasePath].Whole? then
        s.Finish(c, Refused(UnaccountedState, []))
      else (
        var previous := s.files[LeasePath].record;
        match CheckIncumbent(t, previous)
        case Failure(refusal) => s.Finish(c, refusal)
        case Success(steps) => s.To(c, ProbeWriter(t, previous, steps)))
    case ProbeWriter(t, previous, steps) =>
      if !env.probe.Absent? then
        s.Finish(c, Refused(ExpiredUnreconciled, steps + [TakeoverStep(2, WriterProvenAbsent, false)]))
      else
        s.To(c, RenameClaim(t, previous,
          steps + [TakeoverStep(2, WriterProvenAbsent, true), TakeoverStep(3, WorkspaceFrozen, true)]))
    case RenameClaim(t, previous, steps) =>
      var refused := steps + [TakeoverStep(4, RecordedAbandoned, false)];
      if env.fault then s.Finish(c, Refused(UnaccountedState, refused))
      else if LeasePath !in s.files then s.Finish(c, Refused(WriterConflict, refused))
      else s.Rename(LeasePath, Claim(c)).To(c, RenameEvidence(t, previous, steps))
    case _ => s
  }

  /** `takeoverLease` after its claim, up to the publication of the successor. */
  function AdvanceClaimed(s: State, c: CommandId, env: Environment): State
    requires c in s.commands
  {
    var cmd := s.commands[c];
    match cmd.pc
    case RenameEvidence(t, previous, steps) =>
      if env.fault || Claim(c) !in s.files then
        s.Finish(c, Refused(UnaccountedState, steps + [TakeoverStep(4, RecordedAbandoned, false)]))
      else
        s.Rename(Claim(c), Abandoned(previous.leaseId, previous.generation))
        .To(c, Recheck(t, previous,
          steps + [TakeoverStep(4, RecordedAbandoned, true), TakeoverStep(5, GenerationIncremented, true)]))
    case Recheck(t, previous, steps) =>
      var refusal := Revalidate(FreezeOf(t), env.recheck);
      s.To(c, WriteMeta(t, previous,
        steps + [TakeoverStep(6, LineageRevalidated, refusal.None?), TakeoverStep(7, AttemptIssued, refusal.None?)],
        refusal))
    case WriteMeta(t, previous, steps, refusal) =>
      if env.fault then s.Finish(c, Refused(UnaccountedState, steps))
      else (
        var s' := s.Store(AbandonedMeta(previous.leaseId, previous.generation), Meta(c));
        match refusal
        case Some(reason) => s'.Finish(c, Refused(reason, steps))
        case None =>
          s'.To(c, OpenStaging(Publishing(Successor(t, previous, c, cmd.writer), t.now, Some(previous), steps))))
    case _ => s
  }

  predicate PublishPc(pc: Pc) {
    pc.OpenStaging? || pc.WriteStaging? || pc.LinkStaging? || pc.UnlinkStaging? || pc.ReadHolder?
  }

  predicate OwnerPc(pc: Pc) {
    pc.ReadOwned? || pc.OpenTemporary? || pc.WriteTemporary? || pc.RenameTemporary? || pc.RenameReleased?
  }

  predicate ValidatePc(pc: Pc) {
    pc.ReadIncumbent? || pc.ProbeWriter? || pc.RenameClaim?
  }

  predicate ClaimedPc(pc: Pc) {
    pc.RenameEvidence? || pc.Recheck? || pc.WriteMeta?
  }

  function AdvanceCommand(s: State, c: CommandId, env: Environment): State
    requires c in s.commands
  {
    var pc := s.commands[c].pc;
    if PublishPc(pc) then AdvancePublish(s, c, env)
    else if OwnerPc(pc) then AdvanceOwner(s, c, env)
    else if ValidatePc(pc) then AdvanceTakeover(s, c, env)
    else AdvanceClaimed(s, c, env)
  }

  function Next(s: State, a: Action): State {
    match a
    case Kill(writer) => s.(dead := s.dead + {writer})
    case Start(c, writer, request, facts, now) =>
      if c in s.commands then s
      else s.(commands := s.commands[c := Command(writer, request, Begin(c, writer, request, facts, now))])
    case Advance(c, env) =>
      if c in s.commands then AdvanceCommand(s, c, env) else s
  }

  function Run(s: State, actions: seq<Action>): State {
    if actions == [] then s else Next(Run(s, actions[..|actions| - 1]), actions[|actions| - 1])
  }

  lemma {:induction false} RunJoin(s: State, xs: seq<Action>, ys: seq<Action>)
    ensures Run(s, xs + ys) == Run(Run(s, xs), ys)
  {
    if ys == [] {
      assert xs + ys == xs;
    } else {
      var n := |ys| - 1;
      RunJoin(s, xs, ys[..n]);
      assert (xs + ys)[..|xs + ys| - 1] == xs + ys[..n];
    }
  }
}
