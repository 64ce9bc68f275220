/** The lease commands of `scripts/agent-lease.ts` as they are written: each changes the files of the state
    directory one operation after another and pushes onto its receipt. Run undisturbed and without I/O errors,
    each does what its contract says, and takes exactly the steps that `LeaseProtocol` interleaves. */
module LeaseCommands {
  import opened Wrappers
  import opened Lease
  import opened LeaseProtocol

  const NO_FAULT := Environment(Absent, None, false)

  /** Every action starts or advances command `c`. */
  predicate OnlyOf(actions: seq<Action>, c: CommandId) {
    forall a <- actions :: !a.Kill? && a.c == c
  }

  /** A whole record of `writer` is at the lease path. */
  predicate OwnsLease(files: map<Name, Content>, writer: WriterId) {
    LeasePath in files && files[LeasePath].Whole? && files[LeasePath].record.writer == writer
  }

  /** Why a heartbeat or a release is refused, when it is. */
  function OwnerRefusal(files: map<Name, Content>, facts: Option<RepoFacts>): ReasonCode {
    if facts.Some? && LeasePath in files && files[LeasePath].Whole? then WriterConflict else UnaccountedState
  }

  /** What a takeover finds before its claim: the lease it may claim, with the first three lines of the receipt,
      or its refusal. */
  function Validated(files: map<Name, Content>, t: TakeoverContext, probe: ProcessProbe)
    : (v: Result<(LeaseRecord, seq<TakeoverStep>), LeaseResult>)
    ensures v.Success? ==> (
      && LeasePath in files && files[LeasePath] == Whole(v.value.0) && v.value.0.Expired(t.now) && probe.Absent?
      && Receipt(v.value.1, 3))
    ensures v.Failure? ==> v.error.Refused?
  {
    var checked := CheckedLease(files, t);
    if checked.Failure? then Failure(checked.error)
    else if !probe.Absent? then
      Failure(Refused(ExpiredUnreconciled, checked.value.1 + [TakeoverStep(2, WriterProvenAbsent, false)]))
    else
      Success((checked.value.0,
               checked.value.1 + [TakeoverStep(2, WriterProvenAbsent, true), TakeoverStep(3, WorkspaceFrozen, true)]))
  }

  function CheckedLease(files: map<Name, Content>, t: TakeoverContext)
    : (v: Result<(LeaseRecord, seq<TakeoverStep>), LeaseResult>)
    ensures v.Success? ==> (
      && LeasePath in files && files[LeasePath] == Whole(v.value.0) && v.value.0.Expired(t.now)
        && Receipt(v.value.1, 1))
    ensures v.Failure? ==> v.error.Refused?
  {
    if LeasePath !in files || !files[LeasePath].Whole? then Failure(Refused(UnaccountedState, []))
    else
      var checks := CheckIncumbent(t, files[LeasePath].record);
      if checks.Failure? then Failure(checks.error) else Success((files[LeasePath].record, checks.value))
  }

  /** The last four lines of the receipt, which depend on the second look. */
  function LastSteps(refusal: Option<ReasonCode>): seq<TakeoverStep> {
    [TakeoverStep(4, RecordedAbandoned, true), TakeoverStep(5, GenerationIncremented, true),
     TakeoverStep(6, LineageRevalidated, refusal.None?), TakeoverStep(7, AttemptIssued, refusal.None?)]
  }

  /** `t` is what some steps of `c`, and of no other command, make of `s`. */
  ghost predicate Alone(s: State, t: State, c: CommandId) {
    exists actions :: OnlyOf(actions, c) && Run(s, actions) == t
  }

  lemma AtOnce(s: State, c: CommandId)
    ensures Alone(s, s, c)
  {
    assert OnlyOf([], c) && Run(s, []) == s;
  }

  lemma OneMoreStep(s: State, t: State, a: Action)
    requires !a.Kill? && Alone(s, t, a.c)
    ensures Alone(s, Next(t, a), a.c)
  {
    var actions :| OnlyOf(actions, a.c) && Run(s, actions) == t;
    assert (actions + [a])[..|actions|] == actions;
    assert OnlyOf(actions + [a], a.c) && Run(s, actions + [a]) == Next(t, a);
  }

  lemma AloneJoins(s: State, t: State, u: State, c: CommandId)
    requires Alone(s, t, c) && Alone(t, u, c)
    ensures Alone(s, u, c)
  {
    var xs :| OnlyOf(xs, c) && Run(s, xs) == t;
    var ys :| OnlyOf(ys, c) && Run(t, ys) == u;
    RunJoin(s, xs, ys);
    assert OnlyOf(xs + ys, c);
  }

  class LeaseDirectory {
    var files: map<Name, Content>
    /** The state of the interleaved model that these files belong to. */
    ghost var protocol: State

    ghost predicate Valid()
      reads this
    {
      protocol.files == files
    }

    /** Command `c` is at `pc`. */
    ghost predicate At(c: CommandId, pc: Pc)
      reads this
    {
      c in protocol.commands && protocol.commands[c].pc == pc
    }

    constructor (s: State)
      ensures Valid() && protocol == s
    {
      files, protocol := s.files, s;
    }

    /** One step of the interleaved model. */
    ghost method Take(a: Action, from: State)
      requires !a.Kill? && Alone(from, protocol, a.c)
      modifies this`protocol
      ensures protocol == Next(old(protocol), a) && Alone(from, protocol, a.c)
    {
      OneMoreStep(from, protocol, a);
      protocol := Next(protocol, a);
    }

    /** The start of a command. */
    ghost method Launch(c: CommandId, writer: WriterId, request: Request, facts: Option<RepoFacts>, now: Instant)
      requires Valid() && c !in protocol.commands
      modifies this`protocol
      ensures Valid() && Alone(old(protocol), protocol, c)
      ensures At(c, Begin(c, writer, request, facts, now)) && protocol.commands[c].writer == writer
    {
      AtOnce(protocol, c);
      Take(Start(c, writer, request, facts, now), protocol);
    }

    /** The record is written under a name of its own. */
    method StageRecord(c: CommandId, p: Publishing)
      requires Valid() && At(c, OpenStaging(p))
      modifies this
      ensures Valid() && Alone(old(protocol), protocol, c) && At(c, LinkStaging(p))
      ensures files == old(files)[Staging(c) := Whole(p.record)]
      ensures c in old(protocol).commands && protocol.commands[c].writer == old(protocol).commands[c].writer
    {
      ghost var from := protocol;
      AtOnce(from, c);
      files := files[Staging(c) := Torn];
      Take(Advance(c, NO_FAULT), from);
      files := files[Staging(c) := Whole(p.record)];
      Take(Advance(c, NO_FAULT), from);
    }

    /** `publishLeaseSync`: the lease path never shows a record half written, and one that is taken stays. */
    method PublishLease(c: CommandId, p: Publishing) returns (outcome: LinkOutcome)
      requires Valid() && At(c, OpenStaging(p))
      modifies this
      ensures Valid() && Alone(old(protocol), protocol, c)
      ensures outcome == if LeasePath in old(files) then Exists else Linked
      ensures files == (if outcome.Linked? then old(files)[LeasePath := Whole(p.record)] else old(files)) - {Staging(c)}
      ensures At(c, if outcome.Linked? then Done(Granted(p.record, p.steps)) else ReadHolder(p))
      ensures c in old(protocol).commands && protocol.commands[c].writer == old(protocol).commands[c].writer
    {
      ghost var from := protocol;
      StageRecord(c, p);
      outcome := LinkRecord(c, p, from);
      files := files - {Staging(c)};
      Take(Advance(c, NO_FAULT), from);
    }

    /** The `link` of the staged record, which fails on a taken path. */
    method LinkRecord(c: CommandId, p: Publishing, ghost from: State) returns (outcome: LinkOutcome)
      requires Valid() && At(c, LinkStaging(p)) && Alone(from, protocol, c)
      requires Staging(c) in files && files[Staging(c)] == Whole(p.record)
      modifies this
      ensures Valid() && Alone(from, protocol, c) && At(c, UnlinkStaging(p, outcome))
      ensures c in old(protocol).commands && protocol.commands[c].writer == old(protocol).commands[c].writer
      ensures outcome == if LeasePath in old(files) then Exists else Linked
      ensures files == if outcome.Linked? then old(files)[LeasePath := Whole(p.record)] else old(files)
    {
      if LeasePath in files {
        outcome := Exists;
      } else {
        files := files[LeasePath := files[Staging(c)]];
        outcome := Linked;
      }
      Take(Advance(c, NO_FAULT), from);
    }

    /** `acquireLease`: a free path gets the planned record, a taken one tells what the loser lost to. */
    method AcquireLease(c: CommandId, writer: WriterId, options: AcquireOptions, facts: Option<RepoFacts>, now: Instant)
      returns (r: LeaseResult)
      requires Valid() && c !in protocol.commands && Staging(c) !in files
      modifies this
      ensures Valid() && Alone(old(protocol), protocol, c) && At(c, Done(r))
      ensures match PlanAcquire(options, facts, c, writer, now)
        case Failure(reason) => r == Refused(reason, []) && files == old(files)
        case Success(record) =>
          if LeasePath in old(files) then r == Refused(Classify(old(files), now), []) && files == old(files)
          else r == Granted(record, []) && files == old(files)[LeasePath := Whole(record)]
    {
      ghost var from := protocol;
      Launch(c, writer, Acquire(options), facts, now);
      var plan := PlanAcquire(options, facts, c, writer, now);
      if plan.Failure? { return Refused(plan.error, []); }
      r := PublishPlanned(c, Publishing(plan.value, now, None, []), from);
    }

    /** Publishing and, on a lost race, the look at the winner. */
    method PublishPlanned(c: CommandId, p: Publishing, ghost from: State) returns (r: LeaseResult)
      requires Valid() && At(c, OpenStaging(p)) && Staging(c) !in files && Alone(from, protocol, c)
      modifies this
      ensures Valid() && Alone(from, protocol, c) && At(c, Done(r))
      ensures LeasePath in old(files) ==> r == Refused(Classify(old(files), p.now), []) && files == old(files)
      ensures LeasePath !in old(files) ==>
        r == Granted(p.record, p.steps) && files == old(files)[LeasePath := Whole(p.record)]
    {
      ghost var before := protocol;
      var outcome := PublishLease(c, p);
      AloneJoins(from, before, protocol, c);
      NothingStaged(old(files), c, Whole(p.record));
      if outcome.Linked? { return Granted(p.record, p.steps); }
      r := LookAtHolder(c, p, from);
    }

    /** `classifyCreateFailure`: what the loser reads decides what it reports. */
    method LookAtHolder(c: CommandId, p: Publishing, ghost from: State) returns (r: LeaseResult)
      requires Valid() && At(c, ReadHolder(p)) && Alone(from, protocol, c)
      modifies this
      ensures Valid() && Alone(from, protocol, c) && At(c, Done(r)) && files == old(files)
      ensures r == Refused(Classify(files, p.now), [])
    {
      r := Refused(Classify(files, p.now), []);
      Take(Advance(c, NO_FAULT), from);
    }

    /** `loadOwnedLease`: the record at the lease path, when its writer is the caller. */
    method LoadOwnedLease(c: CommandId, writer: WriterId, verb: OwnerVerb, now: Instant, ghost from: State)
      returns (owned: Result<LeaseRecord, LeaseResult>)
      requires Valid() && At(c, ReadOwned(verb, now)) && protocol.commands[c].writer == writer
        && Alone(from, protocol, c)
      modifies this
      ensures Valid() && Alone(from, protocol, c) && files == old(files)
      ensures owned == if LeasePath !in files || !files[LeasePath].Whole? then Failure(Refused(UnaccountedState, []))
                       else if files[LeasePath].record.writer != writer then Failure(Refused(WriterConflict, []))
                       else Success(files[LeasePath].record)
      ensures At(c, if owned.Failure? then Done(owned.error)
                    else if verb.ReleaseVerb? then RenameReleased(owned.value)
                    else OpenTemporary(owned.value.Beat(now, verb.ttlSeconds)))
    {
      Take(Advance(c, NO_FAULT), from);
      if LeasePath !in files || !files[LeasePath].Whole? { return Failure(Refused(UnaccountedState, [])); }
      var record := files[LeasePath].record;
      if record.writer != writer { return Failure(Refused(WriterConflict, [])); }
      return Success(record);
    }

    /** `heartbeatLease`: only the owner, and only the heartbeat and the expiry change. */
    method HeartbeatLease(c: CommandId, writer: WriterId, ttl: Option<nat>, facts: Option<RepoFacts>, now: Instant)
      returns (r: LeaseResult)
      requires Valid() && c !in protocol.commands && Temporary(c) !in files
      modifies this
      ensures Valid() && Alone(old(protocol), protocol, c) && At(c, Done(r))
      ensures r.Granted? <==> facts.Some? && OwnsLease(old(files), writer)
      ensures r.Refused? ==> r == Refused(OwnerRefusal(old(files), facts), [])
      ensures r.Granted? ==> (
        && SameLease(r.record, old(files)[LeasePath].record) && r.record.heartbeatAt == now
        && r.record.expiresAt == now + ttl.GetOr(DEFAULT_TTL_SECONDS) * 1000)
      ensures files == if r.Granted? then old(files)[LeasePath := Whole(r.record)] else old(files)
    {
      ghost var from := protocol;
      Launch(c, writer, Heartbeat(ttl), facts, now);
      if facts.None? { return Refused(UnaccountedState, []); }
      var ttlSeconds := ttl.GetOr(DEFAULT_TTL_SECONDS);
      var owned := LoadOwnedLease(c, writer, BeatVerb(ttlSeconds), now, from);
      if owned.Failure? { return owned.error; }
      var updated := owned.value.Beat(now, ttlSeconds);
      ReplaceLease(c, updated, from);
      r := Granted(updated, []);
    }

    /** `replaceLease`. */
    method ReplaceLease(c: CommandId, updated: LeaseRecord, ghost from: State)
      requires Valid() && At(c, OpenTemporary(updated)) && Temporary(c) !in files && Alone(from, protocol, c)
      modifies this
      ensures Valid() && Alone(from, protocol, c) && At(c, Done(Granted(updated, [])))
      ensures files == old(files)[LeasePath := Whole(updated)]
    {
      WriteTemporaryRecord(c, updated, from);
      files := (files - {Temporary(c)})[LeasePath := files[Temporary(c)]];
      Take(Advance(c, NO_FAULT), from);
    }

    method WriteTemporaryRecord(c: CommandId, updated: LeaseRecord, ghost from: State)
      requires Valid() && At(c, OpenTemporary(updated)) && Alone(from, protocol, c)
      modifies this
      ensures Valid() && Alone(from, protocol, c) && At(c, RenameTemporary(updated))
      ensures files == old(files)[Temporary(c) := Whole(updated)]
    {
      files := files[Temporary(c) := Torn];
      Take(Advance(c, NO_FAULT), from);
      files := files[Temporary(c) := Whole(updated)];
      Take(Advance(c, NO_FAULT), from);
    }

    /** `releaseLease`: only the owner, and the record becomes evidence under its own name. */
    method ReleaseLease(c: CommandId, writer: WriterId, facts: Option<RepoFacts>, now: Instant) returns (r: LeaseResult)
      requires Valid() && c !in protocol.commands
      modifies this
      ensures Valid() && Alone(old(protocol), protocol, c) && At(c, Done(r))
      ensures r.Granted? <==> facts.Some? && OwnsLease(old(files), writer)
      ensures r.Granted? ==> (
        && old(files)[LeasePath] == Whole(r.record)
        && files == (old(files) - {LeasePath})[Released(r.record.leaseId, r.record.generation) := Whole(r.record)])
      ensures r.Refused? ==> files == old(files) && r == Refused(OwnerRefusal(old(files), facts), [])
    {
      ghost var from := protocol;
      Launch(c, writer, Release, facts, now);
      if facts.None? { return Refused(UnaccountedState, []); }
      var owned := LoadOwnedLease(c, writer, ReleaseVerb, now, from);
      if owned.Failure? { return owned.error; }
      files := (files - {LeasePath})[Released(owned.value.leaseId, owned.value.generation) := files[LeasePath]];
      Take(Advance(c, NO_FAULT), from);
      r := Granted(owned.value, []);
    }

    /** `takeoverLease` up to its claim: the lease is validated and its writer proven absent, or nothing changes. */
    method ClaimIncumbent(c: CommandId, t: TakeoverContext, probe: ProcessProbe, ghost from: State)
      returns (claimed: Result<(LeaseRecord, seq<TakeoverStep>), LeaseResult>)
      requires Valid() && At(c, ReadIncumbent(t)) && Alone(from, protocol, c) && Claim(c) !in files
      modifies this
      ensures Valid() && Alone(from, protocol, c)
      ensures c in old(protocol).commands && c in protocol.commands
        && protocol.commands[c].writer == old(protocol).commands[c].writer
      ensures claimed == Validated(old(files), t, probe)
      ensures claimed.Failure? ==> files == old(files) && At(c, Done(claimed.error))
      ensures claimed.Success? ==>
        var (previous, steps) := claimed.value;
        At(c, RenameEvidence(t, previous, steps)) && files == (old(files) - {LeasePath})[Claim(c) := Whole(previous)]
    {
      var checked := CheckLease(c, t, from);
      if checked.Failure? { return Failure(checked.error); }
      var (previous, steps) := checked.value;
      var proven := ProveAbsence(c, t, previous, steps, probe, from);
      if proven.Failure? { return Failure(proven.error); }
      TakeClaim(c, t, previous, proven.value, from);
      return Success((previous, proven.value));
    }

    /** The lease is moved to the claim file. */
    method TakeClaim(c: CommandId, t: TakeoverContext, previous: LeaseRecord, steps: seq<TakeoverStep>,
                     ghost from: State)
      requires Valid() && At(c, RenameClaim(t, previous, steps)) && Alone(from, protocol, c) && LeasePath in files
      modifies this
      ensures Valid() && Alone(from, protocol, c) && At(c, RenameEvidence(t, previous, steps))
      ensures c in old(protocol).commands && c in protocol.commands
        && protocol.commands[c].writer == old(protocol).commands[c].writer
      ensures files == (old(files) - {LeasePath})[Claim(c) := old(files)[LeasePath]]
    {
      files := (files - {LeasePath})[Claim(c) := files[LeasePath]];
      Take(Advance(c, NO_FAULT), from);
    }

    /** The incumbent record, when it parses, is expired and belongs to this worktree and branch. */
    method CheckLease(c: CommandId, t: TakeoverContext, ghost from: State)
      returns (checked: Result<(LeaseRecord, seq<TakeoverStep>), LeaseResult>)
      requires Valid() && At(c, ReadIncumbent(t)) && Alone(from, protocol, c)
      modifies this
      ensures Valid() && Alone(from, protocol, c) && files == old(files)
      ensures c in old(protocol).commands && c in protocol.commands
        && protocol.commands[c].writer == old(protocol).commands[c].writer
      ensures checked == CheckedLease(files, t)
      ensures checked.Failure? ==> At(c, Done(checked.error))
      ensures checked.Success? ==> At(c, ProbeWriter(t, checked.value.0, checked.value.1))
    {
      Take(Advance(c, NO_FAULT), from);
      if LeasePath !in files || !files[LeasePath].Whole? { return Failure(Refused(UnaccountedState, [])); }
      var previous := files[LeasePath].record;
      var checks := CheckIncumbent(t, previous);
      if checks.Failure? { return Failure(checks.error); }
      return Success((previous, checks.value));
    }

    /** Only a probe that says `absent` lets the takeover go on. */
    method ProveAbsence(c: CommandId, t: TakeoverContext, previous: LeaseRecord, checks: seq<TakeoverStep>,
                        probe: ProcessProbe, ghost from: State) returns (proven: Result<seq<TakeoverStep>, LeaseResult>)
      requires Valid() && At(c, ProbeWriter(t, previous, checks)) && Alone(from, protocol, c)
      modifies this
      ensures Valid() && Alone(from, protocol, c) && files == old(files)
      ensures c in old(protocol).commands && c in protocol.commands
        && protocol.commands[c].writer == old(protocol).commands[c].writer
      ensures proven == if probe.Absent?
        then Success(checks + [TakeoverStep(2, WriterProvenAbsent, true), TakeoverStep(3, WorkspaceFrozen, true)])
        else Failure(Refused(ExpiredUnreconciled, checks + [TakeoverStep(2, WriterProvenAbsent, false)]))
      ensures At(c, if proven.Failure? then Done(proven.error) else RenameClaim(t, previous, proven.value))
    {
      var steps := checks;
      Take(Advance(c, Environment(probe, None, false)), from);
      if !probe.Absent? {
        steps := steps + [TakeoverStep(2, WriterProvenAbsent, false)];
        return Failure(Refused(ExpiredUnreconciled, steps));
      }
      steps := steps + [TakeoverStep(2, WriterProvenAbsent, true), TakeoverStep(3, WorkspaceFrozen, true)];
      return Success(steps);
    }

    /** `takeoverLease` from its claim to its publication: the claimed record is filed as evidence whatever the
        second look says. */
    method FileEvidence(c: CommandId, t: TakeoverContext, previous: LeaseRecord, claimSteps: seq<TakeoverStep>,
                        writer: WriterId, recheck: Option<RepoFacts>, ghost from: State)
      returns (refusal: Option<ReasonCode>, steps: seq<TakeoverStep>)
      requires Valid() && At(c, RenameEvidence(t, previous, claimSteps)) && protocol.commands[c].writer == writer
      requires Claim(c) in files && files[Claim(c)] == Whole(previous) && Alone(from, protocol, c)
      modifies this
      ensures Valid() && Alone(from, protocol, c) && files == Filed(old(files), previous, c)
      ensures refusal == Revalidate(FreezeOf(t), recheck) && steps == claimSteps + LastSteps(refusal)
      ensures At(c, if refusal.Some? then Done(Refused(refusal.value, steps))
                    else OpenStaging(Publishing(Successor(t, previous, c, writer), t.now, Some(previous), steps)))
    {
      FileClaim(c, t, previous, claimSteps, from);
      steps := claimSteps + [TakeoverStep(4, RecordedAbandoned, true), TakeoverStep(5, GenerationIncremented, true)];
      refusal, steps := LookAgain(c, t, previous, steps, recheck, from);
      files := files[AbandonedMeta(previous.leaseId, previous.generation) := Meta(c)];
      Take(Advance(c, NO_FAULT), from);
    }

    /** The second look at the repository, and the last two lines of the receipt. */
    method LookAgain(c: CommandId, t: TakeoverContext, previous: LeaseRecord, filed: seq<TakeoverStep>,
                     recheck: Option<RepoFacts>, ghost from: State)
      returns (refusal: Option<ReasonCode>, steps: seq<TakeoverStep>)
      requires Valid() && At(c, Recheck(t, previous, filed)) && Alone(from, protocol, c)
      modifies this
      ensures Valid() && Alone(from, protocol, c) && files == old(files)
      ensures c in old(protocol).commands && c in protocol.commands
        && protocol.commands[c].writer == old(protocol).commands[c].writer
      ensures refusal == Revalidate(FreezeOf(t), recheck) && At(c, WriteMeta(t, previous, steps, refusal))
      ensures steps == filed + [TakeoverStep(6, LineageRevalidated, refusal.None?),
        TakeoverStep(7, AttemptIssued, refusal.None?)]
    {
      refusal := Revalidate(FreezeOf(t), recheck);
      Take(Advance(c, Environment(Absent, recheck, false)), from);
      steps := filed + [TakeoverStep(6, LineageRevalidated, refusal.None?),
        TakeoverStep(7, AttemptIssued, refusal.None?)];
    }

    /** The claimed record becomes evidence under its own name. */
    method FileClaim(c: CommandId, t: TakeoverContext, previous: LeaseRecord, steps: seq<TakeoverStep>,
                     ghost from: State)
      requires Valid() && At(c, RenameEvidence(t, previous, steps)) && Alone(from, protocol, c) && Claim(c) in files
      modifies this
      ensures Valid() && Alone(from, protocol, c)
      ensures c in old(protocol).commands && c in protocol.commands
        && protocol.commands[c].writer == old(protocol).commands[c].writer
      ensures At(c, Recheck(t, previous,
        steps + [TakeoverStep(4, RecordedAbandoned, true), TakeoverStep(5, GenerationIncremented, true)]))
      ensures files ==
        (old(files) - {Claim(c)})[Abandoned(previous.leaseId, previous.generation) := old(files)[Claim(c)]]
    {
      files := (files - {Claim(c)})[Abandoned(previous.leaseId, previous.generation) := files[Claim(c)]];
      Take(Advance(c, NO_FAULT), from);
    }

    /** `takeoverLease` after its claim of `previous`: the evidence, and unless something moved, the successor. */
    method Succeed(c: CommandId, t: TakeoverContext, previous: LeaseRecord, claimSteps: seq<TakeoverStep>,
                   writer: WriterId, recheck: Option<RepoFacts>, ghost from: State) returns (r: LeaseResult)
      requires Valid() && At(c, RenameEvidence(t, previous, claimSteps)) && protocol.commands[c].writer == writer
      requires Claim(c) in files && files[Claim(c)] == Whole(previous)
      requires Staging(c) !in files && LeasePath !in files && Alone(from, protocol, c)
      modifies this
      ensures Valid() && Alone(from, protocol, c) && At(c, Done(r))
      ensures r == match Revalidate(FreezeOf(t), recheck)
        case Some(reason) => Refused(reason, claimSteps + LastSteps(Some(reason)))
        case None => Granted(Successor(t, previous, c, writer), claimSteps + LastSteps(None))
      ensures r.Refused? ==> files == Filed(old(files), previous, c)
      ensures r.Granted? ==> files == Filed(old(files), previous, c)[LeasePath := Whole(r.record)]
    {
      var refusal, steps := FileEvidence(c, t, previous, claimSteps, writer, recheck, from);
      FiledKeeps(old(files), previous, c);
      if refusal.Some? { return Refused(refusal.value, steps); }
      r := PublishPlanned(c, Publishing(Successor(t, previous, c, writer), t.now, Some(previous), steps), from);
    }

    /** `takeoverLease`. */
    method TakeoverLease(c: CommandId, writer: WriterId, options: AcquireOptions, facts: Option<RepoFacts>,
                         now: Instant, probe: ProcessProbe, recheck: Option<RepoFacts>) returns (r: LeaseResult)
      requires Valid() && c !in protocol.commands && Staging(c) !in files && Claim(c) !in files
      modifies this
      ensures Valid() && Alone(old(protocol), protocol, c) && At(c, Done(r))
      ensures facts.None? ==> r == Refused(UnaccountedState, []) && files == old(files)
      ensures facts.Some? ==> TookOver(old(files), files, c, TakeoverContext(options, facts.value, now), writer,
        probe, recheck, r)
    {
      ghost var from := protocol;
      Launch(c, writer, Takeover(options), facts, now);
      if facts.None? { return Refused(UnaccountedState, []); }
      r := TakeOver(c, TakeoverContext(options, facts.value, now), writer, probe, recheck, from);
    }

    method TakeOver(c: CommandId, t: TakeoverContext, writer: WriterId, probe: ProcessProbe, recheck: Option<RepoFacts>,
                    ghost from: State) returns (r: LeaseResult)
      requires Valid() && At(c, ReadIncumbent(t)) && protocol.commands[c].writer == writer && Alone(from, protocol, c)
      requires Staging(c) !in files && Claim(c) !in files
      modifies this
      ensures Valid() && Alone(from, protocol, c) && At(c, Done(r))
      ensures TookOver(old(files), files, c, t, writer, probe, recheck, r)
    {
      var claimed := ClaimIncumbent(c, t, probe, from);
      if claimed.Failure? { return claimed.error; }
      var (previous, claimSteps) := claimed.value;
      EvidenceIsFiled(old(files), previous, c);
      r := Succeed(c, t, previous, claimSteps, writer, recheck, from);
      SucceededTookOver(old(files), files, c, t, writer, probe, recheck, previous, claimSteps, r);
    }
  }

  /** What a takeover reports and makes of the files: nothing, when it is refused before its claim; otherwise the
      claimed record is evidence, and the path is empty or, when nothing moved meanwhile, holds the successor. */
  predicate TookOver(before: map<Name, Content>, after: map<Name, Content>, c: CommandId, t: TakeoverContext,
                     writer: WriterId, probe: ProcessProbe, recheck: Option<RepoFacts>, r: LeaseResult) {
    match Validated(before, t, probe)
    case Failure(refusal) => r == refusal && after == before
    case Success((q, steps)) =>
      match Revalidate(FreezeOf(t), recheck)
      case Some(reason) =>
        r == Refused(reason, steps + LastSteps(Some(reason))) && after == WithEvidence(before, q, c)
      case None =>
        && r == Granted(Successor(t, q, c, writer), steps + LastSteps(None)) && Receipt(r.steps, 7)
        && after == WithEvidence(before, q, c)[LeasePath := Whole(r.record)]
  }

  lemma NothingStaged(files: map<Name, Content>, c: CommandId, content: Content)
    requires Staging(c) !in files
    ensures files - {Staging(c)} == files && files[LeasePath := content] - {Staging(c)} == files[LeasePath := content]
  {
  }

  lemma SucceededTookOver(before: map<Name, Content>, after: map<Name, Content>, c: CommandId, t: TakeoverContext,
                          writer: WriterId, probe: ProcessProbe, recheck: Option<RepoFacts>, q: LeaseRecord,
                          steps: seq<TakeoverStep>, r: LeaseResult)
    requires Validated(before, t, probe) == Success((q, steps))
    requires r == match Revalidate(FreezeOf(t), recheck)
      case Some(reason) => Refused(reason, steps + LastSteps(Some(reason)))
      case None => Granted(Successor(t, q, c, writer), steps + LastSteps(None))
    requires r.Refused? ==> after == WithEvidence(before, q, c)
    requires r.Granted? ==> after == WithEvidence(before, q, c)[LeasePath := Whole(r.record)]
    ensures TookOver(before, after, c, t, writer, probe, recheck, r)
  {
    assert Receipt(steps, 3);
  }

  /** The claimed record filed as abandoned, with the note of its successor. */
  function Filed(files: map<Name, Content>, q: LeaseRecord, c: CommandId): map<Name, Content> {
    (files - {Claim(c)})[Abandoned(q.leaseId, q.generation) := Whole(q)]
    [AbandonedMeta(q.leaseId, q.generation) := Meta(c)]
  }

  lemma FiledKeeps(files: map<Name, Content>, q: LeaseRecord, c: CommandId)
    ensures LeasePath in Filed(files, q, c) <==> LeasePath in files
    ensures Staging(c) in Filed(files, q, c) <==> Staging(c) in files
  {
  }

  lemma EvidenceIsFiled(files: map<Name, Content>, q: LeaseRecord, c: CommandId)
    requires Claim(c) !in files
    ensures Filed((files - {LeasePath})[Claim(c) := Whole(q)], q, c) == WithEvidence(files, q, c)
    ensures LeasePath !in WithEvidence(files, q, c)
  {
  }

  /** The lease path emptied, and its record filed as abandoned with the note of its successor. */
  function WithEvidence(files: map<Name, Content>, q: LeaseRecord, c: CommandId): map<Name, Content> {
    (files - {LeasePath})[Abandoned(q.leaseId, q.generation) := Whole(q)]
    [AbandonedMeta(q.leaseId, q.generation) := Meta(c)]
  }
}
