/** Mutual exclusion and conservation of the lease, for runs that meet four stated assumptions:
    writers are fail-stop; each runs one command at a time; a probe says `absent` only of dead
    processes; and a takeover's claim moves the lease it validated. */
module LeaseExclusion {
  import opened Lease
  import opened LeaseProtocol
  import opened LeaseSafety

  /** The lease path holds lease `l`. */
  predicate AtLease(s: State, l: LeaseId) {
    LeasePath in s.files && s.files[LeasePath].Whole? && s.files[LeasePath].record.leaseId == l
  }

  predicate Idle(s: State, writer: WriterId) {
    forall c <- s.commands :: s.commands[c].writer == writer ==> !s.commands[c].Active()
  }

  /** The claim of a takeover moves the lease that takeover read and validated. */
  predicate ClaimsValidated(s: State, pc: Pc) {
    pc.RenameClaim? && LeasePath in s.files && s.files[LeasePath].Whole? ==>
      s.files[LeasePath].record.leaseId == pc.previous.leaseId
  }

  predicate ProbeTellsTruth(s: State, pc: Pc, env: Environment) {
    pc.ProbeWriter? && env.probe.Absent? ==> pc.previous.writer in s.dead
  }

  /** The first three assumptions. */
  predicate FailStop(s: State, a: Action) {
    match a
    case Kill(_) => true
    case Start(c, writer, _, _, _) => writer !in s.dead && Idle(s, writer)
    case Advance(c, env) =>
      c in s.commands ==> s.commands[c].writer !in s.dead && ProbeTellsTruth(s, s.commands[c].pc, env)
  }

  /** All four. */
  predicate Assumed(s: State, a: Action) {
    FailStop(s, a) && (a.Advance? && a.c in s.commands ==> ClaimsValidated(s, s.commands[a.c].pc))
  }

  predicate AssumedFrom(s: State, actions: seq<Action>) {
    forall i | 0 <= i < |actions| :: Assumed(Run(s, actions[..i]), actions[i])
  }

  predicate AssumedRun(actions: seq<Action>) {
    AssumedFrom(INITIAL, actions)
  }

  predicate Owning(pc: Pc) {
    pc.OpenTemporary? || pc.WriteTemporary? || pc.RenameTemporary? || pc.RenameReleased?
  }

  function OwnedBy(pc: Pc): LeaseId
    requires Owning(pc)
  {
    if pc.RenameReleased? then pc.owned.leaseId else pc.updated.leaseId
  }

  /** A live writer's granted lease, and the lease a live writer's command is acting on, is at the path. */
  predicate GrantsHeld(s: State) {
    forall l <- s.granted :: l in s.published && s.published[l].record.writer !in s.dead ==> AtLease(s, l)
  }

  predicate OwnersHeld(s: State) {
    forall c <- s.commands ::
      Owning(s.commands[c].pc) && s.commands[c].writer !in s.dead ==> AtLease(s, OwnedBy(s.commands[c].pc))
  }

  predicate OneCommandEach(s: State) {
    forall c <- s.commands, d <- s.commands ::
      c != d && s.commands[c].Active() && s.commands[d].Active() && s.commands[c].writer == s.commands[d].writer
      ==> s.commands[c].writer in s.dead
  }

  predicate ClaimantsProven(s: State) {
    forall c <- s.commands :: s.commands[c].pc.RenameClaim? ==> s.commands[c].pc.previous.writer in s.dead
  }

  /** The lease at the path is granted. */
  predicate PathGranted(s: State) {
    LeasePath in s.files && s.files[LeasePath].Whole? ==> s.files[LeasePath].record.leaseId in s.granted
  }

  predicate Exclusive(s: State) {
    GrantsHeld(s) && OwnersHeld(s) && OneCommandEach(s) && ClaimantsProven(s) && PathGranted(s)
  }

  /** The writer of the lease at the path is the writer every record of that lease names. */
  lemma LeaseWriter(s: State, r: LeaseRecord)
    requires Sound(s) && Known(s.published, r) && AtLease(s, r.leaseId)
    ensures s.files[LeasePath].record.writer == r.writer == s.published[r.leaseId].record.writer
    ensures s.files[LeasePath].record.generation == r.generation
  {
    assert Place(LeasePath);
  }

  /** Two live writers never act on the lease at the same time, nor does one act twice. */
  lemma OneOwner(s: State, c: CommandId, d: CommandId)
    requires Sound(s) && Exclusive(s) && c in s.commands && d in s.commands
    requires Owning(s.commands[c].pc) && s.commands[c].writer !in s.dead
    requires Owning(s.commands[d].pc) && s.commands[d].writer !in s.dead
    ensures c == d
  {
    assert CommandOk(s.files, s.published, c, s.commands[c]) && CommandOk(s.files, s.published, d, s.commands[d]);
    LeaseWriter(s, if s.commands[c].pc.RenameReleased? then s.commands[c].pc.owned else s.commands[c].pc.updated);
  }

  /** While a live writer acts on the lease, or holds it, the writer that lease names is alive. */
  lemma OwnedLeaseIsAlive(s: State, l: LeaseId)
    requires Sound(s) && Exclusive(s) && AtLease(s, l) && l in s.published && s.published[l].record.writer in s.dead
    ensures forall d <- s.commands :: Owning(s.commands[d].pc) ==> s.commands[d].writer in s.dead
    ensures forall m <- s.granted :: m in s.published ==> s.published[m].record.writer in s.dead
  {
    OwnersAreDead(s, l);
  }

  lemma OwnersAreDead(s: State, l: LeaseId)
    requires Sound(s) && Exclusive(s) && AtLease(s, l) && l in s.published && s.published[l].record.writer in s.dead
    ensures forall d <- s.commands :: Owning(s.commands[d].pc) ==> s.commands[d].writer in s.dead
  {
    forall d <- s.commands | Owning(s.commands[d].pc) && s.commands[d].writer !in s.dead ensures false {
      assert CommandOk(s.files, s.published, d, s.commands[d]);
      LeaseWriter(s, if s.commands[d].pc.RenameReleased? then s.commands[d].pc.owned else s.commands[d].pc.updated);
    }
  }

  /** What a step that neither takes the lease away nor grants one shows to the other commands. */
  predicate Quiet(s: State, t: State, c: CommandId)
    requires c in s.commands
  {
    && t.dead == s.dead
    && t.commands.Keys == s.commands.Keys
    && (forall d <- s.commands :: d != c ==> t.commands[d] == s.commands[d])
    && t.commands[c].writer == s.commands[c].writer
    && (t.commands[c].Active() ==> s.commands[c].Active())
    && (t.commands[c].pc.RenameClaim? ==> t.commands[c].pc.previous.writer in t.dead)
    && t.granted == s.granted && t.published == s.published
    && (LeasePath in s.files <==> LeasePath in t.files)
    && (LeasePath in s.files && s.files[LeasePath].Whole? ==> AtLease(t, s.files[LeasePath].record.leaseId))
    && (LeasePath in t.files && t.files[LeasePath].Whole? ==> AtLease(s, t.files[LeasePath].record.leaseId))
    && (Owning(t.commands[c].pc) && t.commands[c].writer !in t.dead ==> AtLease(t, OwnedBy(t.commands[c].pc)))
  }

  lemma QuietExcludes(s: State, t: State, c: CommandId)
    requires Exclusive(s) && c in s.commands && Quiet(s, t, c)
    ensures Exclusive(t)
  {
    forall l | AtLease(s, l) ensures AtLease(t, l) { }
  }

  lemma FailedLinkIsQuiet(s: State, c: CommandId, env: Environment)
    requires c in s.commands && s.commands[c].pc.LinkStaging? && AdvancePublish(s, c, env).published == s.published
    requires CommandOk(s.files, s.published, c, s.commands[c])
    ensures Quiet(s, AdvancePublish(s, c, env), c)
  {
  }

  lemma StagingIsQuiet(s: State, c: CommandId, env: Environment)
    requires c in s.commands && PublishPc(s.commands[c].pc) && !s.commands[c].pc.LinkStaging?
    ensures Quiet(s, AdvancePublish(s, c, env), c)
  {
  }

  lemma PublishIsQuiet(s: State, c: CommandId, env: Environment)
    requires c in s.commands && PublishPc(s.commands[c].pc) && AdvancePublish(s, c, env).published == s.published
    requires CommandOk(s.files, s.published, c, s.commands[c])
    ensures Quiet(s, AdvancePublish(s, c, env), c)
  {
    if s.commands[c].pc.LinkStaging? { FailedLinkIsQuiet(s, c, env); } else { StagingIsQuiet(s, c, env); }
  }

  lemma PublishExcludes(s: State, c: CommandId, env: Environment)
    requires Exclusive(s) && c in s.commands && PublishPc(s.commands[c].pc)
    requires CommandOk(s.files, s.published, c, s.commands[c])
    ensures Exclusive(AdvancePublish(s, c, env))
  {
    var t := AdvancePublish(s, c, env);
    if t.published == s.published {
      PublishIsQuiet(s, c, env);
      QuietExcludes(s, t, c);
    } else {
      assert LeasePath !in s.files && AtLease(t, c) && t.granted == s.granted + {c};
      assert t.published == s.published[c := t.published[c]];
    }
  }

  lemma OwnerIsQuiet(s: State, c: CommandId, env: Environment)
    requires c in s.commands && OwnerPc(s.commands[c].pc) && !s.commands[c].pc.RenameReleased?
    requires Owning(s.commands[c].pc) ==> AtLease(s, OwnedBy(s.commands[c].pc))
    requires CommandOk(s.files, s.published, c, s.commands[c])
    ensures Quiet(s, AdvanceOwner(s, c, env), c)
  {
  }

  lemma OwnerExcludes(s: State, c: CommandId, env: Environment)
    requires Sound(s) && Exclusive(s) && c in s.commands && OwnerPc(s.commands[c].pc)
    requires s.commands[c].writer !in s.dead
    ensures Exclusive(AdvanceOwner(s, c, env))
  {
    assert CommandOk(s.files, s.published, c, s.commands[c]);
    if s.commands[c].pc.RenameReleased? {
      forall d <- s.commands | d != c && Owning(s.commands[d].pc) && s.commands[d].writer !in s.dead ensures false {
        OneOwner(s, c, d);
      }
      ReleaseExcludes(s, c, env);
    } else {
      OwnerIsQuiet(s, c, env);
      QuietExcludes(s, AdvanceOwner(s, c, env), c);
    }
  }

  lemma ReleaseExcludes(s: State, c: CommandId, env: Environment)
    requires Exclusive(s) && c in s.commands && s.commands[c].pc.RenameReleased? && s.commands[c].writer !in s.dead
    requires forall d <- s.commands :: d != c && Owning(s.commands[d].pc) ==> s.commands[d].writer in s.dead
    ensures Exclusive(AdvanceOwner(s, c, env))
  {
    var t := AdvanceOwner(s, c, env);
    assert t.dead == s.dead && t.published == s.published;
    assert t.commands == s.commands[c := t.commands[c]] && t.commands[c].pc.Done?;
    assert AtLease(s, s.commands[c].pc.owned.leaseId);
  }

  lemma ValidateIsQuiet(s: State, c: CommandId, env: Environment)
    requires c in s.commands && ValidatePc(s.commands[c].pc) && !s.commands[c].pc.RenameClaim?
    requires ProbeTellsTruth(s, s.commands[c].pc, env)
    ensures Quiet(s, AdvanceTakeover(s, c, env), c)
  {
  }

  lemma ClaimExcludes(s: State, c: CommandId, env: Environment)
    requires Sound(s) && Exclusive(s) && c in s.commands && s.commands[c].pc.RenameClaim?
    requires ClaimsValidated(s, s.commands[c].pc)
    ensures Exclusive(AdvanceTakeover(s, c, env))
  {
    var t := AdvanceTakeover(s, c, env);
    var previous := s.commands[c].pc.previous;
    assert CommandOk(s.files, s.published, c, s.commands[c]);
    if LeasePath in s.files {
      assert Place(LeasePath) && AtLease(s, previous.leaseId);
      LeaseWriter(s, previous);
      OwnedLeaseIsAlive(s, previous.leaseId);
    }
    ClaimEffect(s, c, env);
    if LeasePath in t.files { QuietExcludes(s, t, c); } else { EmptyPathExcludes(s, t, c); }
  }

  /** A step that empties the lease path, when no live writer acts on the lease or holds one. */
  lemma EmptyPathExcludes(s: State, t: State, c: CommandId)
    requires Exclusive(s) && c in s.commands && c in t.commands && LeasePath !in t.files
    requires t.dead == s.dead && t.published == s.published && t.granted == s.granted
    requires t.commands == s.commands[c := t.commands[c]] && t.commands[c].writer == s.commands[c].writer
    requires s.commands[c].Active() && (t.commands[c].pc.RenameEvidence? || t.commands[c].pc.Done?)
    requires LeasePath in s.files ==> (
      && (forall d <- s.commands :: Owning(s.commands[d].pc) ==> s.commands[d].writer in s.dead)
      && (forall m <- s.granted :: m in s.published ==> s.published[m].record.writer in s.dead))
    ensures Exclusive(t)
  {
  }

  lemma ClaimEffect(s: State, c: CommandId, env: Environment)
    requires c in s.commands && s.commands[c].pc.RenameClaim?
    requires LeasePath in s.files ==> s.files[LeasePath].Whole?
    ensures var t := AdvanceTakeover(s, c, env);
      && t.dead == s.dead && t.published == s.published && t.granted == s.granted
      && t.commands == s.commands[c := t.commands[c]] && t.commands[c].writer == s.commands[c].writer
      && (t.commands[c].pc.RenameEvidence? || t.commands[c].pc.Done?)
      && (LeasePath in t.files ==> Quiet(s, t, c))
      && (LeasePath !in s.files ==> LeasePath !in t.files)
  {
  }

  lemma ClaimedIsQuiet(s: State, c: CommandId, env: Environment)
    requires c in s.commands && ClaimedPc(s.commands[c].pc)
    ensures Quiet(s, AdvanceClaimed(s, c, env), c)
  {
  }

  lemma StartExcludes(s: State, a: Action)
    requires Exclusive(s) && a.Start? && FailStop(s, a)
    ensures Exclusive(Next(s, a))
  {
  }

  lemma KillExcludes(s: State, a: Action)
    requires Exclusive(s) && a.Kill?
    ensures Exclusive(Next(s, a))
  {
  }

  lemma AdvanceExcludes(s: State, c: CommandId, env: Environment)
    requires Sound(s) && Exclusive(s) && c in s.commands && Assumed(s, Advance(c, env))
    ensures Exclusive(AdvanceCommand(s, c, env))
  {
    var pc := s.commands[c].pc;
    assert CommandOk(s.files, s.published, c, s.commands[c]);
    if PublishPc(pc) { PublishExcludes(s, c, env); }
    else if OwnerPc(pc) { OwnerExcludes(s, c, env); }
    else if pc.RenameClaim? { ClaimExcludes(s, c, env); }
    else if ValidatePc(pc) { ValidateIsQuiet(s, c, env); QuietExcludes(s, AdvanceTakeover(s, c, env), c); }
    else if ClaimedPc(pc) { ClaimedIsQuiet(s, c, env); QuietExcludes(s, AdvanceClaimed(s, c, env), c); }
  }

  lemma StepExcludes(s: State, a: Action)
    requires Sound(s) && Exclusive(s) && Assumed(s, a)
    ensures Exclusive(Next(s, a))
  {
    match a
    case Kill(_) => KillExcludes(s, a);
    case Start(_, _, _, _, _) => StartExcludes(s, a);
    case Advance(c, env) => if c in s.commands { AdvanceExcludes(s, c, env); }
  }

  lemma AssumedPrefix(s: State, actions: seq<Action>, n: nat)
    requires AssumedFrom(s, actions) && n <= |actions|
    ensures AssumedFrom(s, actions[..n])
  {
    forall i | 0 <= i < n ensures Assumed(Run(s, actions[..n][..i]), actions[..n][i]) {
      assert actions[..n][..i] == actions[..i];
    }
  }

  lemma {:induction false} RunStaysExclusive(s: State, actions: seq<Action>)
    requires Sound(s) && Exclusive(s) && AssumedFrom(s, actions)
    ensures Exclusive(Run(s, actions))
  {
    if actions != [] {
      var n := |actions| - 1;
      AssumedPrefix(s, actions, n);
      RunStaysExclusive(s, actions[..n]);
      RunStaysSound(s, actions[..n]);
      StepExcludes(Run(s, actions[..n]), actions[n]);
    }
  }

  lemma RunExcludes(actions: seq<Action>)
    requires AssumedRun(actions)
    ensures Exclusive(Run(INITIAL, actions))
  {
    RunStaysExclusive(INITIAL, actions);
  }

  /** A live process holds lease `l`: it was granted, not released, and its writer has not died. */
  predicate LiveHolder(s: State, l: LeaseId) {
    l in s.granted && l in s.published && s.published[l].record.writer !in s.dead
  }

  /** Mutual exclusion: at no moment of an assumed run do two granted leases have live holders, and the
      one that has is at the lease path. */
  lemma MutualExclusion(actions: seq<Action>, l: LeaseId, m: LeaseId)
    requires AssumedRun(actions)
    requires LiveHolder(Run(INITIAL, actions), l) && LiveHolder(Run(INITIAL, actions), m)
    ensures l == m && AtLease(Run(INITIAL, actions), l)
  {
    RunExcludes(actions);
  }
}
