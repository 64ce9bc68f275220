/** What every run of the lease commands keeps, with no assumption on the processes: whatever the
    interleaving, and wherever commands crash, the lease path is absent or holds a whole record,
    and every record traces back to a root acquire. */
module LeaseSafety {
  import opened Wrappers
  import opened Lease
  import opened LeaseProtocol

  /** `r` is a published lease, at some heartbeat. */
  predicate Known(pub: Publications, r: LeaseRecord) {
    r.leaseId in pub && SameLease(r, pub[r.leaseId].record)
  }

  /** `r` is a root, or one generation after the published `parent` with the same base. */
  predicate Descends(pub: Publications, r: LeaseRecord, parent: Option<LeaseRecord>) {
    match parent
    case None => r.generation == 1
    case Some(q) =>
      Known(pub, q) && r.generation == q.generation + 1 && r.lineage.baseOid == q.lineage.baseOid
  }

  predicate LineagesOk(pub: Publications) {
    forall l <- pub :: pub[l].record.leaseId == l && Descends(pub, pub[l].record, pub[l].parent)
  }

  /** The names that hold a lease as evidence or as the lease itself. */
  predicate Place(n: Name) {
    n.LeasePath? || n.Claim? || n.Released? || n.Abandoned?
  }

  predicate FilesOk(files: map<Name, Content>, pub: Publications) {
    forall n <- files :: Place(n) ==> files[n].Whole? && Known(pub, files[n].record)
  }

  predicate PublishingOk(pub: Publications, c: CommandId, cmd: Command, p: Publishing) {
    && p.record.leaseId == c
    && p.record.writer == cmd.writer
    && Descends(pub, p.record, p.parent)
    && (cmd.request.Takeover? ==> p.parent.Some? && Receipt(p.steps, 7))
    && (!cmd.request.Takeover? ==> p.parent.None? && cmd.request.Acquire? && p.steps == [])
  }

  predicate TakeoverOk(pub: Publications, cmd: Command, previous: LeaseRecord) {
    cmd.request.Takeover? && Known(pub, previous)
  }

  /** What holds of command `c` at each of its program points. */
  predicate CommandOk(files: map<Name, Content>, pub: Publications, c: CommandId, cmd: Command) {
    match cmd.pc
    case OpenStaging(p) => PublishingOk(pub, c, cmd, p) && c !in pub
    case WriteStaging(p) => PublishingOk(pub, c, cmd, p) && c !in pub
    case LinkStaging(p) =>
      PublishingOk(pub, c, cmd, p) && c !in pub && Staging(c) in files && files[Staging(c)] == Whole(p.record)
    case UnlinkStaging(p, outcome) =>
      && PublishingOk(pub, c, cmd, p)
      && (outcome.Linked? ==> c in pub && pub[c] == Publication(p.record, p.parent))
      && (!outcome.Linked? ==> c !in pub)
    case ReadHolder(p) => PublishingOk(pub, c, cmd, p) && c !in pub
    case ReadOwned(_, _) => !cmd.request.Takeover? && !cmd.request.Acquire? && c !in pub
    case OpenTemporary(r) => OwnedOk(pub, c, cmd, r)
    case WriteTemporary(r) => OwnedOk(pub, c, cmd, r)
    case RenameTemporary(r) => OwnedOk(pub, c, cmd, r) && Temporary(c) in files && files[Temporary(c)] == Whole(r)
    case RenameReleased(r) => OwnedOk(pub, c, cmd, r)
    case ReadIncumbent(_) => cmd.request.Takeover? && c !in pub
    case ProbeWriter(_, previous, steps) => TakeoverOk(pub, cmd, previous) && c !in pub && Receipt(steps, 1)
    case RenameClaim(_, previous, steps) => TakeoverOk(pub, cmd, previous) && c !in pub && Receipt(steps, 3)
    case RenameEvidence(_, previous, steps) => TakeoverOk(pub, cmd, previous) && c !in pub && Receipt(steps, 3)
    case Recheck(_, previous, steps) => TakeoverOk(pub, cmd, previous) && c !in pub && Receipt(steps, 5)
    case WriteMeta(_, previous, steps, refusal) =>
      TakeoverOk(pub, cmd, previous) && c !in pub && (refusal.None? ==> Receipt(steps, 7))
    case Done(Granted(r, steps)) =>
      && Known(pub, r) && r.writer == cmd.writer
      && (cmd.request.Takeover? ==> r.leaseId == c && pub[c].parent.Some? && Receipt(steps, 7))
      && (cmd.request.Acquire? ==> r.leaseId == c && pub[c].parent.None? && steps == [])
    case Done(Refused(_, _)) => c !in pub
  }

  predicate OwnedOk(pub: Publications, c: CommandId, cmd: Command, r: LeaseRecord) {
    !cmd.request.Takeover? && !cmd.request.Acquire? && c !in pub && Known(pub, r) && r.writer == cmd.writer
  }

  predicate CommandsOk(s: State) {
    forall c <- s.commands :: CommandOk(s.files, s.published, c, s.commands[c])
  }

  predicate Sound(s: State) {
    && LineagesOk(s.published)
    && s.published.Keys <= s.commands.Keys
    && FilesOk(s.files, s.published)
    && CommandsOk(s)
    && s.granted <= s.published.Keys
  }

  /** A step of `c` touches only its own command, its own scratch files, and places. */
  ghost predicate Touches(s: State, t: State, c: CommandId) {
    && t.commands.Keys == s.commands.Keys
    && (forall d <- s.commands :: d != c ==> t.commands[d] == s.commands[d])
    && (forall d :: d != c ==> SameAt(s.files, t.files, Staging(d)) && SameAt(s.files, t.files, Temporary(d)))
    && (forall l <- s.published :: l in t.published && t.published[l] == s.published[l])
    && (forall l <- t.published :: l in s.published || l == c)
  }

  predicate SameAt(f: map<Name, Content>, g: map<Name, Content>, n: Name) {
    (n in f <==> n in g) && (n in f ==> f[n] == g[n])
  }

  /** A command is as it was when its scratch files and the publications are. */
  lemma UntouchedStaysOk(files: map<Name, Content>, files': map<Name, Content>, pub: Publications, pub': Publications,
                         d: CommandId, cmd: Command)
    requires CommandOk(files, pub, d, cmd)
    requires SameAt(files, files', Staging(d)) && SameAt(files, files', Temporary(d))
    requires (forall l <- pub :: l in pub' && pub'[l] == pub[l]) && (d in pub' ==> d in pub)
    ensures CommandOk(files', pub', d, cmd)
  {
  }

  lemma OthersStayOk(s: State, t: State, c: CommandId)
    requires CommandsOk(s) && Touches(s, t, c)
    ensures forall d <- t.commands :: d != c ==> CommandOk(t.files, t.published, d, t.commands[d])
  {
    forall d <- t.commands | d != c ensures CommandOk(t.files, t.published, d, t.commands[d]) {
      UntouchedStaysOk(s.files, t.files, s.published, t.published, d, s.commands[d]);
    }
  }

  lemma LineagesGrow(pub: Publications, pub': Publications, c: CommandId)
    requires LineagesOk(pub)
    requires forall l <- pub :: l in pub' && pub'[l] == pub[l]
    requires forall l <- pub' ::
      l in pub || (l == c && pub'[c].record.leaseId == c && Descends(pub, pub'[c].record, pub'[c].parent))
    ensures LineagesOk(pub')
  {
    forall l <- pub' ensures pub'[l].record.leaseId == l && Descends(pub', pub'[l].record, pub'[l].parent) {
      if l in pub { assert Descends(pub, pub[l].record, pub[l].parent); }
    }
  }

  /** A step of `c` keeps `Sound` when it touches only what it may and leaves the rest in order. */
  lemma Assemble(s: State, t: State, c: CommandId)
    requires Sound(s) && c in s.commands && Touches(s, t, c)
    requires c in t.published && c !in s.published ==>
      t.published[c].record.leaseId == c && Descends(s.published, t.published[c].record, t.published[c].parent)
    requires FilesOk(t.files, t.published)
    requires CommandOk(t.files, t.published, c, t.commands[c])
    requires t.granted <= t.published.Keys
    ensures Sound(t)
  {
    OthersStayOk(s, t, c);
    LineagesGrow(s.published, t.published, c);
  }

  lemma LinkTouches(s: State, c: CommandId, env: Environment)
    requires c in s.commands && s.commands[c].pc.LinkStaging? && c !in s.published
      && s.commands[c].pc.p.record.leaseId == c
    ensures Touches(s, AdvancePublish(s, c, env), c)
  {
  }

  lemma StagingTouches(s: State, c: CommandId, env: Environment)
    requires c in s.commands && PublishPc(s.commands[c].pc) && !s.commands[c].pc.LinkStaging?
    ensures Touches(s, AdvancePublish(s, c, env), c)
  {
  }

  lemma PublishTouches(s: State, c: CommandId, env: Environment)
    requires c in s.commands && PublishPc(s.commands[c].pc)
    requires CommandOk(s.files, s.published, c, s.commands[c])
    ensures Touches(s, AdvancePublish(s, c, env), c)
  {
    if s.commands[c].pc.LinkStaging? { LinkTouches(s, c, env); } else { StagingTouches(s, c, env); }
  }

  lemma PublishFiles(s: State, c: CommandId, env: Environment)
    requires c in s.commands && PublishPc(s.commands[c].pc)
    requires CommandOk(s.files, s.published, c, s.commands[c]) && FilesOk(s.files, s.published)
    ensures var t := AdvancePublish(s, c, env); FilesOk(t.files, t.published)
  {
    var t := AdvancePublish(s, c, env);
    forall n <- t.files | Place(n) ensures t.files[n].Whole? && Known(t.published, t.files[n].record) {
      if n in s.files { assert Place(n); }
    }
  }

  lemma LinkSelf(s: State, c: CommandId, env: Environment)
    requires c in s.commands && s.commands[c].pc.LinkStaging?
    requires CommandOk(s.files, s.published, c, s.commands[c])
    ensures var t := AdvancePublish(s, c, env); CommandOk(t.files, t.published, c, t.commands[c])
  {
    var p, t := s.commands[c].pc.p, AdvancePublish(s, c, env);
    if p.parent.Some? { assert Known(s.published, p.parent.value) ==> Known(t.published, p.parent.value); }
  }

  lemma StagingSelf(s: State, c: CommandId, env: Environment)
    requires c in s.commands && PublishPc(s.commands[c].pc) && !s.commands[c].pc.LinkStaging?
    requires CommandOk(s.files, s.published, c, s.commands[c])
    ensures var t := AdvancePublish(s, c, env); CommandOk(t.files, t.published, c, t.commands[c])
  {
  }

  lemma PublishSelf(s: State, c: CommandId, env: Environment)
    requires c in s.commands && PublishPc(s.commands[c].pc)
    requires CommandOk(s.files, s.published, c, s.commands[c])
    ensures var t := AdvancePublish(s, c, env); CommandOk(t.files, t.published, c, t.commands[c])
  {
    if s.commands[c].pc.LinkStaging? { LinkSelf(s, c, env); } else { StagingSelf(s, c, env); }
  }

  lemma RenamerTouches(s: State, c: CommandId, env: Environment)
    requires c in s.commands && (s.commands[c].pc.RenameTemporary? || s.commands[c].pc.RenameReleased?)
    ensures Touches(s, AdvanceOwner(s, c, env), c)
  {
  }

  lemma WriterTouches(s: State, c: CommandId, env: Environment)
    requires c in s.commands && !s.commands[c].pc.RenameTemporary? && !s.commands[c].pc.RenameReleased?
    ensures Touches(s, AdvanceOwner(s, c, env), c)
  {
  }

  lemma OwnerTouches(s: State, c: CommandId, env: Environment)
    requires c in s.commands && OwnerPc(s.commands[c].pc)
    ensures Touches(s, AdvanceOwner(s, c, env), c)
  {
    if s.commands[c].pc.RenameTemporary? || s.commands[c].pc.RenameReleased? { RenamerTouches(s, c, env); }
    else { WriterTouches(s, c, env); }
  }

  lemma OwnerFiles(s: State, c: CommandId, env: Environment)
    requires c in s.commands && OwnerPc(s.commands[c].pc)
    requires CommandOk(s.files, s.published, c, s.commands[c]) && FilesOk(s.files, s.published)
    ensures var t := AdvanceOwner(s, c, env); FilesOk(t.files, t.published)
  {
    var t := AdvanceOwner(s, c, env);
    forall n <- t.files | Place(n) ensures t.files[n].Whole? && Known(t.published, t.files[n].record) {
      if n in s.files { assert Place(n); }
    }
  }

  lemma OwnerSelf(s: State, c: CommandId, env: Environment)
    requires c in s.commands && OwnerPc(s.commands[c].pc)
    requires CommandOk(s.files, s.published, c, s.commands[c]) && FilesOk(s.files, s.published)
    ensures var t := AdvanceOwner(s, c, env); CommandOk(t.files, t.published, c, t.commands[c])
  {
    if LeasePath in s.files { assert Place(LeasePath); }
  }

  lemma ValidateTouches(s: State, c: CommandId, env: Environment)
    requires c in s.commands && ValidatePc(s.commands[c].pc)
    ensures Touches(s, AdvanceTakeover(s, c, env), c)
  {
  }

  lemma ValidateFiles(s: State, c: CommandId, env: Environment)
    requires c in s.commands && ValidatePc(s.commands[c].pc) && FilesOk(s.files, s.published)
    ensures var t := AdvanceTakeover(s, c, env); FilesOk(t.files, t.published)
  {
    var t := AdvanceTakeover(s, c, env);
    forall n <- t.files | Place(n) ensures t.files[n].Whole? && Known(t.published, t.files[n].record) {
      if n in s.files { assert Place(n); }
      if LeasePath in s.files { assert Place(LeasePath); }
    }
  }

  lemma ValidateSelf(s: State, c: CommandId, env: Environment)
    requires c in s.commands && ValidatePc(s.commands[c].pc)
    requires CommandOk(s.files, s.published, c, s.commands[c]) && FilesOk(s.files, s.published)
    ensures var t := AdvanceTakeover(s, c, env); CommandOk(t.files, t.published, c, t.commands[c])
  {
    if LeasePath in s.files { assert Place(LeasePath); }
  }

  lemma ClaimedTouches(s: State, c: CommandId, env: Environment)
    requires c in s.commands && ClaimedPc(s.commands[c].pc)
    ensures Touches(s, AdvanceClaimed(s, c, env), c)
  {
  }

  lemma ClaimedFiles(s: State, c: CommandId, env: Environment)
    requires c in s.commands && ClaimedPc(s.commands[c].pc) && FilesOk(s.files, s.published)
    ensures var t := AdvanceClaimed(s, c, env); FilesOk(t.files, t.published)
  {
    var t := AdvanceClaimed(s, c, env);
    forall n <- t.files | Place(n) ensures t.files[n].Whole? && Known(t.published, t.files[n].record) {
      if n in s.files { assert Place(n); }
      if Claim(c) in s.files { assert Place(Claim(c)); }
    }
  }

  lemma ClaimedSelf(s: State, c: CommandId, env: Environment)
    requires c in s.commands && ClaimedPc(s.commands[c].pc)
    requires CommandOk(s.files, s.published, c, s.commands[c]) && FilesOk(s.files, s.published)
    ensures var t := AdvanceClaimed(s, c, env); CommandOk(t.files, t.published, c, t.commands[c])
  {
    if LeasePath in s.files { assert Place(LeasePath); }
  }

  lemma AdvanceTouches(s: State, c: CommandId, env: Environment)
    requires c in s.commands && CommandOk(s.files, s.published, c, s.commands[c])
    ensures Touches(s, AdvanceCommand(s, c, env), c)
  {
    var pc := s.commands[c].pc;
    if PublishPc(pc) { PublishTouches(s, c, env); }
    else if OwnerPc(pc) { OwnerTouches(s, c, env); }
    else if ValidatePc(pc) { ValidateTouches(s, c, env); }
    else if ClaimedPc(pc) { ClaimedTouches(s, c, env); }
  }

  lemma AdvanceFiles(s: State, c: CommandId, env: Environment)
    requires c in s.commands && CommandOk(s.files, s.published, c, s.commands[c]) && FilesOk(s.files, s.published)
    ensures var t := AdvanceCommand(s, c, env); FilesOk(t.files, t.published)
  {
    var pc := s.commands[c].pc;
    if PublishPc(pc) { PublishFiles(s, c, env); }
    else if OwnerPc(pc) { OwnerFiles(s, c, env); }
    else if ValidatePc(pc) { ValidateFiles(s, c, env); }
    else if ClaimedPc(pc) { ClaimedFiles(s, c, env); }
  }

  lemma AdvanceSelf(s: State, c: CommandId, env: Environment)
    requires c in s.commands && CommandOk(s.files, s.published, c, s.commands[c]) && FilesOk(s.files, s.published)
    ensures var t := AdvanceCommand(s, c, env); c in t.commands && CommandOk(t.files, t.published, c, t.commands[c])
  {
    var pc := s.commands[c].pc;
    if PublishPc(pc) { PublishSelf(s, c, env); }
    else if OwnerPc(pc) { OwnerSelf(s, c, env); }
    else if ValidatePc(pc) { ValidateSelf(s, c, env); }
    else if ClaimedPc(pc) { ClaimedSelf(s, c, env); }
  }

  /** A step publishes at most the record of its own command, and grants nothing unpublished. */
  lemma AdvancePublishes(s: State, c: CommandId, env: Environment)
    requires c in s.commands && CommandOk(s.files, s.published, c, s.commands[c]) && s.granted <= s.published.Keys
    ensures var t := AdvanceCommand(s, c, env);
      && t.granted <= t.published.Keys
      && (c in t.published && c !in s.published ==>
        t.published[c].record.leaseId == c && Descends(s.published, t.published[c].record, t.published[c].parent))
  {
    if s.commands[c].pc.LinkStaging? { assert PublishPc(s.commands[c].pc); }
  }

  lemma AdvanceIsSound(s: State, c: CommandId, env: Environment)
    requires Sound(s) && c in s.commands
    ensures Sound(AdvanceCommand(s, c, env))
  {
    assert CommandOk(s.files, s.published, c, s.commands[c]);
    AdvanceTouches(s, c, env);
    AdvanceFiles(s, c, env);
    AdvanceSelf(s, c, env);
    AdvancePublishes(s, c, env);
    Assemble(s, AdvanceCommand(s, c, env), c);
  }

  lemma StepIsSound(s: State, a: Action)
    requires Sound(s)
    ensures Sound(Next(s, a))
  {
    match a
    case Kill(_) =>
    case Start(c, writer, request, facts, now) =>
      if c !in s.commands {
        var t := Next(s, a);
        assert Touches(s, t.(commands := s.commands), c);
        forall d <- t.commands ensures CommandOk(t.files, t.published, d, t.commands[d]) {
          if d != c { assert CommandOk(s.files, s.published, d, s.commands[d]); }
        }
      }
    case Advance(c, env) =>
      if c in s.commands { AdvanceIsSound(s, c, env); }
  }

  lemma {:induction false} RunStaysSound(s: State, actions: seq<Action>)
    requires Sound(s)
    ensures Sound(Run(s, actions))
  {
    if actions != [] {
      var n := |actions| - 1;
      RunStaysSound(s, actions[..n]);
      StepIsSound(Run(s, actions[..n]), actions[n]);
    }
  }

  /** Every reachable state is sound. */
  lemma RunIsSound(actions: seq<Action>)
    ensures Sound(Run(INITIAL, actions))
  {
    RunStaysSound(INITIAL, actions);
  }

  /** Complete or absent: no reader of the lease path, and no evidence file, ever shows less than a
      whole record, and that record was published. */
  lemma CompleteOrAbsent(actions: seq<Action>, n: Name)
    ensures var s := Run(INITIAL, actions);
      Place(n) && n in s.files ==> s.files[n].Whole? && Known(s.published, s.files[n].record)
  {
    RunIsSound(actions);
  }

  /** `l` is `takeovers` takeovers after the root acquire `root`. */
  ghost predicate TracesTo(pub: Publications, l: LeaseId, takeovers: nat, root: LeaseId)
    decreases takeovers
  {
    l in pub &&
    match pub[l].parent
    case None => takeovers == 0 && root == l
    case Some(q) => takeovers > 0 && TracesTo(pub, q.leaseId, takeovers - 1, root)
  }

  lemma {:induction false} LineageHasRoot(pub: Publications, l: LeaseId) returns (root: LeaseId)
    requires LineagesOk(pub) && l in pub
    ensures pub[l].record.generation >= 1
    ensures TracesTo(pub, l, pub[l].record.generation - 1, root)
    ensures root in pub && pub[root].parent.None? && pub[root].record.lineage.baseOid == pub[l].record.lineage.baseOid
    decreases pub[l].record.generation
  {
    assert Descends(pub, pub[l].record, pub[l].parent);
    match pub[l].parent
    case None => root := l;
    case Some(q) => root := LineageHasRoot(pub, q.leaseId);
  }

  /** Takeover ancestry: in every run every published record traces to one root acquire, its generation
      is one more than the takeovers between them, and its base OID is the root's. */
  lemma Ancestry(actions: seq<Action>, l: LeaseId)
    requires l in Run(INITIAL, actions).published
    ensures var pub := Run(INITIAL, actions).published;
      exists root, takeovers: nat :: root in pub && TracesTo(pub, l, takeovers, root)
        && pub[root].parent.None?
        && pub[l].record.generation == 1 + takeovers
        && pub[l].record.lineage.baseOid == pub[root].record.lineage.baseOid
  {
    RunIsSound(actions);
    var pub := Run(INITIAL, actions).published;
    var root := LineageHasRoot(pub, l);
    assert TracesTo(pub, l, pub[l].record.generation - 1, root);
  }

  /** A takeover that reports success published its own lease as a successor, and its receipt lists the
      seven prerequisites in order, all satisfied. */
  lemma TakeoverReceipt(actions: seq<Action>, c: CommandId)
    requires var s := Run(INITIAL, actions);
      c in s.commands && s.commands[c].request.Takeover? && s.commands[c].pc.Done? && s.commands[c].pc.result.Granted?
    ensures var s := Run(INITIAL, actions); var result := s.commands[c].pc.result;
      && c in s.published && s.published[c].parent.Some?
      && SameLease(result.record, s.published[c].record)
      && Receipt(result.steps, 7)
  {
    RunIsSound(actions);
    var s := Run(INITIAL, actions);
    assert CommandOk(s.files, s.published, c, s.commands[c]);
  }

  /** A command that reports a refusal has published nothing, so a refusal never leaves a live lease behind. */
  lemma RefusalPublishesNothing(actions: seq<Action>, c: CommandId)
    requires var s := Run(INITIAL, actions);
      c in s.commands && s.commands[c].pc.Done? && s.commands[c].pc.result.Refused?
    ensures c !in Run(INITIAL, actions).published
  {
    RunIsSound(actions);
    var s := Run(INITIAL, actions);
    assert CommandOk(s.files, s.published, c, s.commands[c]);
  }
}
