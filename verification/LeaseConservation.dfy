/** Conservation of leases in assumed runs: every published lease is in exactly one place, and no
    evidence file is ever overwritten. */
module LeaseConservation {
  import opened Lease
  import opened LeaseProtocol
  import opened LeaseSafety
  import opened LeaseExclusion

  type Files = map<Name, Content>

  predicate HoldsLease(files: Files, n: Name, l: LeaseId) {
    n in files && Place(n) && files[n].Whole? && files[n].record.leaseId == l
  }

  /** Evidence files are named after the lease they hold. */
  predicate NamedAfter(n: Name, r: LeaseRecord) {
    match n
    case Released(l, g) => r.leaseId == l && r.generation == g
    case Abandoned(l, g) => r.leaseId == l && r.generation == g
    case _ => true
  }

  ghost predicate Conserved(files: Files, pub: Publications) {
    && (forall n <- files | Place(n) ::
          files[n].Whole? && files[n].record.leaseId in pub && NamedAfter(n, files[n].record))
    && (forall n, m, l :: HoldsLease(files, n, l) && HoldsLease(files, m, l) ==> n == m)
    && (forall l <- pub :: exists n :: HoldsLease(files, n, l))
  }

  lemma ConservedRename(files: Files, pub: Publications, from: Name, target: Name)
    requires Conserved(files, pub) && from in files && Place(from) && Place(target) && target !in files
    requires files[from].Whole? ==> NamedAfter(target, files[from].record)
    ensures Conserved((files - {from})[target := files[from]], pub)
  {
    var files' := (files - {from})[target := files[from]];
    forall n, l | HoldsLease(files', n, l) ensures HoldsLease(files, if n == target then from else n, l) { }
    forall l <- pub ensures exists n :: HoldsLease(files', n, l) {
      var n :| HoldsLease(files, n, l);
      assert HoldsLease(files', if n == from then target else n, l);
    }
  }

  /** Files outside the places do not matter, nor does a heartbeat of the lease at the path. */
  lemma ConservedElsewhere(files: Files, files': Files, pub: Publications)
    requires Conserved(files, pub)
    requires forall n | Place(n) :: n in files <==> n in files'
    requires forall n | Place(n) && n in files && n in files' :: SameHeld(files[n], files'[n])
    ensures Conserved(files', pub)
  {
    forall n, l ensures HoldsLease(files, n, l) <==> HoldsLease(files', n, l) {
      if Place(n) && n in files { assert SameHeld(files[n], files'[n]); }
    }
    forall n <- files' | Place(n)
      ensures files'[n].Whole? && files'[n].record.leaseId in pub && NamedAfter(n, files'[n].record)
    {
      assert n in files && SameHeld(files[n], files'[n]);
    }
    forall l <- pub ensures exists n :: HoldsLease(files', n, l) {
      var n :| HoldsLease(files, n, l);
      assert HoldsLease(files', n, l);
    }
  }

  predicate SameHeld(a: Content, b: Content) {
    a == b || (a.Whole? && b.Whole? && a.record.leaseId == b.record.leaseId
      && a.record.generation == b.record.generation)
  }

  lemma ConservedPublish(files: Files, pub: Publications, r: LeaseRecord, p: Publication)
    requires Conserved(files, pub) && LeasePath !in files && r.leaseId !in pub
    ensures Conserved(files[LeasePath := Whole(r)], pub[r.leaseId := p])
  {
    var files', pub' := files[LeasePath := Whole(r)], pub[r.leaseId := p];
    forall n, l | HoldsLease(files', n, l)
      ensures (n == LeasePath && l == r.leaseId) || (HoldsLease(files, n, l) && l in pub) { }
    forall l <- pub' ensures exists n :: HoldsLease(files', n, l) {
      if l == r.leaseId { assert HoldsLease(files', LeasePath, l); }
      else {
        var n :| HoldsLease(files, n, l);
        assert HoldsLease(files', n, l);
      }
    }
  }

  /** The command has claimed the lease it validated and has not published its successor. */
  predicate HasClaimed(pc: Pc) {
    pc.RenameEvidence? || pc.Recheck? || pc.WriteMeta?
  }

  predicate ClaimOk(files: Files, c: CommandId, pc: Pc) {
    HasClaimed(pc) ==>
      var q := pc.previous;
      && AbandonedMeta(q.leaseId, q.generation) !in files
      && HoldsLease(files, if pc.RenameEvidence? then Claim(c) else Abandoned(q.leaseId, q.generation), q.leaseId)
  }

  predicate ClaimPending(pc: Pc) {
    pc.RenameEvidence? || pc.Done?
  }

  predicate ClaimsOk(s: State) {
    forall c <- s.commands :: ClaimOk(s.files, c, s.commands[c].pc)
  }

  predicate ClaimsDistinct(s: State) {
    forall c <- s.commands, d <- s.commands ::
      c != d && HasClaimed(s.commands[c].pc) && HasClaimed(s.commands[d].pc) ==>
      s.commands[c].pc.previous.leaseId != s.commands[d].pc.previous.leaseId
  }

  predicate MetasOk(files: Files) {
    forall n <- files :: n.AbandonedMeta? ==> Abandoned(n.leaseId, n.generation) in files
  }

  predicate ClaimFilesOk(s: State) {
    forall n <- s.files :: n.Claim? ==> n.claimant in s.commands && ClaimPending(s.commands[n.claimant].pc)
  }

  /** The ledger of places, claims and evidence is in order. */
  ghost predicate Filed(s: State) {
    Conserved(s.files, s.published) && ClaimsOk(s) && ClaimsDistinct(s) && MetasOk(s.files) && ClaimFilesOk(s)
  }

  predicate Evidence(n: Name) {
    n.Released? || n.Abandoned? || n.AbandonedMeta?
  }

  predicate EvidenceKept(files: Files, files': Files) {
    forall n <- files | Evidence(n) :: n in files' && files'[n] == files[n]
  }

  ghost predicate LedgerSame(files: Files, files': Files) {
    forall n: Name :: n.Claim? || Evidence(n) ==> SameAt(files, files', n)
  }

  predicate OnlyCommand(s: State, t: State, c: CommandId) {
    c in s.commands && c in t.commands && t.commands == s.commands[c := t.commands[c]]
  }

  lemma ClaimStays(files: Files, files': Files, d: CommandId, pc: Pc, pc': Pc)
    requires LedgerSame(files, files') && ClaimOk(files, d, pc)
    requires pc' == pc || (HasClaimed(pc') ==> (
      HasClaimed(pc) && !pc.RenameEvidence? && !pc'.RenameEvidence? && pc'.previous == pc.previous))
    ensures ClaimOk(files', d, pc')
  {
    if HasClaimed(pc') {
      var q := pc'.previous;
      assert SameAt(files, files', Claim(d));
      assert SameAt(files, files', Abandoned(q.leaseId, q.generation));
      assert SameAt(files, files', AbandonedMeta(q.leaseId, q.generation));
    }
  }

  /** A step that leaves claims and evidence alone keeps the ledger in order. */
  lemma LedgerUntouched(s: State, t: State, c: CommandId)
    requires Filed(s) && OnlyCommand(s, t, c) && Conserved(t.files, t.published) && LedgerSame(s.files, t.files)
    requires HasClaimed(t.commands[c].pc) ==> (
      && HasClaimed(s.commands[c].pc) && !s.commands[c].pc.RenameEvidence?
      && !t.commands[c].pc.RenameEvidence? && t.commands[c].pc.previous == s.commands[c].pc.previous)
    requires ClaimPending(s.commands[c].pc) ==> ClaimPending(t.commands[c].pc)
    ensures Filed(t) && EvidenceKept(s.files, t.files)
  {
    forall n <- s.files | Evidence(n) ensures n in t.files && t.files[n] == s.files[n] {
      assert SameAt(s.files, t.files, n);
    }
    forall n <- t.files | n.AbandonedMeta? ensures Abandoned(n.leaseId, n.generation) in t.files {
      assert SameAt(s.files, t.files, n) && SameAt(s.files, t.files, Abandoned(n.leaseId, n.generation));
    }
    forall n <- t.files | n.Claim? ensures n.claimant in t.commands && ClaimPending(t.commands[n.claimant].pc) {
      assert SameAt(s.files, t.files, n);
    }
    forall d <- t.commands ensures ClaimOk(t.files, d, t.commands[d].pc) {
      assert ClaimOk(s.files, d, s.commands[d].pc);
      ClaimStays(s.files, t.files, d, s.commands[d].pc, t.commands[d].pc);
    }
  }

  /** A rename of a place by `c` to a free place keeps the ledger in order. */
  lemma LedgerRename(s: State, t: State, c: CommandId, from: Name, target: Name)
    requires Filed(s) && OnlyCommand(s, t, c) && t.published == s.published
    requires from in s.files && (from.LeasePath? || from == Claim(c)) && target !in s.files && s.files[from].Whole?
    requires target.Released? || target.Abandoned? || target == Claim(c)
    requires NamedAfter(target, s.files[from].record)
    requires t.files == (s.files - {from})[target := s.files[from]]
    requires ClaimOk(t.files, c, t.commands[c].pc)
    requires HasClaimed(t.commands[c].pc) ==> forall d <- s.commands ::
      d != c && HasClaimed(s.commands[d].pc) ==> s.commands[d].pc.previous.leaseId != t.commands[c].pc.previous.leaseId
    requires Claim(c) in t.files ==> ClaimPending(t.commands[c].pc)
    ensures Filed(t) && EvidenceKept(s.files, t.files)
  {
    ConservedRename(s.files, s.published, from, target);
    RenameKeepsClaims(s, t, c, from, target);
    assert ClaimsDistinct(t);
    RenameKeepsFiles(s, t, c, from, target);
  }

  lemma RenameKeepsFiles(s: State, t: State, c: CommandId, from: Name, target: Name)
    requires MetasOk(s.files) && ClaimFilesOk(s) && OnlyCommand(s, t, c)
    requires from in s.files && (from.LeasePath? || from == Claim(c)) && target !in s.files
    requires target.Released? || target.Abandoned? || target == Claim(c)
    requires t.files == (s.files - {from})[target := s.files[from]]
    requires Claim(c) in t.files ==> ClaimPending(t.commands[c].pc)
    ensures MetasOk(t.files) && ClaimFilesOk(t) && EvidenceKept(s.files, t.files)
  {
  }

  lemma RenameKeepsClaims(s: State, t: State, c: CommandId, from: Name, target: Name)
    requires ClaimsOk(s) && OnlyCommand(s, t, c)
    requires from in s.files && (from.LeasePath? || from == Claim(c)) && target !in s.files
    requires target.Released? || target.Abandoned? || target == Claim(c)
    requires t.files == (s.files - {from})[target := s.files[from]]
    requires ClaimOk(t.files, c, t.commands[c].pc)
    ensures ClaimsOk(t)
  {
    forall d <- t.commands | d != c ensures ClaimOk(t.files, d, t.commands[d].pc) {
      assert ClaimOk(s.files, d, s.commands[d].pc);
      if HasClaimed(s.commands[d].pc) {
        var q := s.commands[d].pc.previous;
        var n := if s.commands[d].pc.RenameEvidence? then Claim(d) else Abandoned(q.leaseId, q.generation);
        assert n != from && n != target;
      }
    }
  }

  /** Writing the abandonment record of the lease `c` claimed keeps the ledger in order. */
  lemma LedgerMeta(s: State, t: State, c: CommandId)
    requires Filed(s) && OnlyCommand(s, t, c) && t.published == s.published && s.commands[c].pc.WriteMeta?
    requires var q := s.commands[c].pc.previous; t.files == s.files[AbandonedMeta(q.leaseId, q.generation) := Meta(c)]
    requires !HasClaimed(t.commands[c].pc)
    ensures Filed(t) && EvidenceKept(s.files, t.files)
  {
    assert ClaimOk(s.files, c, s.commands[c].pc);
    ConservedElsewhere(s.files, t.files, s.published);
    MetaKeepsClaims(s, t, c);
    DoneKeepsDistinct(s, t, c);
    MetaKeepsFiles(s, t, c);
  }

  lemma DoneKeepsDistinct(s: State, t: State, c: CommandId)
    requires ClaimsDistinct(s) && OnlyCommand(s, t, c) && !HasClaimed(t.commands[c].pc)
    ensures ClaimsDistinct(t)
  {
  }

  lemma MetaKeepsFiles(s: State, t: State, c: CommandId)
    requires MetasOk(s.files) && ClaimFilesOk(s) && OnlyCommand(s, t, c) && s.commands[c].pc.WriteMeta?
    requires var q := s.commands[c].pc.previous; t.files == s.files[AbandonedMeta(q.leaseId, q.generation) := Meta(c)]
    requires var q := s.commands[c].pc.previous;
      Abandoned(q.leaseId, q.generation) in s.files && AbandonedMeta(q.leaseId, q.generation) !in s.files
    ensures MetasOk(t.files) && ClaimFilesOk(t) && EvidenceKept(s.files, t.files)
  {
  }

  lemma MetaKeepsClaims(s: State, t: State, c: CommandId)
    requires ClaimsOk(s) && ClaimsDistinct(s) && OnlyCommand(s, t, c) && s.commands[c].pc.WriteMeta?
    requires var q := s.commands[c].pc.previous; t.files == s.files[AbandonedMeta(q.leaseId, q.generation) := Meta(c)]
    requires !HasClaimed(t.commands[c].pc)
    ensures ClaimsOk(t)
  {
    forall d <- t.commands | d != c ensures ClaimOk(t.files, d, t.commands[d].pc) {
      assert ClaimOk(s.files, d, s.commands[d].pc);
    }
  }

  lemma PublishEffect(s: State, c: CommandId, env: Environment)
    requires c in s.commands && PublishPc(s.commands[c].pc)
    requires CommandOk(s.files, s.published, c, s.commands[c])
    ensures var t := AdvancePublish(s, c, env);
      && OnlyCommand(s, t, c) && LedgerSame(s.files, t.files)
      && (t.commands[c].pc.Done? || PublishPc(t.commands[c].pc))
      && (t.published == s.published ==> forall n | Place(n) :: SameAt(s.files, t.files, n))
      && (t.published != s.published ==>
            var p := s.commands[c].pc.p;
            && t.published == s.published[c := Publication(p.record, p.parent)] && p.record.leaseId == c
              && c !in s.published
            && t.files == s.files[LeasePath := Whole(p.record)] && LeasePath !in s.files)
  {
  }

  lemma PublishConserves(s: State, c: CommandId, env: Environment)
    requires Conserved(s.files, s.published) && c in s.commands && PublishPc(s.commands[c].pc)
    requires CommandOk(s.files, s.published, c, s.commands[c])
    ensures var t := AdvancePublish(s, c, env); Conserved(t.files, t.published)
  {
    var t := AdvancePublish(s, c, env);
    PublishEffect(s, c, env);
    if t.published == s.published {
      assert forall n | Place(n) :: SameAt(s.files, t.files, n);
      ConservedElsewhere(s.files, t.files, s.published);
    } else {
      var p := s.commands[c].pc.p;
      ConservedPublish(s.files, s.published, p.record, Publication(p.record, p.parent));
    }
  }

  lemma PublishFiled(s: State, c: CommandId, env: Environment)
    requires Filed(s) && c in s.commands && PublishPc(s.commands[c].pc)
    requires CommandOk(s.files, s.published, c, s.commands[c])
    ensures Filed(AdvancePublish(s, c, env)) && EvidenceKept(s.files, AdvancePublish(s, c, env).files)
  {
    PublishEffect(s, c, env);
    PublishConserves(s, c, env);
    LedgerUntouched(s, AdvancePublish(s, c, env), c);
  }

  /** `files'` shows the same leases at the same places, possibly at a later heartbeat. */
  ghost predicate PlacesSame(files: Files, files': Files) {
    forall n | Place(n) :: (n in files <==> n in files') && (n in files ==> SameHeld(files[n], files'[n]))
  }

  lemma BeatEffect(s: State, c: CommandId, env: Environment)
    requires c in s.commands && OwnerPc(s.commands[c].pc) && !s.commands[c].pc.RenameReleased?
    requires CommandOk(s.files, s.published, c, s.commands[c])
    requires s.commands[c].pc.RenameTemporary? ==>
      LeasePath in s.files && SameHeld(s.files[LeasePath], Whole(s.commands[c].pc.updated))
    ensures var t := AdvanceOwner(s, c, env);
      && OnlyCommand(s, t, c) && LedgerSame(s.files, t.files) && t.published == s.published
      && (t.commands[c].pc.Done? || OwnerPc(t.commands[c].pc))
      && PlacesSame(s.files, t.files)
  {
  }

  lemma BeatFiled(s: State, c: CommandId, env: Environment)
    requires Filed(s) && c in s.commands && OwnerPc(s.commands[c].pc) && !s.commands[c].pc.RenameReleased?
    requires CommandOk(s.files, s.published, c, s.commands[c])
    requires s.commands[c].pc.RenameTemporary? ==>
      LeasePath in s.files && SameHeld(s.files[LeasePath], Whole(s.commands[c].pc.updated))
    ensures Filed(AdvanceOwner(s, c, env)) && EvidenceKept(s.files, AdvanceOwner(s, c, env).files)
  {
    BeatEffect(s, c, env);
    BeatLedger(s, AdvanceOwner(s, c, env), c);
  }

  lemma BeatLedger(s: State, t: State, c: CommandId)
    requires Filed(s) && OnlyCommand(s, t, c) && LedgerSame(s.files, t.files) && t.published == s.published
    requires OwnerPc(s.commands[c].pc) && (t.commands[c].pc.Done? || OwnerPc(t.commands[c].pc))
    requires PlacesSame(s.files, t.files)
    ensures Filed(t) && EvidenceKept(s.files, t.files)
  {
    ConservedElsewhere(s.files, t.files, s.published);
    LedgerUntouched(s, t, c);
  }

  /** A place other than `n` that is named after the lease at `n` is free. */
  lemma PlaceIsFree(files: Files, pub: Publications, n: Name, m: Name, l: LeaseId)
    requires Conserved(files, pub) && HoldsLease(files, n, l) && m != n
    requires (m.Released? || m.Abandoned?) && m.leaseId == l
    ensures m !in files
  {
    assert m in files ==> HoldsLease(files, m, l);
  }

  lemma ReleaseFiled(s: State, c: CommandId, env: Environment)
    requires Filed(s) && c in s.commands && s.commands[c].pc.RenameReleased?
    requires HoldsLease(s.files, LeasePath, s.commands[c].pc.owned.leaseId)
    requires s.files[LeasePath].record.generation == s.commands[c].pc.owned.generation
    ensures Filed(AdvanceOwner(s, c, env)) && EvidenceKept(s.files, AdvanceOwner(s, c, env).files)
  {
    var t := AdvanceOwner(s, c, env);
    var r := s.commands[c].pc.owned;
    if env.fault {
      LedgerUntouched(s, t, c);
    } else {
      PlaceIsFree(s.files, s.published, LeasePath, Released(r.leaseId, r.generation), r.leaseId);
      LedgerRename(s, t, c, LeasePath, Released(r.leaseId, r.generation));
    }
  }

  lemma ValidateFiled(s: State, c: CommandId, env: Environment)
    requires Filed(s) && c in s.commands && ValidatePc(s.commands[c].pc) && !s.commands[c].pc.RenameClaim?
    ensures Filed(AdvanceTakeover(s, c, env)) && EvidenceKept(s.files, AdvanceTakeover(s, c, env).files)
  {
    LedgerUntouched(s, AdvanceTakeover(s, c, env), c);
  }

  /** Nobody else has claimed the lease that is at the lease path, and it has no abandonment record. */
  lemma UnclaimedAtPath(s: State, q: LeaseRecord)
    requires Filed(s) && HoldsLease(s.files, LeasePath, q.leaseId)
    ensures forall d <- s.commands :: HasClaimed(s.commands[d].pc) ==> s.commands[d].pc.previous.leaseId != q.leaseId
    ensures AbandonedMeta(q.leaseId, q.generation) !in s.files
  {
    forall d <- s.commands | HasClaimed(s.commands[d].pc) ensures s.commands[d].pc.previous.leaseId != q.leaseId {
      assert ClaimOk(s.files, d, s.commands[d].pc);
    }
    PlaceIsFree(s.files, s.published, LeasePath, Abandoned(q.leaseId, q.generation), q.leaseId);
  }

  lemma ClaimFiled(s: State, c: CommandId, env: Environment)
    requires Filed(s) && c in s.commands && s.commands[c].pc.RenameClaim?
    requires LeasePath in s.files ==> HoldsLease(s.files, LeasePath, s.commands[c].pc.previous.leaseId)
    ensures Filed(AdvanceTakeover(s, c, env)) && EvidenceKept(s.files, AdvanceTakeover(s, c, env).files)
  {
    var t := AdvanceTakeover(s, c, env);
    if LeasePath !in s.files || env.fault {
      LedgerUntouched(s, t, c);
    } else {
      var q := s.commands[c].pc.previous;
      UnclaimedAtPath(s, q);
      assert HoldsLease(t.files, Claim(c), q.leaseId);
      LedgerRename(s, t, c, LeasePath, Claim(c));
    }
  }

  lemma EvidenceFiled(s: State, c: CommandId, env: Environment)
    requires Filed(s) && c in s.commands && s.commands[c].pc.RenameEvidence?
    requires HoldsLease(s.files, Claim(c), s.commands[c].pc.previous.leaseId)
    requires s.files[Claim(c)].record.generation == s.commands[c].pc.previous.generation
    ensures Filed(AdvanceClaimed(s, c, env)) && EvidenceKept(s.files, AdvanceClaimed(s, c, env).files)
  {
    var t := AdvanceClaimed(s, c, env);
    var q := s.commands[c].pc.previous;
    if env.fault {
      LedgerUntouched(s, t, c);
    } else {
      assert ClaimOk(s.files, c, s.commands[c].pc);
      var target := Abandoned(q.leaseId, q.generation);
      PlaceIsFree(s.files, s.published, Claim(c), target, q.leaseId);
      assert HoldsLease(t.files, target, q.leaseId);
      LedgerRename(s, t, c, Claim(c), target);
    }
  }

  lemma MetaFiled(s: State, c: CommandId, env: Environment)
    requires Filed(s) && c in s.commands && (s.commands[c].pc.Recheck? || s.commands[c].pc.WriteMeta?)
    ensures Filed(AdvanceClaimed(s, c, env)) && EvidenceKept(s.files, AdvanceClaimed(s, c, env).files)
  {
    var t := AdvanceClaimed(s, c, env);
    if s.commands[c].pc.Recheck? || env.fault {
      LedgerUntouched(s, t, c);
    } else {
      LedgerMeta(s, t, c);
    }
  }

  lemma AdvanceFiled(s: State, c: CommandId, env: Environment)
    requires Sound(s) && Exclusive(s) && Filed(s) && c in s.commands && Assumed(s, Advance(c, env))
    ensures Filed(AdvanceCommand(s, c, env)) && EvidenceKept(s.files, AdvanceCommand(s, c, env).files)
  {
    var pc := s.commands[c].pc;
    assert CommandOk(s.files, s.published, c, s.commands[c]);
    if LeasePath in s.files { assert Place(LeasePath); }
    if PublishPc(pc) { PublishFiled(s, c, env); }
    else if OwnerPc(pc) {
      if Owning(pc) {
        assert AtLease(s, OwnedBy(pc));
        LeaseWriter(s, if pc.RenameReleased? then pc.owned else pc.updated);
      }
      if pc.RenameReleased? { ReleaseFiled(s, c, env); } else { BeatFiled(s, c, env); }
    }
    else if pc.RenameClaim? { ClaimFiled(s, c, env); }
    else if ValidatePc(pc) { ValidateFiled(s, c, env); }
    else if pc.RenameEvidence? {
      assert ClaimOk(s.files, c, pc) && Place(Claim(c));
      EvidenceFiled(s, c, env);
    }
    else if ClaimedPc(pc) { MetaFiled(s, c, env); }
  }

  lemma StepFiled(s: State, a: Action)
    requires Sound(s) && Exclusive(s) && Filed(s) && Assumed(s, a)
    ensures Filed(Next(s, a)) && EvidenceKept(s.files, Next(s, a).files)
  {
    match a
    case Kill(_) =>
    case Start(_, _, _, _, _) => StartFiled(s, a);
    case Advance(c, env) => if c in s.commands { AdvanceFiled(s, c, env); }
  }

  lemma StartFiled(s: State, a: Action)
    requires Filed(s) && a.Start?
    ensures Filed(Next(s, a)) && EvidenceKept(s.files, Next(s, a).files)
  {
    if a.c !in s.commands {
      var t := Next(s, a);
      assert !HasClaimed(t.commands[a.c].pc);
      forall d <- t.commands ensures ClaimOk(t.files, d, t.commands[d].pc) {
        if d != a.c { assert ClaimOk(s.files, d, s.commands[d].pc); }
      }
    }
  }

  lemma {:induction false} RunStaysFiled(s: State, actions: seq<Action>)
    requires Sound(s) && Exclusive(s) && Filed(s) && AssumedFrom(s, actions)
    ensures Filed(Run(s, actions))
  {
    if actions != [] {
      var n := |actions| - 1;
      AssumedPrefix(s, actions, n);
      RunStaysFiled(s, actions[..n]);
      RunStaysSound(s, actions[..n]);
      RunStaysExclusive(s, actions[..n]);
      StepFiled(Run(s, actions[..n]), actions[n]);
    }
  }

  lemma RunFiled(actions: seq<Action>)
    requires AssumedRun(actions)
    ensures Filed(Run(INITIAL, actions))
  {
    RunStaysFiled(INITIAL, actions);
  }

  /** Lease conservation: every lease ever published is in exactly one place - the lease path, a claim
      file, the released directory or the abandoned directory - and evidence is filed under its own name. */
  lemma LeaseConservation(actions: seq<Action>, l: LeaseId)
    requires AssumedRun(actions) && l in Run(INITIAL, actions).published
    ensures var files := Run(INITIAL, actions).files;
      exists n ::
        HoldsLease(files, n, l) && NamedAfter(n, files[n].record) && forall m :: HoldsLease(files, m, l) ==> m == n
  {
    RunFiled(actions);
    var s := Run(INITIAL, actions);
    var n :| HoldsLease(s.files, n, l);
    assert forall m :: HoldsLease(s.files, m, l) ==> m == n;
  }

  lemma LastStepKeepsEvidence(s: State, actions: seq<Action>)
    requires Sound(s) && Exclusive(s) && Filed(s) && AssumedFrom(s, actions) && actions != []
    ensures AssumedFrom(s, actions[..|actions| - 1])
    ensures EvidenceKept(Run(s, actions[..|actions| - 1]).files, Run(s, actions).files)
  {
    var k := |actions| - 1;
    AssumedPrefix(s, actions, k);
    RunStaysSound(s, actions[..k]);
    RunStaysExclusive(s, actions[..k]);
    RunStaysFiled(s, actions[..k]);
    StepFiled(Run(s, actions[..k]), actions[k]);
  }

  lemma {:induction false} EvidenceKeptSince(s: State, actions: seq<Action>, i: nat)
    requires Sound(s) && Exclusive(s) && Filed(s) && AssumedFrom(s, actions) && i <= |actions|
    ensures EvidenceKept(Run(s, actions[..i]).files, Run(s, actions).files)
  {
    if i == |actions| {
      assert actions[..i] == actions;
    } else {
      var k := |actions| - 1;
      LastStepKeepsEvidence(s, actions);
      assert actions[..k][..i] == actions[..i];
      EvidenceKeptSince(s, actions[..k], i);
      KeptTransitively(Run(s, actions[..i]).files, Run(s, actions[..k]).files, Run(s, actions).files);
    }
  }

  lemma KeptTransitively(early: Files, mid: Files, late: Files)
    requires EvidenceKept(early, mid) && EvidenceKept(mid, late)
    ensures EvidenceKept(early, late)
  {
  }

  /** Evidence is write-once: whatever a released, abandoned or abandonment-record file holds at one moment
      of an assumed run, it holds at every later moment. */
  lemma EvidenceIsWriteOnce(actions: seq<Action>, i: nat, n: Name)
    requires AssumedRun(actions) && i <= |actions| && Evidence(n) && n in Run(INITIAL, actions[..i]).files
    ensures n in Run(INITIAL, actions).files && Run(INITIAL, actions).files[n] == Run(INITIAL, actions[..i]).files[n]
  {
    EvidenceKeptSince(INITIAL, actions, i);
  }
}
