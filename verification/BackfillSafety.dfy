/** What the backfill guarantees: the generator and the executor agree, and whatever other writers do, a run
    inserts every prepared row or none. */
module BackfillSafety {
  import opened Wrappers
  import opened StableSort
  import opened BackfillManifest
  import opened BackfillExecute

  // The ledger.

  /** What other writers may do to the ledger: add rows, and change what is not identity. */
  ghost predicate KeepsKeys(a: seq<Obligation>, b: seq<Obligation>) {
    |a| <= |b| && forall i | 0 <= i < |a| :: KeyOf(b[i]) == KeyOf(a[i])
  }

  lemma {:induction false} FindKeyIs(a: seq<Obligation>, k: Key)
    ensures match FindKey(a, k)
      case Some(id) => 1 <= id <= |a| && KeyOf(a[id - 1]) == k && forall i | 0 <= i < id - 1 :: KeyOf(a[i]) != k
      case None => forall i | 0 <= i < |a| :: KeyOf(a[i]) != k
  {
    if a != [] { FindKeyIs(a[..|a| - 1], k); }
  }

  /** An obligation is found again under the same id, whatever other writers did. */
  lemma KeptIsFound(a: seq<Obligation>, b: seq<Obligation>, k: Key)
    requires KeepsKeys(a, b) && FindKey(a, k).Some?
    ensures FindKey(b, k) == FindKey(a, k)
  {
    FindKeyIs(a, k);
    FindKeyIs(b, k);
    var i := FindKey(a, k).value - 1;
    assert KeyOf(b[i]) == k;
    assert forall j | 0 <= j < i :: KeyOf(b[j]) == KeyOf(a[j]) != k;
  }

  lemma AppendedIsFound(a: seq<Obligation>, o: Obligation)
    ensures FindKey(a + [o], KeyOf(o)).Some?
  {
    FindKeyIs(a + [o], KeyOf(o));
    assert KeyOf((a + [o])[|a|]) == KeyOf(o);
  }

  /** What the inserts do: every prepared row has its key in the ledger afterwards, and every new row is a
      prepared one whose key was nowhere before it. */
  lemma {:induction false} InsertAllAdds(ledger: seq<Obligation>, prepared: seq<Prepared>)
    requires InsertAll(ledger, prepared).Some?
    ensures var out := InsertAll(ledger, prepared).value.0;
      && |InsertAll(ledger, prepared).value.1| == |prepared|
      && ledger <= out
      && (forall p <- prepared :: FindKey(out, KeyOf(p.row)).Some?)
      && forall i | |ledger| <= i < |out| ::
          (exists p <- prepared :: p.row == out[i]) && FindKey(out[..i], KeyOf(out[i])).None?
  {
    if prepared != [] {
      var n := |prepared| - 1;
      var before, row := InsertAll(ledger, prepared[..n]).value.0, prepared[n].row;
      var out := InsertAll(ledger, prepared).value.0;
      InsertAllAdds(ledger, prepared[..n]);
      assert prepared == prepared[..n] + [prepared[n]];
      if FindKey(before, KeyOf(row)).None? { AppendedIsFound(before, row); }
      forall p <- prepared ensures FindKey(out, KeyOf(p.row)).Some? {
        if p in prepared[..n] { KeptIsFound(before, out, KeyOf(p.row)); }
      }
      forall i | |ledger| <= i < |out|
        ensures (exists p <- prepared :: p.row == out[i]) && FindKey(out[..i], KeyOf(out[i])).None?
      {
        if i < |before| {
          assert out[..i] == before[..i];
          var p :| p in prepared[..n] && p.row == before[i];
          assert p in prepared;
        } else {
          assert out[..i] == before && prepared[n] in prepared;
        }
      }
    }
  }

  lemma {:induction false} NothingChanged(locked: World, prepared: seq<Prepared>, p: Prepared)
    requires FirstChanged(locked, prepared).None? && p in prepared
    ensures !Changed(locked, p)
  {
    var n := |prepared| - 1;
    assert prepared == prepared[..n] + [prepared[n]];
    if p in prepared[..n] { NothingChanged(locked, prepared[..n], p); }
  }

  // Stage A.

  lemma ReadyIs(w: World, d: Descriptor, run: Run)
    requires Examine(w, d, run).Ready?
    ensures var p := Examine(w, d, run).prepared;
      && Complete(d) && !run.dryRun && p.bind == BindFor(d) && KeyOf(p.row) == KeyFor(d) && p.row.originJob == d.jobId
      && p.row.inputDigest == InputDigest(w.messages[d.messageId].content.GetOr(""), d.mediaClass)
      && (d.mediaSha256.Some? ==> p.row.retained.Some? && p.row.retained.value.sha256 == d.mediaSha256.value)
  {
  }

  /** Every descriptor ends up in exactly one of the four lists. */
  lemma {:induction false} StageAccounts(vs: seq<Verdict>, eligible: seq<Descriptor>)
    requires |vs| == |eligible|
    ensures var s := Collected(vs, eligible);
      |s.wouldCreate| + |s.alreadyExisted| + |s.skipped| + |s.prepared| == |eligible|
  {
    var n := |eligible| - 1;
    if n >= 0 { StageAccounts(vs[..n], eligible[..n]); }
  }

  lemma CollectKeeps(s: Stage, d: Descriptor, v: Verdict)
    ensures var t := Collect(s, d, v);
      && s.skipped <= t.skipped && s.prepared <= t.prepared
      && (v.Skipped? ==> t.skipped != [])
      && (v.Ready? ==> v.prepared in t.prepared)
      && (t.skipped == [] <==> s.skipped == [] && !v.Skipped?)
      && (t.wouldCreate == [] <==> s.wouldCreate == [] && !v.WouldCreate?)
      && forall p <- t.prepared :: p in s.prepared || v == Ready(p)
  {
  }

  /** With nothing skipped, every descriptor was found to exist, would be created, or is prepared. */
  lemma {:induction false} StageNoSkip(vs: seq<Verdict>, eligible: seq<Descriptor>, i: nat)
    requires |vs| == |eligible| && i < |eligible| && Collected(vs, eligible).skipped == []
    ensures !vs[i].Skipped? && (vs[i].Ready? ==> vs[i].prepared in Collected(vs, eligible).prepared)
  {
    var n := |eligible| - 1;
    CollectKeeps(Collected(vs[..n], eligible[..n]), eligible[n], vs[n]);
    if i < n { StageNoSkip(vs[..n], eligible[..n], i); }
  }

  lemma {:induction false} PreparedComesFrom(vs: seq<Verdict>, eligible: seq<Descriptor>, p: Prepared) returns (i: nat)
    requires |vs| == |eligible| && p in Collected(vs, eligible).prepared
    ensures i < |eligible| && vs[i] == Ready(p)
  {
    var n := |eligible| - 1;
    CollectKeeps(Collected(vs[..n], eligible[..n]), eligible[n], vs[n]);
    if p in Collected(vs[..n], eligible[..n]).prepared { i := PreparedComesFrom(vs[..n], eligible[..n], p); }
    else { i := n; }
  }

  lemma {:induction false} NothingSkipped(vs: seq<Verdict>, eligible: seq<Descriptor>)
    requires |vs| == |eligible| && forall v <- vs :: !v.Skipped?
    ensures Collected(vs, eligible).skipped == []
  {
    var n := |eligible| - 1;
    if n >= 0 {
      assert forall v <- vs[..n] :: v in vs;
      assert vs[n] in vs;
      NothingSkipped(vs[..n], eligible[..n]);
    }
  }

  lemma {:induction false} NoneWould(vs: seq<Verdict>, eligible: seq<Descriptor>)
    requires |vs| == |eligible| && forall v <- vs :: !v.WouldCreate?
    ensures Collected(vs, eligible).wouldCreate == []
  {
    var n := |eligible| - 1;
    if n >= 0 {
      assert forall v <- vs[..n] :: v in vs;
      assert vs[n] in vs;
      NoneWould(vs[..n], eligible[..n]);
    }
  }

  /** Only a dry run would create, and only a confirmed one prepares. */
  lemma DryOrReady(views: seq<World>, eligible: seq<Descriptor>, run: Run)
    requires |views| == |eligible|
    ensures !run.dryRun ==> StageA(views, eligible, run).wouldCreate == []
    ensures run.dryRun ==> StageA(views, eligible, run).prepared == []
  {
    var vs := Verdicts(views, eligible, run);
    if !run.dryRun {
      NoneWould(vs, eligible);
    } else if Collected(vs, eligible).prepared != [] {
      var i := PreparedComesFrom(vs, eligible, Collected(vs, eligible).prepared[0]);
      ReadyIs(views[i], eligible[i], run);
    }
  }

  // Atomicity under interference.

  /** The run committed. */
  ghost predicate Committed(run: Run, views: seq<World>, locked: World, lock: Lock)
    requires |views| == |run.eligible|
  {
    var s := StageA(views, run.eligible, run);
    && ComputeManifestDigest(run.manifestId, run.eligible) == run.approved
    && !run.dryRun && s.skipped == [] && s.prepared != [] && lock.free && lock.assertion
    && FirstChanged(locked, s.prepared).None? && InsertAll(locked.obligations, s.prepared).Some?
  }

  /** All or none: a run that does not commit leaves the world as the last moment found it and reports nothing
      created; one that commits adds to the ledger only, leaves the recovery rows untouched, and afterwards the
      obligation of every approved descriptor is in the ledger. */
  lemma AllOrNothing(run: Run, views: seq<World>, locked: World, lock: Lock)
    requires |views| == |run.eligible|
    ensures !Committed(run, views, locked, lock) ==> (
      var (r, after) := Executed(run, views, locked, lock); after == locked && (r.Report? ==> r.created == []))
    ensures Committed(run, views, locked, lock) ==> (
      var (r, after) := Executed(run, views, locked, lock);
      && r.Report? && r.skipped == [] && |r.created| + |r.alreadyExisted| == |run.eligible|
      && after == locked.(obligations := after.obligations) && locked.obligations < after.obligations
      && forall i | 0 <= i < |run.eligible| :: KeepsKeys(views[i].obligations, locked.obligations) ==>
           Complete(run.eligible[i]) && FindKey(after.obligations, KeyFor(run.eligible[i])).Some?)
  {
    if Committed(run, views, locked, lock) { CommitIsWhole(run, views, locked, lock); }
  }

  lemma CommitIsWhole(run: Run, views: seq<World>, locked: World, lock: Lock)
    requires |views| == |run.eligible| && Committed(run, views, locked, lock)
    ensures var (r, after) := Executed(run, views, locked, lock);
      && |r.created| + |r.alreadyExisted| == |run.eligible| && locked.obligations < after.obligations
      && forall i | 0 <= i < |run.eligible| :: KeepsKeys(views[i].obligations, locked.obligations) ==>
           Complete(run.eligible[i]) && FindKey(after.obligations, KeyFor(run.eligible[i])).Some?
  {
    var vs := Verdicts(views, run.eligible, run);
    var s := Collected(vs, run.eligible);
    InsertAllAdds(locked.obligations, s.prepared);
    StageAccounts(vs, run.eligible);
    DryOrReady(views, run.eligible, run);
    InsertsSomething(locked, s.prepared);
    forall i | 0 <= i < |run.eligible| && KeepsKeys(views[i].obligations, locked.obligations)
      ensures Complete(run.eligible[i])
        && FindKey(InsertAll(locked.obligations, s.prepared).value.0, KeyFor(run.eligible[i])).Some?
    {
      StageNoSkip(vs, run.eligible, i);
      VerdictIsKept(views[i], run.eligible[i], run, locked.obligations, s.prepared);
    }
  }

  lemma InsertsSomething(locked: World, prepared: seq<Prepared>)
    requires prepared != [] && FirstChanged(locked, prepared).None? && InsertAll(locked.obligations, prepared).Some?
    ensures locked.obligations < InsertAll(locked.obligations, prepared).value.0
  {
    InsertAllAdds(locked.obligations, prepared);
    assert prepared[0] in prepared;
    NothingChanged(locked, prepared, prepared[0]);
  }

  /** What was found to exist, or prepared, is in the ledger after the inserts. */
  lemma VerdictIsKept(w: World, d: Descriptor, run: Run, ledger: seq<Obligation>, prepared: seq<Prepared>)
    requires var v := Examine(w, d, run); v.Existing? || (v.Ready? && v.prepared in prepared)
    requires KeepsKeys(w.obligations, ledger) && InsertAll(ledger, prepared).Some?
    ensures Complete(d) && FindKey(InsertAll(ledger, prepared).value.0, KeyFor(d)).Some?
  {
    InsertAllAdds(ledger, prepared);
    if Examine(w, d, run).Ready? {
      ReadyIs(w, d, run);
    } else {
      ExistingIs(w, d, run);
      KeptIsFound(w.obligations, ledger, KeyFor(d));
      KeptIsFound(ledger, InsertAll(ledger, prepared).value.0, KeyFor(d));
    }
  }

  lemma ExistingIs(w: World, d: Descriptor, run: Run)
    requires Examine(w, d, run).Existing?
    ensures Complete(d) && FindKey(w.obligations, KeyFor(d)) == Some(Examine(w, d, run).id)
  {
  }

  /** Every inserted row comes from an approved descriptor, was absent from the ledger it was inserted into, with
      a recovery job that was confirmable in that very state. */
  lemma InsertedIsConfirmed(run: Run, views: seq<World>, locked: World, lock: Lock, j: nat) returns (i: nat)
    requires |views| == |run.eligible| && Committed(run, views, locked, lock)
    requires |locked.obligations| <= j < |Executed(run, views, locked, lock).1.obligations|
    ensures var after := Executed(run, views, locked, lock).1; var row := after.obligations[j];
      && i < |run.eligible| && Complete(run.eligible[i])
      && KeyOf(row) == KeyFor(run.eligible[i]) && row.originJob == run.eligible[i].jobId
      && ClassifyRecovery(locked.jobs, BindFor(run.eligible[i])).None?
      && FindKey(locked.obligations, KeyOf(row)).None? && FindKey(after.obligations[..j], KeyOf(row)).None?
  {
    var vs := Verdicts(views, run.eligible, run);
    var s := Collected(vs, run.eligible);
    var out := InsertAll(locked.obligations, s.prepared).value.0;
    InsertAllAdds(locked.obligations, s.prepared);
    var p :| p in s.prepared && p.row == out[j];
    NothingChanged(locked, s.prepared, p);
    i := PreparedComesFrom(vs, run.eligible, p);
    ReadyIs(views[i], run.eligible[i], run);
  }

  /** A second run creates nothing: once a run has committed, or found nothing left to prepare, no later run of the
      same descriptors inserts a row, whatever other writers did in between and do meanwhile. */
  lemma SecondRunCreatesNothing(run: Run, views: seq<World>, locked: World, lock: Lock,
                                again: Run, views': seq<World>, locked': World, lock': Lock)
    requires |views| == |run.eligible| && |views'| == |run.eligible| && again.eligible == run.eligible
    requires var r := Executed(run, views, locked, lock).0;
      r.Report? && r.digestVerified && !r.abortedForSkips && !run.dryRun
    requires forall i | 0 <= i < |views| :: KeepsKeys(views[i].obligations, locked.obligations)
    requires forall i | 0 <= i < |views'| ::
      KeepsKeys(Executed(run, views, locked, lock).1.obligations, views'[i].obligations)
    ensures var (r', after') := Executed(again, views', locked', lock');
      after' == locked' && r'.Report? && r'.created == []
  {
    var after := Executed(run, views, locked, lock).1;
    AllOrNothing(run, views, locked, lock);
    var vs := Verdicts(views', run.eligible, again);
    forall i | 0 <= i < |run.eligible| ensures !vs[i].Ready? {
      ApprovedIsThere(run, views, locked, lock, i);
      KeptIsFound(after.obligations, views'[i].obligations, KeyFor(run.eligible[i]));
      KnownIsNotReady(views'[i], run.eligible[i], again);
    }
    NoneReady(vs, run.eligible);
  }

  lemma KnownIsNotReady(w: World, d: Descriptor, run: Run)
    requires Complete(d) && FindKey(w.obligations, KeyFor(d)).Some?
    ensures !Examine(w, d, run).Ready?
  {
  }

  lemma {:induction false} NoneReady(vs: seq<Verdict>, eligible: seq<Descriptor>)
    requires |vs| == |eligible| && forall i | 0 <= i < |vs| :: !vs[i].Ready?
    ensures Collected(vs, eligible).prepared == []
  {
    var n := |eligible| - 1;
    if n >= 0 { NoneReady(vs[..n], eligible[..n]); }
  }

  lemma ApprovedIsThere(run: Run, views: seq<World>, locked: World, lock: Lock, i: nat)
    requires |views| == |run.eligible| && i < |run.eligible|
    requires var r := Executed(run, views, locked, lock).0;
      r.Report? && r.digestVerified && !r.abortedForSkips && !run.dryRun
    requires KeepsKeys(views[i].obligations, locked.obligations)
    ensures Complete(run.eligible[i])
      && FindKey(Executed(run, views, locked, lock).1.obligations, KeyFor(run.eligible[i])).Some?
  {
    if Committed(run, views, locked, lock) {
      CommitIsWhole(run, views, locked, lock);
    } else {
      OnlyExisting(run, views, locked, lock, i);
      ExistingIs(views[i], run.eligible[i], run);
      KeptIsFound(views[i].obligations, locked.obligations, KeyFor(run.eligible[i]));
    }
  }

  /** A run that reported without committing or aborting prepared nothing. */
  lemma OnlyExisting(run: Run, views: seq<World>, locked: World, lock: Lock, i: nat)
    requires |views| == |run.eligible| && i < |run.eligible| && !Committed(run, views, locked, lock)
    requires var r := Executed(run, views, locked, lock).0;
      r.Report? && r.digestVerified && !r.abortedForSkips && !run.dryRun
    ensures StageA(views, run.eligible, run).skipped == [] && Examine(views[i], run.eligible[i], run).Existing?
  {
    var vs := Verdicts(views, run.eligible, run);
    assert Collected(vs, run.eligible).skipped == [] && Collected(vs, run.eligible).prepared == [];
    StageNoSkip(vs, run.eligible, i);
    NotWould(views[i], run.eligible[i], run);
  }

  lemma NotWould(w: World, d: Descriptor, run: Run)
    requires !run.dryRun
    ensures !Examine(w, d, run).WouldCreate?
  {
  }

  // The generator and the executor agree.

  ghost predicate SeqNosPositive(w: World) {
    forall s <- w.inbound :: s > 0
  }

  /** Retention of the media of this descriptor would succeed. */
  ghost predicate MediaRetainable(w: World, d: Descriptor) {
    d.mediaSha256.Some? && d.messageId in w.messages && w.messages[d.messageId].mediaPath.Some? ==>
      w.messages[d.messageId].mediaPath.value in w.retainable
  }

  /** What the executor needs of a descriptor so as not to skip it. */
  ghost predicate Sound(w: World, d: Descriptor) {
    && Complete(d) && d.seqNo > 0 && ClassifyRecovery(w.jobs, BindFor(d)).None? && d.messageId in w.messages
    && var message := w.messages[d.messageId];
    && d.inputDigest == Some(InputDigest(message.content.GetOr(""), d.mediaClass))
    && match d.mediaSha256
       case None => message.content.GetOr("") != "" && d.sourceToken.Some?
       case Some(sha) =>
         && message.mediaPath.Some? && message.mediaPath.value in w.files
         && sha == Sha256(w.files[message.mediaPath.value]) && d.sourceDigest == Some(sha)
  }

  lemma EligibleWithoutMedia(w: World, contract: Contract, c: Entry)
    requires Describe(w, contract, c).eligible && contract.TokensComeFromText() && SeqNosPositive(w)
    requires c.messageId in w.messages && w.messages[c.messageId].mediaPath.None?
    ensures Sound(w, Describe(w, contract, c))
  {
    var d := Describe(w, contract, c);
    assert BindFor(d) == BindOf(c, w.inbound[c.seqNo]);
    assert contract.evaluate("", c.mediaClass).Match? ==> contract.evaluate("", c.mediaClass).sourceToken.None?;
  }

  lemma EligibleWithMedia(w: World, contract: Contract, c: Entry)
    requires Describe(w, contract, c).eligible && SeqNosPositive(w)
    requires c.messageId in w.messages && w.messages[c.messageId].mediaPath.Some?
    ensures Sound(w, Describe(w, contract, c))
  {
    var d := Describe(w, contract, c);
    assert BindFor(d) == BindOf(c, w.inbound[c.seqNo]);
  }

  lemma EligibleIsSound(w: World, contract: Contract, c: Entry)
    requires Describe(w, contract, c).eligible && contract.TokensComeFromText() && SeqNosPositive(w)
    ensures Sound(w, Describe(w, contract, c))
  {
    if w.messages[c.messageId].mediaPath.None? { EligibleWithoutMedia(w, contract, c); }
    else { EligibleWithMedia(w, contract, c); }
  }

  /** What is sound, the executor does not skip: it exists already, or is prepared as a row that the store accepts. */
  lemma SoundIsNeverSkipped(w: World, d: Descriptor, run: Run)
    requires Sound(w, d) && (!run.dryRun ==> MediaRetainable(w, d))
    ensures var v := Examine(w, d, run);
      && !v.Skipped?
      && (v.Ready? ==> (
            && Valid(v.prepared.row) && v.prepared.bind == BindFor(d) && KeyOf(v.prepared.row) == KeyFor(d)
            && FindKey(w.obligations, KeyFor(d)).None?))
  {
    var message := w.messages[d.messageId];
    assert MediaProblem(w, d, message, run.dryRun).None?;
  }

  lemma AgreedStage(w: World, views: seq<World>, eligible: seq<Descriptor>, run: Run)
    requires |views| == |eligible| && (forall v <- views :: v == w)
    requires forall d <- eligible :: Sound(w, d) && (!run.dryRun ==> MediaRetainable(w, d))
    ensures var s := StageA(views, eligible, run);
      s.skipped == [] && forall p <- s.prepared :: Valid(p.row) && !Changed(w, p)
  {
    var vs := Verdicts(views, eligible, run);
    forall i | 0 <= i < |vs|
      ensures !vs[i].Skipped? && (vs[i].Ready? ==> Valid(vs[i].prepared.row) && !Changed(w, vs[i].prepared))
    {
      assert eligible[i] in eligible && views[i] in views;
      SoundIsNeverSkipped(w, eligible[i], run);
    }
    NothingSkipped(vs, eligible);
    forall p <- Collected(vs, eligible).prepared ensures Valid(p.row) && !Changed(w, p) {
      var i := PreparedComesFrom(vs, eligible, p);
    }
  }

  lemma {:induction false} ValidInserts(ledger: seq<Obligation>, prepared: seq<Prepared>)
    requires forall p <- prepared :: Valid(p.row)
    ensures InsertAll(ledger, prepared).Some?
  {
    if prepared != [] {
      assert forall p <- prepared[..|prepared| - 1] :: p in prepared;
      ValidInserts(ledger, prepared[..|prepared| - 1]);
    }
  }

  lemma {:induction false} UnchangedIsNone(locked: World, prepared: seq<Prepared>)
    requires forall p <- prepared :: !Changed(locked, p)
    ensures FirstChanged(locked, prepared).None?
  {
    if prepared != [] {
      assert forall p <- prepared[..|prepared| - 1] :: p in prepared;
      UnchangedIsNone(locked, prepared[..|prepared| - 1]);
    }
  }

  lemma ManifestIsSound(w: World, contract: Contract, confirmed: seq<Entry>, d: Descriptor)
    requires contract.TokensComeFromText() && SeqNosPositive(w)
    requires d in Eligible(Descriptors(w, contract, confirmed))
    ensures Sound(w, d)
  {
    var ds := Descriptors(w, contract, confirmed);
    EligibleHolds(ds, d);
    var i :| 0 <= i < |ds| && ds[i] == d;
    if confirmed != [] {
      DescriptorAt(w, contract, confirmed, 0);
      DescriptorAt(w, contract, confirmed, i);
      EligibleIsSound(w, contract, confirmed[i]);
    }
  }

  /** `m` is what `GenerateBackfillManifest` makes of the confirmed entries. */
  ghost predicate IsManifestOf(m: Manifest, w: World, contract: Contract, confirmed: seq<Entry>) {
    && m.entries == Descriptors(w, contract, confirmed)
    && m.manifestDigest == ComputeManifestDigest(m.manifestId, Eligible(m.entries))
  }

  /** The executor is handed the eligible descriptors of `m`, possibly in another order between different source
      sequence numbers, under the digest that `m` states. */
  ghost predicate RunsManifest(run: Run, m: Manifest) {
    && run.manifestId == m.manifestId && run.approved == m.manifestDigest
    && SamePerKey(Canonicals(run.eligible), Canonicals(Eligible(m.entries)))
    && forall d <- run.eligible :: d.eligible
  }

  /** The reason of a descriptor does not matter to the executor. */
  lemma SoundWithAnyReason(w: World, d: Descriptor)
    requires d.eligible && Sound(w, d.(eligible := true, reason := None))
    ensures Sound(w, d)
  {
    assert BindFor(d) == BindFor(d.(eligible := true, reason := None));
  }

  /** A descriptor of one list is, up to what the digest leaves out, one of the other. */
  lemma CanonicalIsShared(a: seq<Descriptor>, b: seq<Descriptor>, d: Descriptor) returns (e: Descriptor)
    requires SamePerKey(Canonicals(a), Canonicals(b)) && d in a
    ensures e in b && Canonical(e) == Canonical(d)
  {
    var i :| 0 <= i < |a| && a[i] == d;
    assert Canonicals(a)[i] == Canonical(d);
    OfKeyHolds(Canonicals(a), d.seqNo, Canonical(d));
    assert OfKey(Canonicals(a), d.seqNo) == OfKey(Canonicals(b), d.seqNo);
    OfKeyHolds(Canonicals(b), d.seqNo, Canonical(d));
    var j :| 0 <= j < |Canonicals(b)| && Canonicals(b)[j] == Canonical(d);
    e := b[j];
  }

  lemma HandedIsSound(w: World, contract: Contract, confirmed: seq<Entry>, m: Manifest, run: Run, d: Descriptor)
    requires contract.TokensComeFromText() && SeqNosPositive(w)
    requires IsManifestOf(m, w, contract, confirmed) && RunsManifest(run, m) && d in run.eligible
    ensures Sound(w, d)
  {
    var e := CanonicalIsShared(run.eligible, Eligible(m.entries), d);
    ManifestIsSound(w, contract, confirmed, e);
    EligibleHolds(m.entries, e);
    var i :| 0 <= i < |m.entries| && m.entries[i] == e;
    if confirmed != [] {
      DescriptorAt(w, contract, confirmed, 0);
      NothingIsDropped(w, contract, confirmed, i);
    }
    assert e == e.(eligible := true, reason := None) == d.(eligible := true, reason := None);
    SoundWithAnyReason(w, d);
  }

  /** The generator and the executor agree: on an unchanged database and unchanged media, whatever order the
      eligible descriptors of different sequence numbers are handed on in, the digest stated by the generator is
      the one the executor computes, nothing is skipped, and every descriptor is created or exists already; in a
      dry run it is announced or exists already. */
  lemma GeneratorAndExecutorAgree(w: World, contract: Contract, confirmed: seq<Entry>, m: Manifest, run: Run,
                                  views: seq<World>)
    requires contract.TokensComeFromText() && SeqNosPositive(w)
    requires IsManifestOf(m, w, contract, confirmed) && RunsManifest(run, m)
    requires !run.dryRun ==> forall d <- run.eligible :: MediaRetainable(w, d)
    requires |views| == |run.eligible| && forall v <- views :: v == w
    ensures var (r, after) := Executed(run, views, w, Lock(true, true));
      && r.Report? && r.digestVerified && r.skipped == [] && !r.abortedForSkips
      && |r.created| + |r.wouldCreate| + |r.alreadyExisted| == |run.eligible|
      && (run.dryRun ==> after == w && r.created == [])
      && (!run.dryRun ==> r.wouldCreate == [] && forall d <- run.eligible ::
            Complete(d) && FindKey(after.obligations, KeyFor(d)).Some?)
  {
    DigestEqualIff(run.manifestId, run.eligible, m.manifestId, Eligible(m.entries));
    forall d <- run.eligible ensures Sound(w, d) { HandedIsSound(w, contract, confirmed, m, run, d); }
    SoundRunAgrees(w, run, views);
  }

  lemma SoundRunAgrees(w: World, run: Run, views: seq<World>)
    requires ComputeManifestDigest(run.manifestId, run.eligible) == run.approved
    requires forall d <- run.eligible :: Sound(w, d) && (!run.dryRun ==> MediaRetainable(w, d))
    requires |views| == |run.eligible| && forall v <- views :: v == w
    ensures var (r, after) := Executed(run, views, w, Lock(true, true));
      && r.Report? && r.digestVerified && r.skipped == [] && !r.abortedForSkips
      && |r.created| + |r.wouldCreate| + |r.alreadyExisted| == |run.eligible|
      && (run.dryRun ==> after == w && r.created == [])
      && (!run.dryRun ==> r.wouldCreate == [] && forall d <- run.eligible ::
            Complete(d) && FindKey(after.obligations, KeyFor(d)).Some?)
  {
    var s := StageA(views, run.eligible, run);
    AgreedStage(w, views, run.eligible, run);
    StageAccounts(Verdicts(views, run.eligible, run), run.eligible);
    DryOrReady(views, run.eligible, run);
    UnchangedIsNone(w, s.prepared);
    ValidInserts(w.obligations, s.prepared);
    InsertAllAdds(w.obligations, s.prepared);
    if !run.dryRun {
      forall d <- run.eligible
        ensures Complete(d) && FindKey(Executed(run, views, w, Lock(true, true)).1.obligations, KeyFor(d)).Some?
      {
        var i :| 0 <= i < |run.eligible| && run.eligible[i] == d;
        assert views[i] == w by { assert views[i] in views; }
        ApprovedIsThere(run, views, w, Lock(true, true), i);
      }
    }
  }
}
