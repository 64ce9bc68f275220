/** The backfill executor of `scripts/capability-obligation-backfill-execute.ts`: preparation without a lock,
    then a re-check and the inserts under one. Other writers may act before every read of the preparation and
    before the lock; the schema lets them add obligations and never remove or rewrite one. */
module BackfillExecute {
  import opened Wrappers
  import opened BackfillManifest

  datatype Run = Run(
    manifestId: string, approved: ManifestDigest, eligible: seq<Descriptor>, policyVersion: string, skill: string,
    dryRun: bool)

  /** The columns that are unique together. */
  datatype Key = Key(seqNo: int, messageId: string, contractVersion: string, capability: string)

  function KeyOf(o: Obligation): Key {
    Key(o.seqNo, o.messageId, o.contractVersion, o.capability)
  }

  /** The id of the obligation with key `k`. */
  function FindKey(obligations: seq<Obligation>, k: Key): Option<nat> {
    if obligations == [] then None
    else
      var n := |obligations| - 1;
      var earlier := FindKey(obligations[..n], k);
      if earlier.Some? then earlier else if KeyOf(obligations[n]) == k then Some(n + 1) else None
  }

  // Stage A: one descriptor, as one moment shows it.

  datatype Prepared = Prepared(bind: Bind, row: Obligation)

  datatype Verdict = Skipped(reason: string) | Existing(id: nat) | WouldCreate | Ready(prepared: Prepared)

  predicate Complete(d: Descriptor) {
    && d.eligible && d.capability.Some? && d.contractVersion.Some? && d.sourceDigest.Some? && d.jobId.Some?
    && d.classification.Some? && d.conversationKey.Some? && d.deliveryJid.Some? && d.inputDigest.Some?
  }

  function BindFor(d: Descriptor): Bind
    requires Complete(d)
  {
    Bind(d.jobId.value, d.seqNo, d.messageId, d.conversationKey.value, d.deliveryJid.value, d.classification.value)
  }

  function KeyFor(d: Descriptor): Key
    requires Complete(d)
  {
    Key(d.seqNo, d.messageId, d.contractVersion.value, d.capability.value)
  }

  function RowFor(d: Descriptor, message: Message, retained: Option<Retained>, run: Run): Obligation
    requires Complete(d)
  {
    var isGroup := d.isGroup.GetOr(false);
    var text := message.content.GetOr("");
    Obligation(d.seqNo, d.messageId, d.conversationKey.value, d.deliveryJid.value, message.senderJid, isGroup,
               if isGroup then d.deliveryJid else None, d.jobId,
               if retained.Some? && text == "" then "[retained media]" else text,
               if retained.Some? then "media" else "text", d.contractVersion.value, d.capability.value, run.skill,
               d.inputDigest.value, d.sourceDigest.value, if retained.Some? then None else d.sourceToken, retained,
               if isGroup then "waiting_approval" else "waiting_capability", "reviewed_backfill:" + run.manifestId)
  }

  /** Why the media of the message are not those of the descriptor, if they are not. A dry run reads them, a
      confirmed one retains them. */
  function MediaProblem(w: World, d: Descriptor, message: Message, dryRun: bool): Option<string> {
    if d.mediaSha256.None? then None
    else if message.mediaPath.None? then Some("media_path_missing")
    else if dryRun && message.mediaPath.value !in w.files then Some("media_unavailable")
    else if !dryRun && (message.mediaPath.value !in w.files || message.mediaPath.value !in w.retainable)
    then Some("media_retention_failed")
    else if Sha256(w.files[message.mediaPath.value]) != d.mediaSha256.value then Some("media_reverify_failed")
    else None
  }

  function RetainedFor(w: World, d: Descriptor, message: Message, run: Run): Option<Retained>
    requires MediaProblem(w, d, message, run.dryRun).None?
  {
    if d.mediaSha256.None? then None
    else
      var bytes := w.files[message.mediaPath.value];
      Some(Retained(Sha256(bytes), |bytes|, run.policyVersion))
  }

  function Examine(w: World, d: Descriptor, run: Run): Verdict {
    if !Complete(d) then Skipped("descriptor_not_eligible")
    else
      var recovery := ClassifyRecovery(w.jobs, BindFor(d));
      var existing := FindKey(w.obligations, KeyFor(d));
      if recovery.Some? then Skipped(recovery.value)
      else if existing.Some? then Existing(existing.value)
      else if d.messageId !in w.messages then Skipped("message_not_found")
      else
        var message := w.messages[d.messageId];
        var problem := MediaProblem(w, d, message, run.dryRun);
        if InputDigest(message.content.GetOr(""), d.mediaClass) != d.inputDigest.value then
          Skipped("input_reverify_failed")
        else if problem.Some? then Skipped(problem.value)
        else if run.dryRun then WouldCreate
        else Ready(Prepared(BindFor(d), RowFor(d, message, RetainedFor(w, d, message, run), run)))
  }

  /** What stage A collects, descriptor by descriptor. */
  datatype Stage = Stage(
    wouldCreate: seq<int>, alreadyExisted: seq<nat>, skipped: seq<(int, string)>, prepared: seq<Prepared>)

  function Collect(s: Stage, d: Descriptor, v: Verdict): Stage {
    match v
    case Skipped(reason) => s.(skipped := s.skipped + [(d.seqNo, reason)])
    case Existing(id) => s.(alreadyExisted := s.alreadyExisted + [id])
    case WouldCreate => s.(wouldCreate := s.wouldCreate + [d.seqNo])
    case Ready(p) => s.(prepared := s.prepared + [p])
  }

  function Verdicts(views: seq<World>, eligible: seq<Descriptor>, run: Run): (vs: seq<Verdict>)
    requires |views| == |eligible|
    ensures |vs| == |eligible| && forall i | 0 <= i < |vs| :: vs[i] == Examine(views[i], eligible[i], run)
  {
    seq(|eligible|, i requires 0 <= i < |eligible| => Examine(views[i], eligible[i], run))
  }

  function Collected(vs: seq<Verdict>, eligible: seq<Descriptor>): Stage
    requires |vs| == |eligible|
  {
    if eligible == [] then Stage([], [], [], [])
    else
      var n := |eligible| - 1;
      Collect(Collected(vs[..n], eligible[..n]), eligible[n], vs[n])
  }

  function StageA(views: seq<World>, eligible: seq<Descriptor>, run: Run): Stage
    requires |views| == |eligible|
  {
    Collected(Verdicts(views, eligible, run), eligible)
  }

  // Stage C.

  /** The authoritative re-check of one prepared row. */
  predicate Changed(locked: World, p: Prepared) {
    ClassifyRecovery(locked.jobs, p.bind).Some? || FindKey(locked.obligations, KeyOf(p.row)).Some?
  }

  function FirstChanged(locked: World, prepared: seq<Prepared>): Option<int> {
    if prepared == [] then None
    else
      var n := |prepared| - 1;
      var earlier := FirstChanged(locked, prepared[..n]);
      if earlier.Some? then earlier else if Changed(locked, prepared[n]) then Some(prepared[n].row.seqNo) else None
  }

  /** What `validateCapabilityDecisionParams` demands of a row. */
  predicate Valid(o: Obligation) {
    && o.replayText != "" && o.seqNo > 0
    && (o.isGroup ==> o.groupName.Some?)
    && (o.retained.Some? ==> o.sourceDigest == o.retained.value.sha256)
    && (o.retained.Some? <==> o.sourceToken.None?)
  }

  /** The ledger and the ids after inserting the rows; an existing row wins. Nothing when a row is not valid. */
  function InsertAll(obligations: seq<Obligation>, prepared: seq<Prepared>): Option<(seq<Obligation>, seq<nat>)> {
    if prepared == [] then Some((obligations, []))
    else
      var n := |prepared| - 1;
      var sofar := InsertAll(obligations, prepared[..n]);
      if sofar.None? || !Valid(prepared[n].row) then None
      else
        var existing := FindKey(sofar.value.0, KeyOf(prepared[n].row));
        if existing.Some? then Some((sofar.value.0, sofar.value.1 + [existing.value]))
        else Some((sofar.value.0 + [prepared[n].row], sofar.value.1 + [|sofar.value.0| + 1]))
  }

  datatype Report =
    | Threw
    | Report(digestVerified: bool, created: seq<nat>, wouldCreate: seq<int>, alreadyExisted: seq<nat>,
             skipped: seq<(int, string)>, abortedForSkips: bool)

  /** How the lock is met: free or held, and whether the assertion before the commit passes. */
  datatype Lock = Lock(free: bool, assertion: bool)

  const UNVERIFIED := Report(false, [], [], [], [], false)

  /** The whole run: the report, and the world when it ends. `views` are the moments at which the descriptors
      are examined, `locked` the last one, under the lock if it is taken. */
  function Executed(run: Run, views: seq<World>, locked: World, lock: Lock): (Report, World)
    requires |views| == |run.eligible|
  {
    var s := StageA(views, run.eligible, run);
    var stop := Report(true, [], s.wouldCreate, s.alreadyExisted, s.skipped, !run.dryRun && s.skipped != []);
    if ComputeManifestDigest(run.manifestId, run.eligible) != run.approved then (UNVERIFIED, locked)
    else if run.dryRun || s.skipped != [] || s.prepared == [] then (stop, locked)
    else if !lock.free || !lock.assertion then (Threw, locked)
    else
      var changed := FirstChanged(locked, s.prepared);
      var inserted := InsertAll(locked.obligations, s.prepared);
      if changed.Some?
      then
        (stop.(skipped := s.skipped + [(changed.value, "state_changed_under_lock")], abortedForSkips := true), locked)
      else if inserted.None? then (Threw, locked)
      else (stop.(created := inserted.value.1), locked.(obligations := inserted.value.0))
  }

  /** `executeBackfill`. */
  method ExecuteBackfill(run: Run, views: seq<World>, locked: World, lock: Lock) returns (r: Report, after: World)
    requires |views| == |run.eligible|
    ensures (r, after) == Executed(run, views, locked, lock)
  {
    after := locked;
    if ComputeManifestDigest(run.manifestId, run.eligible) != run.approved { return UNVERIFIED, after; }
    var s := Stage([], [], [], []);
    ghost var vs := Verdicts(views, run.eligible, run);
    for i := 0 to |run.eligible|
      invariant s == Collected(vs[..i], run.eligible[..i])
    {
      var d := run.eligible[i];
      var v := Examine(views[i], d, run);
      assert vs[..i + 1][..i] == vs[..i] && run.eligible[..i + 1][..i] == run.eligible[..i];
      assert vs[..i + 1][i] == v && run.eligible[..i + 1][i] == d;
      s := Collect(s, d, v);
    }
    assert vs[..|vs|] == vs && run.eligible[..|run.eligible|] == run.eligible;
    if run.dryRun { return Report(true, [], s.wouldCreate, s.alreadyExisted, s.skipped, false), after; }
    if s.skipped != [] { return Report(true, [], s.wouldCreate, s.alreadyExisted, s.skipped, true), after; }
    if s.prepared == [] { return Report(true, [], s.wouldCreate, s.alreadyExisted, s.skipped, false), after; }
    if !lock.free || !lock.assertion { return Threw, after; }
    var changed := Recheck(locked, s.prepared);
    if changed.Some? {
      return Report(true, [], s.wouldCreate, s.alreadyExisted,
        s.skipped + [(changed.value, "state_changed_under_lock")], true), after;
    }
    var committed, obligations, created := InsertPrepared(locked.obligations, s.prepared);
    if !committed { return Threw, after; }
    after := locked.(obligations := obligations);
    r := Report(true, created, s.wouldCreate, s.alreadyExisted, s.skipped, false);
  }

  /** The re-check loop, stopping at the first row whose state changed. */
  method Recheck(locked: World, prepared: seq<Prepared>) returns (changed: Option<int>)
    ensures changed == FirstChanged(locked, prepared)
  {
    for i := 0 to |prepared|
      invariant FirstChanged(locked, prepared[..i]) == None
    {
      assert prepared[..i + 1][..i] == prepared[..i];
      if Changed(locked, prepared[i]) {
        StaysChanged(locked, prepared, i + 1);
        return Some(prepared[i].row.seqNo);
      }
    }
    assert prepared[..|prepared|] == prepared;
    return None;
  }

  lemma {:induction false} StaysChanged(locked: World, prepared: seq<Prepared>, i: nat)
    requires i <= |prepared| && FirstChanged(locked, prepared[..i]).Some?
    ensures FirstChanged(locked, prepared) == FirstChanged(locked, prepared[..i])
  {
    if i == |prepared| {
      assert prepared[..i] == prepared;
    } else {
      var n := |prepared| - 1;
      assert prepared[..n][..i] == prepared[..i];
      StaysChanged(locked, prepared[..n], i);
    }
  }

  /** The insert loop; a row that is not valid throws, and the transaction rolls back. */
  method InsertPrepared(ledger: seq<Obligation>, prepared: seq<Prepared>)
    returns (committed: bool, obligations: seq<Obligation>, created: seq<nat>)
    ensures committed <==> InsertAll(ledger, prepared).Some?
    ensures committed ==> InsertAll(ledger, prepared) == Some((obligations, created))
  {
    obligations, created := ledger, [];
    for i := 0 to |prepared|
      invariant InsertAll(ledger, prepared[..i]) == Some((obligations, created))
    {
      var row := prepared[i].row;
      assert prepared[..i + 1][..i] == prepared[..i];
      if !Valid(row) {
        StaysInvalid(ledger, prepared, i + 1);
        return false, ledger, [];
      }
      var existing := FindKey(obligations, KeyOf(row));
      if existing.Some? {
        created := created + [existing.value];
      } else {
        obligations, created := obligations + [row], created + [|obligations| + 1];
      }
    }
    assert prepared[..|prepared|] == prepared;
    committed := true;
  }

  lemma {:induction false} StaysInvalid(ledger: seq<Obligation>, prepared: seq<Prepared>, i: nat)
    requires i <= |prepared| && InsertAll(ledger, prepared[..i]).None?
    ensures InsertAll(ledger, prepared).None?
  {
    if i == |prepared| {
      assert prepared[..i] == prepared;
    } else {
      assert prepared[..|prepared| - 1][..i] == prepared[..i];
      StaysInvalid(ledger, prepared[..|prepared| - 1], i);
    }
  }
}
